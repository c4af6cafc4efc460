/** Sequences of state-changing requests against one session, handled one
    after another: verification callbacks and logouts. The read-only routes
    of module Gate leave the session as it is and are not part of a trace. */
module Trace {
  import opened Wrappers
  import opened Age
  import opened Certification
  import opened Verification
  import opened Gate

  datatype Request =
    | VerifyCallback(success: bool, lookup: Fetch<Option<CertData>>, today: Date, nowIso: string)
    | LogoutRequest

  /** The session after one request, as Session.Verify and Session.Logout
      leave it. */
  function Step(s: SessionState, testMode: bool, q: Request): SessionState
  {
    match q
    case VerifyCallback(success, lookup, today, nowIso) =>
      Apply(s, Decide(success, testMode, lookup, today, nowIso))
    case LogoutRequest => Fresh
  }

  /** The session after a whole sequence of requests. */
  function Run(s: SessionState, testMode: bool, qs: seq<Request>): SessionState
    decreases |qs|
  {
    if qs == [] then s
    else Step(Run(s, testMode, qs[..|qs| - 1]), testMode, qs[|qs| - 1])
  }

  /** A session is consistent when it is adult exactly when it holds an identity. */
  predicate Consistent(s: SessionState)
  {
    s.isAdult <==> s.certInfo.Some?
  }

  /** Whether a request is a callback entitled to write `info` into the session. */
  predicate Grants(q: Request, testMode: bool, info: CertInfo)
  {
    q.VerifyCallback? && Justifies(q.success, testMode, q.lookup, q.today, q.nowIso, info)
  }

  /** Every trace keeps a consistent session consistent. */
  lemma {:induction false} RunKeepsConsistent(s: SessionState, testMode: bool, qs: seq<Request>)
    requires Consistent(s)
    ensures Consistent(Run(s, testMode, qs))
  {
    if qs != [] {
      RunKeepsConsistent(s, testMode, qs[..|qs| - 1]);
    }
  }

  /** A session that was not adult and is adult after a trace was made so by
      one of the trace's callbacks, and the identity it holds is the one that
      callback was entitled to store: the synthetic one in test mode,
      otherwise that of a record whose holder was 19 or older. */
  lemma {:induction false} AdultSessionIsJustified(s: SessionState, testMode: bool, qs: seq<Request>)
    requires !s.isAdult
    requires Run(s, testMode, qs).isAdult
    ensures Run(s, testMode, qs).certInfo.Some?
    ensures exists i :: 0 <= i < |qs| && Grants(qs[i], testMode, Run(s, testMode, qs).certInfo.value)
  {
    var n := |qs|;
    if n > 0 {
      var prefix := qs[..n - 1];
      var before := Run(s, testMode, prefix);
      var q := qs[n - 1];
      if q.VerifyCallback? {
        var v := Decide(q.success, testMode, q.lookup, q.today, q.nowIso);
        if v.grant.Some? {
          assert Grants(qs[n - 1], testMode, v.grant.value);
        } else {
          AdultSessionIsJustified(s, testMode, prefix);
          var i :| 0 <= i < n - 1 && Grants(prefix[i], testMode, before.certInfo.value);
          assert qs[i] == prefix[i];
        }
      }
    }
  }

  /** Without a logout, nothing demotes an adult session: failed callbacks
      leave it alone and successful ones keep it adult. */
  lemma {:induction false} AdultUntilLogout(s: SessionState, testMode: bool, qs: seq<Request>)
    requires s.isAdult
    requires forall i :: 0 <= i < |qs| ==> qs[i].VerifyCallback?
    ensures Run(s, testMode, qs).isAdult
  {
    if qs != [] {
      AdultUntilLogout(s, testMode, qs[..|qs| - 1]);
    }
  }

  /** After a logout the status API reports the session as unauthenticated
      and the gate redirects, whatever came before. */
  lemma LogoutUnauthenticates(s: SessionState, testMode: bool, qs: seq<Request>)
    ensures !CheckAuth(Run(s, testMode, qs + [LogoutRequest])).isAuthenticated
    ensures CheckAdultAuth(Run(s, testMode, qs + [LogoutRequest])) == RedirectTo(AuthPage)
  {
  }

  /** Starting from a consistent session (a fresh one, say), the status API
      never falls back to the placeholder user. */
  lemma {:induction false} DefaultUserNeverShown(s: SessionState, testMode: bool, qs: seq<Request>)
    requires Consistent(s)
    ensures CheckAuth(Run(s, testMode, qs)).userInfo != Some(DefaultUser(DefaultUserName))
  {
    RunKeepsConsistent(s, testMode, qs);
  }
}
