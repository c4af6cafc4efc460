/** The `POST /auth/verify` handler of server.js: from the widget's
    `success` flag, the TEST_MODE switch and the settled certification
    lookup it picks one of six terminal outcomes and decides whether the
    session record (`isAdult`, `certInfo`) is overwritten. */
module Verification {
  import opened Wrappers
  import opened Age
  import opened Certification

  const AdultAge := 19
  const ProtectedPage := "/index.html"
  const AuthPage := "/auth"

  const DeniedMessage := "본인인증에 실패했습니다."
  const BypassMessage := "테스트 모드: 성인인증이 완료되었습니다."
  const LookupFailedMessage := "인증 정보를 가져올 수 없습니다."
  const VerifiedMessage := "성인인증이 완료되었습니다."
  const UnderageMessage := "만 19세 이상만 이용 가능합니다."
  const ErrorMessage := "인증 처리 중 오류가 발생했습니다."

  const TestName := "테스트사용자"
  const TestPhone := "010-0000-0000"

  datatype Outcome = Denied | Bypassed | LookupFailed | Underage | Verified | Error

  /** The message the widget shows for each outcome. */
  function MessageOf(outcome: Outcome): string
  {
    match outcome
    case Denied => DeniedMessage
    case Bypassed => BypassMessage
    case LookupFailed => LookupFailedMessage
    case Underage => UnderageMessage
    case Verified => VerifiedMessage
    case Error => ErrorMessage
  }

  /** The six outcomes answer with six different messages, so the widget can
      tell a denial, a failed lookup, an underage applicant and an internal
      error apart although all four are `success: false`. */
  lemma MessagesDistinct(o1: Outcome, o2: Outcome)
    ensures MessageOf(o1) == MessageOf(o2) <==> o1 == o2
  {
  }

  /** The JSON body sent back to the widget. */
  datatype Response = Response(success: bool, message: string, redirect: Option<string>)

  /** `certifiedAt` is an ISO string on the bypass path and the provider's
      numeric `certified_at` on the verified path. */
  datatype Stamp = IsoTime(text: string) | ProviderTime(value: int)

  /** What the session keeps of an identity: `req.session.certInfo`. */
  datatype CertInfo = CertInfo(name: string, phone: string, certifiedAt: Stamp)

  /** The session record's two fields. A fresh session has neither set. */
  datatype SessionState = SessionState(isAdult: bool, certInfo: Option<CertInfo>)

  const Fresh := SessionState(false, None)

  /** A handler's decision: the outcome, the response, and the identity
      written into the session (None: the session is left alone). */
  datatype Verdict = Verdict(outcome: Outcome, response: Response, grant: Option<CertInfo>)

  /** The synthetic identity stored in test mode. */
  function TestCertInfo(nowIso: string): CertInfo
  {
    CertInfo(TestName, TestPhone, IsoTime(nowIso))
  }

  /** The subset of a provider record copied into the session. */
  function InfoOf(cert: CertData): CertInfo
  {
    CertInfo(cert.name, cert.phone, ProviderTime(cert.certifiedAt))
  }

  /** `age >= 19`. An unparseable birthday makes the age NaN in the
      original, and `NaN >= 19` is false. */
  predicate Eligible(cert: CertData, today: Date)
  {
    match cert.birthday
    case None => false
    case Some(birth) => CalculateAge(birth, today) >= AdultAge
  }

  /** Which identity, if any, a callback is entitled to write into the
      session: the synthetic one in test mode, otherwise the looked-up
      record's, and only when its holder is of age. */
  predicate Justifies(success: bool, testMode: bool, lookup: Fetch<Option<CertData>>,
                      today: Date, nowIso: string, info: CertInfo)
  {
    success &&
    if testMode then info == TestCertInfo(nowIso)
    else lookup.Returned? && lookup.value.Some? && Eligible(lookup.value.value, today) &&
         info == InfoOf(lookup.value.value)
  }

  /** The handler's decision tree. `lookup` is how `await getCertification`
      settled; Threw stands for an exception caught by the handler's
      try/catch. */
  function Decide(success: bool, testMode: bool, lookup: Fetch<Option<CertData>>,
                  today: Date, nowIso: string): (v: Verdict)
    ensures v.response.success <==> v.grant.Some?
    ensures v.response.message == MessageOf(v.outcome)
    ensures !success ==> v.outcome == Denied
    ensures success && testMode ==> v.outcome == Bypassed
    ensures success && !testMode && lookup.Threw? ==> v.outcome == Error
    ensures success && !testMode && lookup == Returned(None) ==> v.outcome == LookupFailed
    ensures success && !testMode && lookup.Returned? && lookup.value.Some? ==>
              v.outcome == (if Eligible(lookup.value.value, today) then Verified else Underage)
    ensures v.response.success <==> v.outcome == Bypassed || v.outcome == Verified
    ensures v.response.redirect == (if v.response.success then Some(ProtectedPage) else None)
    ensures v.grant.Some? ==> Justifies(success, testMode, lookup, today, nowIso, v.grant.value)
    ensures (exists info :: Justifies(success, testMode, lookup, today, nowIso, info)) ==> v.grant.Some?
  {
    if !success then
      Verdict(Denied, Response(false, DeniedMessage, None), None)
    else if testMode then
      Verdict(Bypassed, Response(true, BypassMessage, Some(ProtectedPage)), Some(TestCertInfo(nowIso)))
    else
      match lookup
      case Threw =>
        Verdict(Error, Response(false, ErrorMessage, None), None)
      case Returned(None) =>
        Verdict(LookupFailed, Response(false, LookupFailedMessage, None), None)
      case Returned(Some(cert)) =>
        if Eligible(cert, today) then
          Verdict(Verified, Response(true, VerifiedMessage, Some(ProtectedPage)), Some(InfoOf(cert)))
        else
          Verdict(Underage, Response(false, UnderageMessage, None), None)
  }

  /** The session after a decision. */
  function Apply(s: SessionState, v: Verdict): SessionState
  {
    if v.grant.Some? then SessionState(true, v.grant) else s
  }

  /** `success: false` gives a failure and leaves any session as it was. */
  lemma DeniedKeepsSession(s: SessionState, testMode: bool, lookup: Fetch<Option<CertData>>,
                           today: Date, nowIso: string)
    ensures var v := Decide(false, testMode, lookup, today, nowIso);
            v.outcome == Denied && !v.response.success && v.response.message == DeniedMessage &&
            Apply(s, v) == s
  {
  }

  /** In test mode a successful callback marks the session adult with the
      synthetic identity and redirects to the protected page, without the
      lookup playing any part in the decision. */
  lemma BypassIgnoresLookup(s: SessionState, lookup1: Fetch<Option<CertData>>,
                            lookup2: Fetch<Option<CertData>>, today: Date, nowIso: string)
    ensures var v := Decide(true, true, lookup1, today, nowIso);
            v == Decide(true, true, lookup2, today, nowIso) &&
            v.outcome == Bypassed && v.response.message == BypassMessage &&
            v.response.redirect == Some(ProtectedPage) &&
            Apply(s, v) == SessionState(true, Some(TestCertInfo(nowIso)))
  {
  }

  /** A null lookup result is a failure and leaves the session as it was. */
  lemma LookupFailureKeepsSession(s: SessionState, today: Date, nowIso: string)
    ensures var v := Decide(true, false, Returned(None), today, nowIso);
            v.outcome == LookupFailed && !v.response.success && v.response.message == LookupFailedMessage &&
            Apply(s, v) == s
  {
  }

  /** An exception in the lookup is a failure and leaves the session as it was. */
  lemma ErrorKeepsSession(s: SessionState, today: Date, nowIso: string)
    ensures var v := Decide(true, false, Threw, today, nowIso);
            v.outcome == Error && !v.response.success && v.response.message == ErrorMessage &&
            Apply(s, v) == s
  {
  }

  /** With a record in hand, the session is set to that record's identity if
      and only if its holder has had a 19th birthday; otherwise the outcome is
      Underage and the session is left as it was. */
  lemma VerifiedIffNineteenthBirthday(s: SessionState, cert: CertData,
                                                         today: Date, nowIso: string)
    ensures var v := Decide(true, false, Returned(Some(cert)), today, nowIso);
            (v.outcome == Verified <==>
               cert.birthday.Some? && OnOrBefore(Anniversary(cert.birthday.value, AdultAge), today)) &&
            (v.outcome == Verified ==> Apply(s, v) == SessionState(true, Some(InfoOf(cert)))) &&
            (v.outcome == Verified ==> v.response.message == VerifiedMessage) &&
            (v.outcome != Verified ==>
               v.outcome == Underage && v.response.message == UnderageMessage && Apply(s, v) == s)
  {
  }

  /** Every failure response leaves the session untouched, whatever the
      inputs and the prior state. */
  lemma FailureKeepsSession(s: SessionState, success: bool, testMode: bool,
                            lookup: Fetch<Option<CertData>>, today: Date, nowIso: string)
    ensures var v := Decide(success, testMode, lookup, today, nowIso);
            !v.response.success ==> Apply(s, v) == s
  {
  }

  /** Composed with the real certification client the lookup never throws,
      so the Error outcome cannot occur in the server as written. */
  lemma ClientLookupNeverErrors(success: bool, testMode: bool, impUid: string,
                                tokenPost: Fetch<Option<string>>,
                                certGet: (string, string) -> Fetch<Option<CertData>>,
                                today: Date, nowIso: string)
    ensures Decide(success, testMode, Returned(GetCertification(impUid, tokenPost, certGet)),
                   today, nowIso).outcome != Error
  {
  }

  /** The per-browser session record that the handlers update in place. */
  class Session {
    var isAdult: bool
    var certInfo: Option<CertInfo>

    function State(): SessionState
      reads this
    {
      SessionState(isAdult, certInfo)
    }

    /** A session created on a first request carries neither field. */
    constructor ()
      ensures State() == Fresh
    {
      isAdult := false;
      certInfo := None;
    }

    /** `POST /auth/verify` against this session. */
    method Verify(success: bool, testMode: bool, lookup: Fetch<Option<CertData>>,
                  today: Date, nowIso: string) returns (res: Response)
      modifies this
      ensures res == Decide(success, testMode, lookup, today, nowIso).response
      ensures State() == Apply(old(State()), Decide(success, testMode, lookup, today, nowIso))
      ensures !res.success ==> unchanged(this)
      ensures res.success ==> isAdult && certInfo.Some? &&
                              Justifies(success, testMode, lookup, today, nowIso, certInfo.value)
    {
      if !success {
        return Response(false, DeniedMessage, None);
      }
      if testMode {
        isAdult := true;
        certInfo := Some(TestCertInfo(nowIso));
        return Response(true, BypassMessage, Some(ProtectedPage));
      }
      match lookup {
        case Threw =>
          res := Response(false, ErrorMessage, None);
        case Returned(None) =>
          res := Response(false, LookupFailedMessage, None);
        case Returned(Some(cert)) =>
          if Eligible(cert, today) {
            isAdult := true;
            certInfo := Some(InfoOf(cert));
            res := Response(true, VerifiedMessage, Some(ProtectedPage));
          } else {
            res := Response(false, UnderageMessage, None);
          }
      }
    }

    /** `GET /logout`: the session is destroyed (the next request sees a
        fresh one) and the browser is sent to the verification page. */
    method Logout() returns (redirect: string)
      modifies this
      ensures State() == Fresh
      ensures redirect == AuthPage
    {
      isAdult := false;
      certInfo := None;
      redirect := AuthPage;
    }
  }
}
