/** The certification client: `getAccessToken` and `getCertification` in
    server.js. The two HTTPS calls to the provider are parameters: what the
    call settled to, either a returned payload or a thrown error. */
module Certification {
  import opened Wrappers
  import opened Age

  /** How an awaited call settled: it returned a value or it threw. */
  datatype Fetch<+T> = Returned(value: T) | Threw

  /** The provider's certification record (`response.data.response`).
      `birthday` is None when the provider's date string does not parse. */
  datatype CertData = CertData(name: string, phone: string, birthday: Option<Date>, certifiedAt: int)

  /** JavaScript truthiness of the token: null and "" are both falsy. */
  predicate Truthy(token: Option<string>)
  {
    token.Some? && token.value != ""
  }

  /** `getAccessToken`: the token field of the token endpoint's reply, or
      null when the call (or reading the reply) threw. */
  function GetAccessToken(post: Fetch<Option<string>>): (token: Option<string>)
    ensures post.Threw? ==> token == None
    ensures post.Returned? ==> token == post.value
  {
    match post
    case Threw => None
    case Returned(t) => t
  }

  /** `getCertification`: fetch a fresh token, then look the receipt up with
      it. Every failure -- no token, an empty token, a thrown error in either
      call, a null payload -- collapses to None. */
  function GetCertification(
    impUid: string,
    tokenPost: Fetch<Option<string>>,
    certGet: (string, string) -> Fetch<Option<CertData>>): (cert: Option<CertData>)
    ensures !Truthy(GetAccessToken(tokenPost)) ==> cert == None
    ensures Truthy(GetAccessToken(tokenPost)) ==>
              (certGet(impUid, GetAccessToken(tokenPost).value).Threw? ==> cert == None)
    ensures Truthy(GetAccessToken(tokenPost)) ==>
              (certGet(impUid, GetAccessToken(tokenPost).value).Returned? ==>
                 cert == certGet(impUid, GetAccessToken(tokenPost).value).value)
    ensures cert.Some? ==>
              tokenPost.Returned? && Truthy(tokenPost.value) &&
              certGet(impUid, tokenPost.value.value) == Returned(cert)
  {
    var token := GetAccessToken(tokenPost);
    if !Truthy(token) then None
    else
      match certGet(impUid, token.value)
      case Threw => None
      case Returned(payload) => payload
  }

  /** When no usable token comes back, the lookup endpoint is never
      consulted: the result is the same whatever it would have answered. */
  lemma NoTokenNoLookup(
    impUid: string,
    tokenPost: Fetch<Option<string>>,
    get1: (string, string) -> Fetch<Option<CertData>>,
    get2: (string, string) -> Fetch<Option<CertData>>)
    requires !Truthy(GetAccessToken(tokenPost))
    ensures GetCertification(impUid, tokenPost, get1) == GetCertification(impUid, tokenPost, get2) == None
  {
  }
}
