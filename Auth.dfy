/** The backend's `verifyToken` middleware: it takes the bearer token from
    the `Authorization` header, has the identity provider verify it, and
    either answers 401 or records the caller on the request and passes it on. */
module Auth {
  import opened Wrappers
  import opened Text
  import opened Js
  import opened Express

  const BearerPrefix := "Bearer "
  const NoToken := "No authorization token provided"
  const InvalidToken := "Invalid or expired token"

  /** What a verified token says about its holder; the email may be absent. */
  datatype Decoded = Decoded(uid: string, email: Option<string>)

  /** `authHeader.split('Bearer ')[1]` for a header that starts with the
      prefix: the text after it, up to the next occurrence of the prefix. */
  function BearerToken(header: Option<string>): (t: Option<string>)
    ensures t.None? <==> header.None? || !StartsWith(header.value, BearerPrefix)
    ensures t.Some? ==> StartsWith(header.value, BearerPrefix + t.value)
    ensures t.Some? ==> !Contains(t.value, BearerPrefix)
    ensures t.Some? ==>
      header.value == BearerPrefix + t.value || OccursAt(header.value, BearerPrefix, |BearerPrefix| + |t.value|)
  {
    if header.None? || !StartsWith(header.value, BearerPrefix) then None
    else
      var rest := header.value[|BearerPrefix|..];
      assert header.value == BearerPrefix + rest;
      match IndexOf(rest, BearerPrefix)
      case None => Some(rest)
      case Some(k) =>
        NoEarlierOccurrence(rest, BearerPrefix, k);
        assert header.value[..|BearerPrefix| + k] == BearerPrefix + rest[..k];
        assert header.value[|BearerPrefix| + k..|BearerPrefix| + k + |BearerPrefix|]
            == rest[k..k + |BearerPrefix|];
        Some(rest[..k])
  }

  /** Text before the first occurrence of `part` does not contain it. */
  lemma NoEarlierOccurrence(s: string, part: string, k: nat)
    requires part != [] && k <= |s|
    requires forall j :: 0 <= j < k ==> !OccursAt(s, part, j)
    ensures !Contains(s[..k], part)
  {
    forall j | 0 <= j <= k && OccursAt(s[..k], part, j)
      ensures false
    {
      assert s[..k][j..j + |part|] == s[j..j + |part|];
      assert OccursAt(s, part, j);
    }
  }

  /** Round trip: a token without the prefix in it is read back from its header. */
  lemma BearerRoundTrip(token: string)
    requires !Contains(token, BearerPrefix)
    ensures BearerToken(Some(BearerPrefix + token)) == Some(token)
  {
    var header := BearerPrefix + token;
    assert header[..|BearerPrefix|] == BearerPrefix;
    assert header[|BearerPrefix|..] == token;
  }

  /** The request object the middleware reads and annotates. */
  class AuthRequest {
    const authorization: Option<string>
    var userId: Option<string>
    var userEmail: Option<string>

    constructor(authorization: Option<string>)
      ensures this.authorization == authorization
      ensures userId == None && userEmail == None
    {
      this.authorization := authorization;
      userId := None;
      userEmail := None;
    }
  }

  /** `verifyToken(req, res, next)`: `verify` is the identity provider,
      `None` where `verifyIdToken` throws. The result is the reply sent,
      `None` when the request was passed on, and how often `next` was called. */
  method VerifyToken(req: AuthRequest, verify: string -> Option<Decoded>) returns (reply: Option<Response>, nextCalls: nat)
    modifies req
    ensures nextCalls <= 1 && (nextCalls == 1 <==> reply.None?)
    ensures BearerToken(req.authorization).None? ==>
      reply == Some(ErrorReply(NoToken, 401)) && unchanged(req)
    ensures BearerToken(req.authorization).Some? && verify(BearerToken(req.authorization).value).None? ==>
      reply == Some(ErrorReply(InvalidToken, 401)) && unchanged(req)
    ensures BearerToken(req.authorization).Some? && verify(BearerToken(req.authorization).value).Some? ==>
      var decoded := verify(BearerToken(req.authorization).value).value;
      reply.None? && req.userId == Some(decoded.uid) && req.userEmail == decoded.email
  {
    var header := req.authorization;
    if header.None? || !StartsWith(header.value, BearerPrefix) {
      return Some(ErrorReply(NoToken, 401)), 0;
    }
    var token := BearerToken(header).value;
    var decoded := verify(token);
    if decoded.None? {
      return Some(ErrorReply(InvalidToken, 401)), 0;
    }
    req.userId := Some(decoded.value.uid);
    req.userEmail := decoded.value.email;
    reply, nextCalls := None, 1;
  }
}
