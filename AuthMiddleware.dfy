/** auth.middleware.js `authenticateToken`: reads the Authorization header,
    takes the second space-separated piece as the token, and either answers
    401 or 403 or stores the verified claims on the request and calls the
    next handler. `verify` stands for `jwt.verify` with the server secret. */
module AuthMiddleware {
  import opened Common
  import opened UserStore

  /** The first position of `c` in `s`. */
  function FirstIndex(s: string, c: char): (i: nat)
    requires c in s
    ensures i < |s| && s[i] == c
    ensures forall j :: 0 <= j < i ==> s[j] != c
  {
    if s[0] == c then 0 else 1 + FirstIndex(s[1..], c)
  }

  /** `s.split(sep)` for a one-character separator: the pieces between the
      separators, empty ones included. */
  function Split(s: string, sep: char): (pieces: seq<string>)
    ensures |pieces| >= 1
    ensures forall i :: 0 <= i < |pieces| ==> sep !in pieces[i]
    decreases |s|
  {
    if sep !in s then [s]
    else
      var i := FirstIndex(s, sep);
      [s[..i]] + Split(s[i + 1..], sep)
  }

  /** `pieces.join(sep)`. */
  function Join(pieces: seq<string>, sep: char): string
    requires |pieces| >= 1
  {
    if |pieces| == 1 then pieces[0] else pieces[0] + [sep] + Join(pieces[1..], sep)
  }

  /** Joining the pieces again gives back the header. */
  lemma {:induction false} JoinSplit(s: string, sep: char)
    ensures Join(Split(s, sep), sep) == s
    decreases |s|
  {
    if sep in s {
      var i := FirstIndex(s, sep);
      JoinSplit(s[i + 1..], sep);
      assert Split(s, sep)[1..] == Split(s[i + 1..], sep);
      assert s == s[..i] + [sep] + s[i + 1..];
    }
  }

  /** Text without the separator followed by the separator splits off as the
      first piece. */
  lemma SplitAfterFirst(a: string, sep: char, b: string)
    requires sep !in a
    ensures Split(a + [sep] + b, sep) == [a] + Split(b, sep)
  {
    var s := a + [sep] + b;
    assert s[|a|] == sep;
    assert forall j :: 0 <= j < |a| ==> s[j] == a[j] && s[j] != sep;
    var i := FirstIndex(s, sep);
    assert i == |a|;
    assert s[..i] == a && s[i + 1..] == b;
  }

  /** `authHeader.split(' ')[1]`: undefined when there is no second piece. */
  function TokenOf(header: string): (token: Option<string>)
    ensures token.Some? ==> ' ' !in token.value
  {
    var pieces := Split(header, ' ');
    if |pieces| < 2 then None else Some(pieces[1])
  }

  /** What the gate decides for a request. */
  datatype Outcome = Respond(status: int) | Next(user: Claims)

  /** The decision: 401 without a truthy header or token, 403 when the
      token does not verify, otherwise the verified claims go on. */
  function Decide(authorization: Option<string>, verify: string -> Option<Claims>): (o: Outcome)
    ensures o.Respond? ==> o.status == UNAUTHORIZED || o.status == FORBIDDEN
    ensures (authorization.None? || authorization.value == "") ==> o == Respond(UNAUTHORIZED)
    ensures o.Next? ==> authorization.Some? && TokenOf(authorization.value).Some?
                        && verify(TokenOf(authorization.value).value) == Some(o.user)
  {
    if authorization.None? || authorization.value == "" then Respond(UNAUTHORIZED)
    else
      var token := TokenOf(authorization.value);
      if token.None? || token.value == "" then Respond(UNAUTHORIZED)
      else
        match verify(token.value)
        case None => Respond(FORBIDDEN)
        case Some(claims) => Next(claims)
  }

  /** `Bearer <token>` hands the token to `verify` unchanged. */
  lemma BearerTokenIsVerified(token: string, verify: string -> Option<Claims>)
    requires token != "" && ' ' !in token
    ensures TokenOf("Bearer " + token) == Some(token)
    ensures Decide(Some("Bearer " + token), verify) ==
              (if verify(token).Some? then Next(verify(token).value) else Respond(FORBIDDEN))
  {
    assert "Bearer " + token == "Bearer" + [' '] + token;
    SplitAfterFirst("Bearer", ' ', token);
  }

  /** The scheme word is never checked: any word in front of the token
      decides as `Bearer` does. */
  lemma SchemeIsIgnored(scheme: string, token: string, verify: string -> Option<Claims>)
    requires ' ' !in scheme && token != "" && ' ' !in token
    ensures Decide(Some(scheme + " " + token), verify) == Decide(Some("Bearer " + token), verify)
  {
    assert scheme + " " + token == scheme + [' '] + token;
    SplitAfterFirst(scheme, ' ', token);
    BearerTokenIsVerified(token, verify);
  }

  /** A header with no space holds no token. */
  lemma HeaderWithoutSpaceIsRejected(header: string, verify: string -> Option<Claims>)
    requires ' ' !in header
    ensures Decide(Some(header), verify) == Respond(UNAUTHORIZED)
  {
  }

  /** The request and response as the middleware touches them: the
      statuses sent, `req.user`, and how often `next` was called. */
  class Exchange {
    var responses: seq<int>
    var user: Option<Claims>
    var nextCalls: nat

    constructor ()
      ensures responses == [] && user.None? && nextCalls == 0
    {
      responses, user, nextCalls := [], None, 0;
    }

    /** The number of outcomes so far: responses sent plus `next` calls. */
    function Outcomes(): nat
      reads this
    {
      |responses| + nextCalls
    }
  }

  /** `authenticateToken(req, res, next)`: exactly one outcome per request,
      the one `Decide` gives. */
  method AuthenticateToken(ex: Exchange, authorization: Option<string>, verify: string -> Option<Claims>)
    modifies ex
    ensures ex.Outcomes() == old(ex.Outcomes()) + 1
    ensures match Decide(authorization, verify)
            case Respond(s) =>
              ex.responses == old(ex.responses) + [s] && ex.user == old(ex.user) && ex.nextCalls == old(ex.nextCalls)
            case Next(claims) =>
              ex.responses == old(ex.responses) && ex.user == Some(claims) && ex.nextCalls == old(ex.nextCalls) + 1
  {
    if authorization.None? || authorization.value == "" {
      ex.responses := ex.responses + [UNAUTHORIZED];
      return;
    }
    var token := TokenOf(authorization.value);
    if token.None? || token.value == "" {
      ex.responses := ex.responses + [UNAUTHORIZED];
      return;
    }
    var verified := verify(token.value);
    if verified.None? {
      ex.responses := ex.responses + [FORBIDDEN];
      return;
    }
    ex.user := verified;
    ex.nextCalls := ex.nextCalls + 1;
  }
}
