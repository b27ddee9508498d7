/** The stored login of the front end (utils/auth.js): one optional token
    under the key "token", and the check that keeps it only while its
    expiry lies ahead. `decode` stands for `jwtDecode` (`None` when it
    throws) and `nowMs` for `Date.now()`. */
module AuthStorage {
  import opened Common

  /** A decoded token: its `exp` claim in seconds, when present, and the
      other claims as they came. */
  datatype Decoded = Decoded(exp: Option<int>, claims: Fields)

  /** `{ token, user: decoded }`. */
  datatype Session = Session(token: string, user: Decoded)

  /** `decoded.exp && decoded.exp > Date.now() / 1000`: the expiry is there,
      is not 0, and lies after now, compared in milliseconds so no division
      is needed. */
  predicate Unexpired(d: Decoded, nowMs: int)
  {
    d.exp.Some? && d.exp.value != 0 && d.exp.value * 1000 > nowMs
  }

  /** What isAuthenticated answers for the stored token, and whether it
      removes it. */
  datatype Check = Check(session: Option<Session>, clears: bool)

  function Verdict(stored: Option<string>, decode: string -> Option<Decoded>, nowMs: int): (c: Check)
    ensures c.session.Some? ==> !c.clears && stored.Some? && c.session.value.token == stored.value
    ensures c.session.Some? <==>
              stored.Some? && stored.value != "" && decode(stored.value).Some? && Unexpired(decode(stored.value).value, nowMs)
    ensures c.clears <==> stored.Some? && stored.value != "" && c.session.None?
  {
    if stored.None? || stored.value == "" then Check(None, false)
    else
      match decode(stored.value)
      case None => Check(None, true)
      case Some(d) => if Unexpired(d, nowMs) then Check(Some(Session(stored.value, d)), false) else Check(None, true)
  }

  /** A session found at one time is still found at any earlier time. */
  lemma SessionHoldsEarlier(stored: Option<string>, decode: string -> Option<Decoded>, nowMs: int, earlierMs: int)
    requires earlierMs <= nowMs
    requires Verdict(stored, decode, nowMs).session.Some?
    ensures Verdict(stored, decode, earlierMs) == Verdict(stored, decode, nowMs)
  {
  }

  /** A token whose expiry has passed, to the millisecond, is removed. */
  lemma ExpiredTokenIsCleared(token: string, decode: string -> Option<Decoded>, nowMs: int)
    requires token != "" && decode(token).Some?
    requires decode(token).value.exp.Some? && decode(token).value.exp.value * 1000 <= nowMs
    ensures Verdict(Some(token), decode, nowMs) == Check(None, true)
  {
  }

  /** `localStorage` for the key "token". */
  class TokenStore {
    var stored: Option<string>

    constructor ()
      ensures stored.None?
    {
      stored := None;
    }

    /** getToken. */
    method GetToken() returns (token: Option<string>)
      ensures token == stored
    {
      token := stored;
    }

    /** setToken. */
    method SetToken(token: string)
      modifies this
      ensures stored == Some(token)
    {
      stored := Some(token);
    }

    /** logout. */
    method Logout()
      modifies this
      ensures stored.None?
    {
      stored := None;
    }

    /** isAuthenticated: no truthy token answers null and leaves the
        storage; a decoded token with an expiry ahead answers the session
        and keeps it; an expired token, one without an expiry, or one that
        does not decode is removed and null answered. */
    method IsAuthenticated(decode: string -> Option<Decoded>, nowMs: int) returns (session: Option<Session>)
      modifies this
      ensures session == Verdict(old(stored), decode, nowMs).session
      ensures Verdict(old(stored), decode, nowMs).clears ==> stored.None?
      ensures !Verdict(old(stored), decode, nowMs).clears ==> stored == old(stored)
    {
      var token := GetToken();
      if token.None? || token.value == "" {
        return None;
      }
      var decoded := decode(token.value);
      if decoded.Some? && Unexpired(decoded.value, nowMs) {
        return Some(Session(token.value, decoded.value));
      }
      Logout();
      return None;
    }
  }

  /** Storing a token and reading it back gives that token; after logout
      nothing is stored and isAuthenticated answers null. */
  method SetThenGetThenLogout(store: TokenStore, token: string, decode: string -> Option<Decoded>, nowMs: int)
    returns (read: Option<string>, after: Option<Session>)
    modifies store
    ensures read == Some(token)
    ensures store.stored.None? && after.None?
  {
    store.SetToken(token);
    read := store.GetToken();
    store.Logout();
    after := store.IsAuthenticated(decode, nowMs);
  }
}
