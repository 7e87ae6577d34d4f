/** `checkAuth`: whether a request carries the cookie of a live session. The clock is a
    parameter; an expired session found on the way is deleted. */
module AuthMiddleware {
  import opened Wrappers
  import opened Text
  import opened Storage

  /** What the settings table holds for a signed-in user. */
  datatype Session = Session(username: string, expires: int)

  const SessionPrefix := "session_"

  function SessionKey(id: string): (r: string)
    ensures StartsWith(r, SessionPrefix) && r[|SessionPrefix|..] == id
  {
    SessionPrefix + id
  }

  /** The session a cookie points at: the cookie's value read as a session ID, where
      a missing or empty cookie points nowhere. */
  function SessionOf(data: map<string, Session>, cookie: Option<string>): Option<Session>
  {
    if cookie.None? || cookie.value == [] then None
    else if SessionKey(cookie.value) in data then Some(data[SessionKey(cookie.value)])
    else None
  }

  datatype Verdict = NoCookie | NoSession | Expired | Live

  /** The decision sequence: cookie, then the stored session, then its expiry, where a
      session expiring exactly now is already expired. */
  function Judge(data: map<string, Session>, cookie: Option<string>, now: int): Verdict
  {
    if cookie.None? || cookie.value == [] then NoCookie
    else if SessionOf(data, cookie).None? then NoSession
    else if SessionOf(data, cookie).value.expires <= now then Expired
    else Live
  }

  /** A request is let through exactly when it names a stored session whose expiry
      lies strictly in the future. */
  lemma LiveIff(data: map<string, Session>, cookie: Option<string>, now: int)
    ensures Judge(data, cookie, now) == Live
            <==> cookie.Some? && cookie.value != []
                 && SessionKey(cookie.value) in data && data[SessionKey(cookie.value)].expires > now
  {
  }

  /** The sessions `checkAuth` leaves behind: the cookie's session is removed when it
      has expired and the delete succeeds; nothing else is ever removed or changed. */
  function AfterCheck(data: map<string, Session>, cookie: Option<string>, now: int, fault: bool)
    : (r: map<string, Session>)
    ensures forall k :: k in r ==> k in data && r[k] == data[k]
    ensures forall k :: k in data && k !in r ==> Judge(data, cookie, now) == Expired && k == SessionKey(cookie.value)
    ensures Judge(data, cookie, now) == Expired && !fault ==> SessionKey(cookie.value) !in r
  {
    if Judge(data, cookie, now) == Expired && !fault then data - {SessionKey(cookie.value)} else data
  }

  /** `checkAuth(request)`; `fault` makes the delete of an expired session fail, which
      goes unnoticed. */
  method CheckAuth(store: KvStore<Session>, cookie: Option<string>, now: int, fault: bool) returns (ok: bool)
    modifies store
    ensures ok <==> Judge(old(store.data), cookie, now) == Live
    ensures store.data == AfterCheck(old(store.data), cookie, now, fault)
  {
    if cookie.None? || cookie.value == [] {
      return false;
    }
    var session := store.Get(SessionKey(cookie.value));
    if session.None? {
      return false;
    }
    if session.value.expires <= now {
      var _ := store.Delete(SessionKey(cookie.value), fault);
      return false;
    }
    return true;
  }

  /** Once an expired session has been removed, the same cookie is refused for want
      of a session at any later time, and the session is never revived. */
  lemma ExpiredStaysOut(data: map<string, Session>, cookie: Option<string>, now: int, later: int)
    requires Judge(data, cookie, now) == Expired
    ensures Judge(data - {SessionKey(cookie.value)}, cookie, later) == NoSession
  {
  }

  /** A session that is refused as expired at one time is refused at every later
      time too: the verdict never goes back to live as the clock advances. */
  lemma ExpiryIsFinal(data: map<string, Session>, cookie: Option<string>, now: int, later: int)
    requires Judge(data, cookie, now) == Expired && now <= later
    ensures Judge(data, cookie, later) == Expired
  {
  }
}
