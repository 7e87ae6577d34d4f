/** The `/api/auth` route: its session manager over the settings table, and the
    `login`, `logout` and `check` actions. The clock, the new session's UUID and the
    configured credentials are parameters; cookies are modelled as the value read
    from the request and the value the response leaves behind. */
module AuthRoute {
  import opened Wrappers
  import opened Text
  import opened Storage
  import opened AuthMiddleware

  /** 24 hours in milliseconds. */
  const SessionLifetime := 24 * 60 * 60 * 1000

  // ---------------------------------------------------------------------------
  // SessionManager

  /** `SessionManager.set`: stores the session; a failed write goes unnoticed. */
  method SetSession(store: KvStore<Session>, id: string, session: Session, fault: bool)
    modifies store
    ensures !fault ==> store.data == old(store.data)[SessionKey(id) := session]
    ensures fault ==> store.data == old(store.data)
  {
    var _ := store.Set(SessionKey(id), session, fault);
  }

  /** `SessionManager.delete`: removes the session if it is there; a failure goes
      unnoticed. */
  method DeleteSession(store: KvStore<Session>, id: string, fault: bool)
    modifies store
    ensures !fault ==> store.data == old(store.data) - {SessionKey(id)}
    ensures fault ==> store.data == old(store.data)
  {
    var _ := store.Delete(SessionKey(id), fault);
  }

  /** `SessionManager.count`: how many entries the listing under the session prefix
      holds. */
  function Count(data: map<string, Session>): nat
  {
    |Filter(data, SessionPrefix)|
  }

  /** The session keys. */
  function SessionKeys(data: map<string, Session>): set<string>
  {
    set k | k in data && StartsWith(k, SessionPrefix)
  }

  lemma CountKeys(data: map<string, Session>)
    ensures Count(data) == |SessionKeys(data)|
  {
    assert Filter(data, SessionPrefix).Keys == SessionKeys(data);
  }

  /** The session keys whose expiry is not in the future. */
  function ExpiredKeys(data: map<string, Session>, now: int): set<string>
  {
    set k | k in data && StartsWith(k, SessionPrefix) && data[k].expires <= now
  }

  /** `SessionManager.cleanup`: deletes every stored session whose expiry is not in
      the future. `fails` holds the keys whose delete the database refuses; they are
      counted all the same, since the count goes up whether or not the delete
      succeeded. */
  method Cleanup(store: KvStore<Session>, now: int, fails: set<string>) returns (cleaned: nat)
    modifies store
    ensures cleaned == |ExpiredKeys(old(store.data), now)|
    ensures store.data == old(store.data) - (ExpiredKeys(old(store.data), now) - fails)
  {
    var sessions := store.WithPrefix(SessionPrefix);
    ExpiredOfListing(store.data, now);
    cleaned := DeleteExpired(store, sessions, now, fails);
  }

  /** The expired entries of a listing. */
  function ExpiredIn(sessions: map<string, Session>, now: int): set<string>
  {
    set k | k in sessions && sessions[k].expires <= now
  }

  lemma ExpiredOfListing(data: map<string, Session>, now: int)
    ensures ExpiredIn(Filter(data, SessionPrefix), now) == ExpiredKeys(data, now)
  {
  }

  /** What the loop of `cleanup` has achieved once the keys in `done` are visited. */
  ghost predicate Visited(m0: map<string, Session>, m: map<string, Session>, expired: set<string>,
                          done: set<string>, fails: set<string>, cleaned: nat)
  {
    cleaned == |expired * done| && m == m0 - ((expired * done) - fails)
  }

  /** The loop of `cleanup` over the listed sessions, each visited once. */
  method DeleteExpired(store: KvStore<Session>, sessions: map<string, Session>, now: int, fails: set<string>)
    returns (cleaned: nat)
    modifies store
    requires sessions.Keys <= store.data.Keys
    ensures cleaned == |ExpiredIn(sessions, now)|
    ensures store.data == old(store.data) - (ExpiredIn(sessions, now) - fails)
  {
    ghost var expired := ExpiredIn(sessions, now);
    ghost var m0 := store.data;
    var todo := sessions.Keys;
    ghost var done: set<string> := {};
    cleaned := 0;
    while todo != {}
      invariant done == sessions.Keys - todo && todo <= sessions.Keys
      invariant Visited(m0, store.data, expired, done, fails, cleaned)
      decreases |todo|
    {
      var key :| key in todo;
      ghost var before := store.data;
      assert key in before by {
        assert key !in done;
      }
      var counted := VisitKey(store, key, sessions[key].expires <= now, key in fails);
      Advance(m0, expired, done, fails, key, cleaned, before, store.data, sessions[key].expires <= now);
      cleaned := cleaned + counted;
      todo := todo - {key};
      done := done + {key};
    }
    AllVisited(expired, done);
  }

  /** One turn of the loop: an expired session is deleted and counted. */
  method VisitKey(store: KvStore<Session>, key: string, expired: bool, fault: bool) returns (counted: nat)
    modifies store
    requires key in store.data
    ensures counted == if expired then 1 else 0
    ensures store.data == if expired && !fault then old(store.data) - {key} else old(store.data)
  {
    counted := 0;
    if expired {
      var _ := store.Delete(key, fault);
      counted := 1;
    }
  }

  lemma Advance(m0: map<string, Session>, expired: set<string>, done: set<string>, fails: set<string>,
                key: string, cleaned: nat, m1: map<string, Session>, m2: map<string, Session>, isExpired: bool)
    requires key !in done && (isExpired <==> key in expired)
    requires Visited(m0, m1, expired, done, fails, cleaned)
    requires m2 == if isExpired && key !in fails then m1 - {key} else m1
    ensures Visited(m0, m2, expired, done + {key}, fails, cleaned + if isExpired then 1 else 0)
  {
    var gone := expired * done;
    if isExpired {
      AddVisited(expired, done, key);
      if key !in fails {
        RemoveOneMore(m0, gone - fails, key);
        assert (gone + {key}) - fails == (gone - fails) + {key};
      } else {
        assert (gone + {key}) - fails == gone - fails;
      }
    } else {
      assert expired * (done + {key}) == gone;
    }
  }

  /** Visiting one more expired key adds it to the expired keys visited so far. */
  lemma AddVisited(expired: set<string>, done: set<string>, key: string)
    requires key in expired && key !in done
    ensures expired * (done + {key}) == (expired * done) + {key}
    ensures |expired * (done + {key})| == |expired * done| + 1
  {
    assert key !in expired * done;
  }

  /** Deleting one more key from a map is subtracting one more key. */
  lemma RemoveOneMore(m0: map<string, Session>, gone: set<string>, key: string)
    ensures (m0 - gone) - {key} == m0 - (gone + {key})
  {
  }

  lemma AllVisited(expired: set<string>, done: set<string>)
    requires expired <= done
    ensures expired * done == expired
  {
  }

  /** With a reliable database, cleanup leaves exactly the sessions still live at
      `now`, plus every entry outside the session key space. */
  lemma CleanupLeavesLive(data: map<string, Session>, now: int, k: string)
    ensures k in data - ExpiredKeys(data, now)
            <==> k in data && (!StartsWith(k, SessionPrefix) || data[k].expires > now)
  {
  }

  /** The session keys still live at `now`. */
  function LiveKeys(data: map<string, Session>, now: int): set<string>
  {
    set k | k in data && StartsWith(k, SessionPrefix) && data[k].expires > now
  }

  /** With a reliable database, the number `cleanup` reports and the number of
      sessions left add up to the number there were, and those left are exactly the
      live ones. */
  lemma CleanupCount(data: map<string, Session>, now: int)
    ensures Count(data - ExpiredKeys(data, now)) + |ExpiredKeys(data, now)| == Count(data)
    ensures Count(data - ExpiredKeys(data, now)) == |LiveKeys(data, now)|
  {
    var e := ExpiredKeys(data, now);
    CountKeys(data);
    CountKeys(data - e);
    assert SessionKeys(data - e) == SessionKeys(data) - e;
    assert SessionKeys(data - e) == LiveKeys(data, now);
    assert e <= SessionKeys(data);
    assert (SessionKeys(data) - e) + e == SessionKeys(data);
    assert (SessionKeys(data) - e) * e == {};
  }

  /** Storing a session under a key not yet used adds one to the count. */
  lemma CountAfterSet(data: map<string, Session>, id: string, s: Session)
    requires SessionKey(id) !in data
    ensures Count(data[SessionKey(id) := s]) == Count(data) + 1
  {
    CountKeys(data);
    CountKeys(data[SessionKey(id) := s]);
    assert SessionKeys(data[SessionKey(id) := s]) == SessionKeys(data) + {SessionKey(id)};
  }

  // ---------------------------------------------------------------------------
  // Actions

  datatype Body =
    | LoginOk(sessionIdPrefix: string)
    | LoggedOut
    | Authenticated(yes: bool)
    | Failure(error: string)

  datatype Reply = Reply(status: nat, body: Body)

  /** The parsed request body; `None` when it is not JSON. */
  datatype Request = Request(action: Option<string>, username: string, password: string)

  /** `sessionId.substring(0, 8)`. */
  function Prefix8(s: string): (r: string)
    ensures |r| <= 8 && |r| <= |s| && r == s[..|r|]
    ensures |s| >= 8 ==> |r| == 8
    ensures |s| < 8 ==> r == s
  {
    if |s| <= 8 then s else s[..8]
  }

  /** What an action leaves behind: the reply, the cookie the browser holds afterwards,
      and the stored sessions. */
  datatype Outcome = Outcome(reply: Reply, cookie: Option<string>, sessions: map<string, Session>)

  /** `login`: with the configured credentials, a session for the user expiring a day
      from `now` is stored under the fresh ID (a failed write goes unnoticed), which
      becomes the cookie; otherwise 401 and nothing changes. */
  function LoginOutcome(data: map<string, Session>, username: string, password: string,
                        credentials: (string, string), cookie: Option<string>, newId: string, now: int,
                        fault: bool): Outcome
  {
    if username == credentials.0 && password == credentials.1 then
      Outcome(Reply(200, LoginOk(Prefix8(newId))), Some(newId),
              if fault then data else data[SessionKey(newId) := Session(username, now + SessionLifetime)])
    else Outcome(Reply(401, Failure("Invalid credentials")), cookie, data)
  }

  /** `logout`: a present cookie's session is deleted (a failure goes unnoticed) and the
      cookie cleared; the reply is a success either way. */
  function LogoutOutcome(data: map<string, Session>, cookie: Option<string>, fault: bool): Outcome
  {
    if cookie.Some? && cookie.value != [] then
      Outcome(Reply(200, LoggedOut), None, if fault then data else data - {SessionKey(cookie.value)})
    else Outcome(Reply(200, LoggedOut), cookie, data)
  }

  /** `check`: the middleware's decision, answered as `{ authenticated }`. */
  function CheckOutcome(data: map<string, Session>, cookie: Option<string>, now: int, fault: bool): Outcome
  {
    Outcome(Reply(200, Authenticated(Judge(data, cookie, now) == Live)), cookie, AfterCheck(data, cookie, now, fault))
  }

  /** A session created at `now` by a login is accepted until a day has passed and
      refused from that instant on. */
  lemma LoginSessionLifetime(data: map<string, Session>, username: string, newId: string, now: int, t: int)
    requires newId != []
    ensures var after := data[SessionKey(newId) := Session(username, now + SessionLifetime)];
            (Judge(after, Some(newId), t) == Live <==> t < now + SessionLifetime)
  {
    var after := data[SessionKey(newId) := Session(username, now + SessionLifetime)];
    LiveIff(after, Some(newId), t);
  }

  /** A successful login with a fresh ID and a reliable database leaves the user
      signed in until a day has passed, with one more session counted. */
  lemma LoginSignsIn(data: map<string, Session>, username: string, password: string, cookie: Option<string>,
                     newId: string, now: int, t: int)
    requires newId != [] && SessionKey(newId) !in data
    ensures var o := LoginOutcome(data, username, password, (username, password), cookie, newId, now, false);
            o.reply.status == 200 && o.cookie == Some(newId)
            && Count(o.sessions) == Count(data) + 1
            && (Judge(o.sessions, o.cookie, t) == Live <==> t < now + SessionLifetime)
  {
    CountAfterSet(data, newId, Session(username, now + SessionLifetime));
    LoginSessionLifetime(data, username, newId, now, t);
  }

  /** Wrong credentials change nothing. */
  lemma LoginRefused(data: map<string, Session>, username: string, password: string, credentials: (string, string),
                     cookie: Option<string>, newId: string, now: int, fault: bool)
    requires (username, password) != credentials
    ensures LoginOutcome(data, username, password, credentials, cookie, newId, now, fault)
            == Outcome(Reply(401, Failure("Invalid credentials")), cookie, data)
  {
  }

  /** After a logout with a reliable database, the old cookie no longer opens a
      session, and every other session is kept. */
  lemma LogoutSignsOut(data: map<string, Session>, cookie: Option<string>, t: int)
    requires cookie.Some? && cookie.value != []
    ensures var o := LogoutOutcome(data, cookie, false);
            o.cookie.None? && Judge(o.sessions, cookie, t) == NoSession
            && forall k :: k in data && k != SessionKey(cookie.value) ==> k in o.sessions && o.sessions[k] == data[k]
  {
  }

  /** `check` answers true exactly for a stored session expiring after `now`, and
      never changes a live session. */
  lemma CheckAnswers(data: map<string, Session>, cookie: Option<string>, now: int, fault: bool)
    ensures var o := CheckOutcome(data, cookie, now, fault);
            (o.reply.body == Authenticated(true) <==>
               cookie.Some? && cookie.value != [] && SessionKey(cookie.value) in data
                    && data[SessionKey(cookie.value)].expires > now)
            && (Judge(data, cookie, now) == Live ==> o.sessions == data)
  {
    LiveIff(data, cookie, now);
  }

  /** `login`, over the session store. `cookie` is the cookie the request carried,
      which a refused login leaves in place. */
  method Login(store: KvStore<Session>, username: string, password: string, credentials: (string, string),
               cookie: Option<string>, newId: string, now: int, fault: bool) returns (reply: Reply, after: Option<string>)
    modifies store
    ensures Outcome(reply, after, store.data)
            == LoginOutcome(old(store.data), username, password, credentials, cookie, newId, now, fault)
  {
    if username == credentials.0 && password == credentials.1 {
      SetSession(store, newId, Session(username, now + SessionLifetime), fault);
      reply := Reply(200, LoginOk(Prefix8(newId)));
      after := Some(newId);
    } else {
      reply := Reply(401, Failure("Invalid credentials"));
      after := cookie;
    }
  }

  /** `logout`, over the session store. */
  method Logout(store: KvStore<Session>, cookie: Option<string>, fault: bool) returns (reply: Reply, after: Option<string>)
    modifies store
    ensures Outcome(reply, after, store.data) == LogoutOutcome(old(store.data), cookie, fault)
  {
    after := cookie;
    if cookie.Some? && cookie.value != [] {
      DeleteSession(store, cookie.value, fault);
      after := None;
    }
    reply := Reply(200, LoggedOut);
  }

  /** `check`, over the session store: the middleware's decision, including the delete
      of an expired session. Reading the clock twice in the source cannot change the
      outcome, since a session not live at the first reading is expired at any later
      one. */
  method Check(store: KvStore<Session>, cookie: Option<string>, now: int, fault: bool) returns (reply: Reply)
    modifies store
    ensures Outcome(reply, cookie, store.data) == CheckOutcome(old(store.data), cookie, now, fault)
  {
    var ok := CheckAuth(store, cookie, now, fault);
    reply := Reply(200, Authenticated(ok));
  }

  /** `POST /api/auth`: a body that is not JSON gives 500, an unknown action 400, and
      each known action has the outcome of that action. */
  method Post(store: KvStore<Session>, body: Option<Request>, cookie: Option<string>, credentials: (string, string),
              newId: string, now: int, fault: bool) returns (reply: Reply, after: Option<string>)
    modifies store
    ensures body.None? ==>
              Outcome(reply, after, store.data) == Outcome(Reply(500, Failure("Server error")), cookie, old(store.data))
    ensures body.Some? && body.value.action == Some("login") ==>
              Outcome(reply, after, store.data)
              == LoginOutcome(old(store.data), body.value.username, body.value.password, credentials, cookie, newId,
                              now, fault)
    ensures body.Some? && body.value.action == Some("logout") ==>
              Outcome(reply, after, store.data) == LogoutOutcome(old(store.data), cookie, fault)
    ensures body.Some? && body.value.action == Some("check") ==>
              Outcome(reply, after, store.data) == CheckOutcome(old(store.data), cookie, now, fault)
    ensures body.Some? && body.value.action != Some("login") && body.value.action != Some("logout")
            && body.value.action != Some("check") ==>
              Outcome(reply, after, store.data) == Outcome(Reply(400, Failure("Invalid action")), cookie, old(store.data))
  {
    after := cookie;
    if body.None? {
      return Reply(500, Failure("Server error")), after;
    }
    var request := body.value;
    if request.action == Some("login") {
      reply, after := Login(store, request.username, request.password, credentials, cookie, newId, now, fault);
    } else if request.action == Some("logout") {
      reply, after := Logout(store, cookie, fault);
    } else if request.action == Some("check") {
      reply := Check(store, cookie, now, fault);
    } else {
      reply := Reply(400, Failure("Invalid action"));
    }
  }
}
