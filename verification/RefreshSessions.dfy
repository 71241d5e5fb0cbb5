/** Refresh sessions: each use of a token replaces it, one repeated use is forgiven, an older one ends
    the whole family. */
module RefreshSessions {
  import opened Basics

  /** 7 days, in seconds. */
  const REFRESH_LIFETIME: int := 7 * 24 * 3600

  /** What a presented string decodes to. Signing and hashing are injective, so a token stands for its hash. */
  datatype Token = Refresh(user: Id, session: Id, family: Id, expires: int) | Access(user: Id) | Undecodable

  /** What a login or a refresh answers with. */
  datatype Tokens = Tokens(access: Token, refresh: Token)

  datatype Session = Session(user: Id, token: Token, family: Id, revoked: Option<int>, replacedBy: Option<Id>, expires: int)

  type Sessions = map<Id, Session>

  function TokenFor(id: Id, s: Session): Token {
    Refresh(s.user, id, s.family, s.expires)
  }

  function TokensOf(s: Session): Tokens {
    Tokens(Access(s.user), s.token)
  }

  function NewSession(user: Id, id: Id, family: Id, now: int): Session {
    Session(user, Refresh(user, id, family, now + REFRESH_LIFETIME), family, None, None, now + REFRESH_LIFETIME)
  }

  predicate Live(s: Session, now: int) {
    s.revoked.None? && s.expires > now
  }

  function Revoke(s: Session, now: int): Session {
    if s.revoked.None? then s.(revoked := Some(now)) else s
  }

  function RevokeFamily(db: Sessions, family: Id, now: int): Sessions {
    map i | i in db :: if db[i].family == family then Revoke(db[i], now) else db[i]
  }

  function RevokeUser(db: Sessions, user: Id, now: int): Sessions {
    map i | i in db :: if db[i].user == user then Revoke(db[i], now) else db[i]
  }

  function Issue(db: Sessions, user: Id, id: Id, family: Id, now: int): Sessions {
    db[id := NewSession(user, id, family, now)]
  }

  /** The session a refresh token opens, if it may still be used at all. */
  predicate Opens(db: Sessions, token: Token, now: int) {
    token.Refresh? && token.session in db && db[token.session].token == token && Live(db[token.session], now)
  }

  /** A replacement that nobody has used, revoked or outlived. */
  predicate Unused(db: Sessions, id: Id, now: int) {
    id in db && db[id].replacedBy.None? && Live(db[id], now)
  }

  function Rotate(db: Sessions, prior: Id, id: Id, now: int): Sessions
    requires prior in db
  {
    db[id := NewSession(db[prior].user, id, db[prior].family, now)][prior := db[prior].(replacedBy := Some(id))]
  }

  /** The sessions after presenting `token`, and what the client gets, if anything; `id` is the next one drawn. */
  function Present(db: Sessions, token: Token, id: Id, now: int): (Sessions, Option<Tokens>) {
    if !Opens(db, token, now) then (db, None)
    else
      var s := db[token.session];
      if s.replacedBy.None? then (Rotate(db, token.session, id, now), Some(TokensOf(NewSession(s.user, id, s.family, now))))
      else if !Unused(db, s.replacedBy.value, now) then (RevokeFamily(db, s.family, now), None)
      else
        var replacement := db[s.replacedBy.value];
        var replayed := TokenFor(s.replacedBy.value, replacement);
        (db, if replayed == replacement.token then Some(Tokens(Access(replacement.user), replayed)) else None)
  }

  function Logout(db: Sessions, user: Id, token: Token, now: int): Sessions {
    if token.Refresh? && token.session in db && db[token.session].user == user && db[token.session].token == token
    then db[token.session := db[token.session].(revoked := Some(now))] else db
  }

  // ---- Families are chains ----

  /** `chain` lists the family's sessions, each replaced by the next. */
  ghost predicate IsChain(db: Sessions, family: Id, chain: seq<Id>) {
    && (forall i :: i in chain <==> i in db && db[i].family == family)
    && (forall k, l :: 0 <= k < l < |chain| ==> chain[k] != chain[l])
    && forall k :: 0 <= k < |chain| ==> Linked(db, chain, k)
  }

  ghost predicate Linked(db: Sessions, chain: seq<Id>, k: nat) {
    k < |chain| && chain[k] in db && db[chain[k]].replacedBy == if k + 1 < |chain| then Some(chain[k + 1]) else None
  }

  ghost predicate HasChain(db: Sessions, family: Id) {
    exists chain :: IsChain(db, family, chain)
  }

  /** All sessions of a family are one user's. */
  ghost predicate OneUser(db: Sessions) {
    forall i, j :: i in db && j in db && db[i].family == db[j].family ==> db[i].user == db[j].user
  }

  ghost predicate Inv(db: Sessions) {
    && (forall i :: i in db ==> db[i].token == TokenFor(i, db[i]))
    && (forall f :: HasChain(db, f))
    && OneUser(db)
  }

  datatype Event =
    | Login(user: Id, id: Id, family: Id, now: int)
    | Use(token: Token, id: Id, now: int)
    | LogsOut(user: Id, token: Token, now: int)
    | LogsOutEverywhere(user: Id, now: int)

  /** Drawn ids are new. */
  predicate Valid(db: Sessions, e: Event) {
    match e
    case Login(_, id, family, _) => id !in db && forall i :: i in db ==> db[i].family != family
    case Use(_, id, _) => id !in db
    case _ => true
  }

  function Step(db: Sessions, e: Event): Sessions {
    match e
    case Login(user, id, family, now) => Issue(db, user, id, family, now)
    case Use(token, id, now) => Present(db, token, id, now).0
    case LogsOut(user, token, now) => Logout(db, user, token, now)
    case LogsOutEverywhere(user, now) => RevokeUser(db, user, now)
  }

  ghost function Run(db: Sessions, events: seq<Event>): Sessions
    decreases |events|
  {
    if events == [] then db else Run(Step(db, events[0]), events[1..])
  }

  ghost predicate ValidRun(db: Sessions, events: seq<Event>)
    decreases |events|
  {
    events != [] ==> Valid(db, events[0]) && ValidRun(Step(db, events[0]), events[1..])
  }

  /** The same sessions with the same links; only revocations differ, and none is taken back. */
  ghost predicate OnlyRevokes(db: Sessions, db': Sessions) {
    && db'.Keys == db.Keys
    && forall i :: i in db ==> db'[i].(revoked := db[i].revoked) == db[i] && (db[i].revoked.Some? ==> db'[i].revoked.Some?)
  }

  lemma {:induction false} RevokesKeepChain(db: Sessions, db': Sessions, family: Id, chain: seq<Id>)
    requires OnlyRevokes(db, db') && IsChain(db, family, chain)
    ensures IsChain(db', family, chain)
  {
    forall i ensures i in chain <==> i in db' && db'[i].family == family { assert i in db' <==> i in db; }
    forall k | 0 <= k < |chain| ensures Linked(db', chain, k) { assert Linked(db, chain, k); }
  }

  lemma {:induction false} RevokesKeep(db: Sessions, db': Sessions)
    requires OnlyRevokes(db, db') && Inv(db)
    ensures Inv(db')
  {
    forall f ensures HasChain(db', f) {
      assert HasChain(db, f);
      var chain :| IsChain(db, f, chain);
      RevokesKeepChain(db, db', f, chain);
    }
  }

  lemma {:induction false} LastIsUnreplaced(db: Sessions, family: Id, chain: seq<Id>, id: Id)
    requires IsChain(db, family, chain) && id in db && db[id].family == family && db[id].replacedBy.None?
    ensures chain != [] && chain[|chain| - 1] == id
  {
    assert id in chain;
    var k :| 0 <= k < |chain| && chain[k] == id;
    assert Linked(db, chain, k);
  }

  /** Rotating the last session puts the new one after it. */
  lemma {:induction false} RotateExtends(db: Sessions, prior: Id, id: Id, now: int, family: Id, chain: seq<Id>)
    requires prior in db && db[prior].replacedBy.None? && id !in db && IsChain(db, family, chain)
    ensures IsChain(Rotate(db, prior, id, now), family, if db[prior].family == family then chain + [id] else chain)
  {
    var db' := Rotate(db, prior, id, now);
    assert id !in chain;
    if db[prior].family == family {
      LastIsUnreplaced(db, family, chain, prior);
      forall i ensures i in chain + [id] <==> i in db' && db'[i].family == family { }
      forall k | 0 <= k <= |chain| ensures Linked(db', chain + [id], k) {
        if k < |chain| { assert Linked(db, chain, k); }
      }
    } else {
      forall k | 0 <= k < |chain| ensures Linked(db', chain, k) { assert Linked(db, chain, k) && chain[k] in chain; }
    }
  }

  lemma {:induction false} LoginStarts(db: Sessions, user: Id, id: Id, family: Id, now: int, f: Id, chain: seq<Id>)
    requires Valid(db, Login(user, id, family, now)) && IsChain(db, f, chain)
    ensures IsChain(Issue(db, user, id, family, now), f, if f == family then [id] else chain)
  {
    var db' := Issue(db, user, id, family, now);
    if f == family {
      assert Linked(db', [id], 0);
    } else {
      forall k | 0 <= k < |chain| ensures Linked(db', chain, k) { assert Linked(db, chain, k) && chain[k] in chain; }
    }
  }

  lemma {:induction false} StepKeeps(db: Sessions, e: Event)
    requires Inv(db) && Valid(db, e)
    ensures Inv(Step(db, e))
  {
    var db' := Step(db, e);
    if e.Login? {
      forall f ensures HasChain(db', f) {
        assert HasChain(db, f);
        var chain :| IsChain(db, f, chain);
        LoginStarts(db, e.user, e.id, e.family, e.now, f, chain);
      }
    } else if e.Use? && Opens(db, e.token, e.now) && db[e.token.session].replacedBy.None? {
      forall f ensures HasChain(db', f) {
        assert HasChain(db, f);
        var chain :| IsChain(db, f, chain);
        RotateExtends(db, e.token.session, e.id, e.now, f, chain);
      }
    } else {
      RevokesKeep(db, db');
    }
  }

  /** In every run, every family stays one chain with one last session. */
  lemma {:induction false} RunKeeps(db: Sessions, events: seq<Event>)
    requires Inv(db) && ValidRun(db, events)
    ensures Inv(Run(db, events))
    decreases |events|
  {
    if events != [] {
      StepKeeps(db, events[0]);
      RunKeeps(Step(db, events[0]), events[1..]);
    }
  }

  lemma {:induction false} NoSessions()
    ensures Inv(map[])
  {
    forall f: Id ensures HasChain(map[], f) { assert IsChain(map[], f, []); }
  }

  // ---- Who may refresh ----

  /** A refresh succeeds exactly for the last session while it is live, and for the one before it while
      both are: the first gets the next token, the second gets the last one again and changes nothing. */
  lemma {:induction false} RefreshSucceedsIff(db: Sessions, family: Id, chain: seq<Id>, k: nat, id: Id, now: int)
    requires Inv(db) && IsChain(db, family, chain) && k < |chain| && id !in db
    ensures var n := |chain| - 1;
            var (db', answer) := Present(db, db[chain[k]].token, id, now);
            && (answer.Some? <==> Live(db[chain[k]], now) && (k == n || (k == n - 1 && Live(db[chain[n]], now))))
            && (answer.Some? && k == n ==>
                  IsChain(db', family, chain + [id]) && answer.value.refresh == db'[id].token && Live(db'[id], now))
            && (answer.Some? && k < n ==> db' == db && answer.value.refresh == db[chain[n]].token)
            && (answer.None? && !Live(db[chain[k]], now) ==> db' == db)
  {
    var n := |chain| - 1;
    assert chain[k] in chain && chain[n] in chain;
    assert Linked(db, chain, k) && Linked(db, chain, n);
    if k < n { assert chain[k + 1] in chain && Linked(db, chain, k + 1); }
    if k == n && Live(db[chain[k]], now) { RotateExtends(db, chain[k], id, now, family, chain); }
  }

  /** Nobody can be let in by a token the table does not hold. */
  lemma {:induction false} ForeignTokenIsRefused(db: Sessions, token: Token, id: Id, now: int)
    requires forall i :: i in db ==> db[i].token != token
    ensures Present(db, token, id, now) == (db, None)
  {
  }

  // ---- What each request answers and writes ----

  /** The row of a session opened at `now`: it is the user's own, unused, and good for seven days. */
  ghost predicate IsOpened(s: Session, user: Id, id: Id, family: Id, now: int) {
    && s.user == user && s.family == family && s.revoked.None? && s.replacedBy.None?
    && s.expires == now + 604800 && s.token == Refresh(user, id, family, now + 604800)
  }

  ghost predicate IsReplaced(s: Session, s': Session, next: Id) {
    && s'.user == s.user && s'.token == s.token && s'.family == s.family && s'.revoked == s.revoked && s'.expires == s.expires
    && s'.replacedBy == Some(next)
  }

  /** Revoked at `now`, unless it was before. */
  ghost predicate IsRevoked(s: Session, s': Session, now: int) {
    && s'.user == s.user && s'.token == s.token && s'.family == s.family && s'.replacedBy == s.replacedBy && s'.expires == s.expires
    && s'.revoked == if s.revoked.Some? then s.revoked else Some(now)
  }

  function OfFamily(db: Sessions, family: Id): set<Id> {
    set i | i in db && db[i].family == family
  }

  function OfUser(db: Sessions, user: Id): set<Id> {
    set i | i in db && db[i].user == user
  }

  /** The rows in `those` are revoked, the others stay as they are. */
  ghost predicate OnlyRevoked(db: Sessions, db': Sessions, those: set<Id>, now: int) {
    && db'.Keys == db.Keys
    && forall i :: i in db ==> if i in those then IsRevoked(db[i], db'[i], now) else db'[i] == db[i]
  }

  /** A token that was issued, has not been revoked and has not run out. */
  ghost predicate Good(db: Sessions, token: Token, now: int) {
    && token.Refresh? && token.session in db && db[token.session].token == token
    && db[token.session].revoked.None? && now < db[token.session].expires
  }

  /** A login opens one session, the user's own, and answers with that user's two tokens. */
  lemma {:induction false} LoginAnswers(db: Sessions, user: Id, id: Id, family: Id, now: int)
    requires id !in db
    ensures var db' := Issue(db, user, id, family, now);
            && id in db' && db' == db[id := db'[id]] && IsOpened(db'[id], user, id, family, now)
            && TokensOf(db'[id]) == Tokens(Access(user), Refresh(user, id, family, now + 604800))
            && forall t :: Good(db', db'[id].token, t) <==> t < now + 604800
  {
  }

  /** Whoever is let in gets good tokens of the user the presented one was issued to. An unused token is replaced by a
      session of seven days, a used one is answered with the token that replaced it; a good token that is refused ends
      its family, and any other leaves no trace. */
  lemma {:induction false} UseAnswers(db: Sessions, token: Token, id: Id, now: int)
    requires Inv(db) && id !in db
    ensures var (db', answer) := Present(db, token, id, now);
            match answer
            case Some(t) =>
              && Good(db, token, now) && Good(db', t.refresh, now) && t.access == Access(token.user)
              && t.refresh.user == token.user && t.refresh.family == token.family
              && (match db[token.session].replacedBy
                  case None =>
                    && t.refresh.session == id && IsOpened(db'[id], token.user, id, token.family, now)
                    && db' == db[id := db'[id]][token.session := db'[token.session]]
                    && IsReplaced(db[token.session], db'[token.session], id)
                  case Some(next) => db' == db && t.refresh.session == next && db[next].replacedBy.None?)
            case None =>
              if Good(db, token, now) then OnlyRevoked(db, db', OfFamily(db, token.family), now) else db' == db
  {
    if Opens(db, token, now) && db[token.session].replacedBy.Some? {
      assert HasChain(db, token.family);
      var chain :| IsChain(db, token.family, chain);
      assert token.session in chain;
      var k :| 0 <= k < |chain| && chain[k] == token.session;
      assert Linked(db, chain, k) && chain[k + 1] in chain;
    }
  }

  /** A logout revokes the session of the presented token if it is the user's, and one everywhere all the user's. */
  lemma {:induction false} LogoutAnswers(db: Sessions, user: Id, token: Token, now: int)
    requires Inv(db)
    ensures var db', own := Logout(db, user, token, now), token.Refresh? && token.session in db && db[token.session].token == token;
            && (own && token.user == user ==>
                  db' == db[token.session := db'[token.session]] && db'[token.session].revoked == Some(now)
                  && db'[token.session].(revoked := None) == db[token.session].(revoked := None))
            && (!(own && token.user == user) ==> db' == db)
    ensures OnlyRevoked(db, RevokeUser(db, user, now), OfUser(db, user), now)
  {
  }

  /** The family a login opened holds that user's sessions alone, whatever happens. */
  lemma {:induction false} FamilyIsTheUsers(db: Sessions, user: Id, id: Id, family: Id, now: int, events: seq<Event>, i: Id)
    requires Inv(db) && Valid(db, Login(user, id, family, now)) && ValidRun(Issue(db, user, id, family, now), events)
    requires i in Run(Issue(db, user, id, family, now), events) && Run(Issue(db, user, id, family, now), events)[i].family == family
    ensures Run(Issue(db, user, id, family, now), events)[i].user == user
  {
    var db1 := Issue(db, user, id, family, now);
    StepKeeps(db, Login(user, id, family, now));
    RunKeeps(db1, events);
    RunKeepsOwner(db1, events, id);
  }

  lemma {:induction false} RunKeepsOwner(db: Sessions, events: seq<Event>, id: Id)
    requires Inv(db) && ValidRun(db, events) && id in db
    ensures var db' := Run(db, events); id in db' && db'[id].user == db[id].user && db'[id].family == db[id].family
    decreases |events|
  {
    if events != [] {
      StepKeeps(db, events[0]);
      RunKeepsOwner(Step(db, events[0]), events[1..], id);
    }
  }

  // ---- Dead families ----

  /** The last session of the chain is revoked. */
  ghost predicate Dead(db: Sessions, family: Id, chain: seq<Id>) {
    IsChain(db, family, chain) && chain != [] && db[chain[|chain| - 1]].revoked.Some?
  }

  lemma {:induction false} DeadRefuses(db: Sessions, family: Id, chain: seq<Id>, token: Token, id: Id, now: int)
    requires Inv(db) && Dead(db, family, chain) && id !in db && token.Refresh? && token.family == family
    ensures Present(db, token, id, now).1.None?
  {
    if Opens(db, token, now) {
      var k :| 0 <= k < |chain| && chain[k] == token.session;
      RefreshSucceedsIff(db, family, chain, k, id, now);
    }
  }

  lemma {:induction false} DeadStays(db: Sessions, e: Event, family: Id, chain: seq<Id>)
    requires Inv(db) && Dead(db, family, chain) && Valid(db, e)
    ensures Dead(Step(db, e), family, chain)
  {
    var db' := Step(db, e);
    var last := chain[|chain| - 1];
    assert last in chain;
    if e.Use? && Opens(db, e.token, e.now) && db[e.token.session].replacedBy.None? {
      if db[e.token.session].family == family {
        LastIsUnreplaced(db, family, chain, e.token.session);
      } else {
        RotateExtends(db, e.token.session, e.id, e.now, family, chain);
      }
    } else if e.Login? {
      LoginStarts(db, e.user, e.id, e.family, e.now, family, chain);
    } else {
      RevokesKeepChain(db, db', family, chain);
    }
  }

  /** Once a family's last session is revoked, no token of the family is ever accepted again. */
  lemma {:induction false} DeadForever(db: Sessions, events: seq<Event>, family: Id, chain: seq<Id>, token: Token, id: Id, now: int)
    requires Inv(db) && Dead(db, family, chain) && ValidRun(db, events) && id !in Run(db, events)
    requires token.Refresh? && token.family == family
    ensures Present(Run(db, events), token, id, now).1.None?
    decreases |events|
  {
    if events == [] {
      DeadRefuses(db, family, chain, token, id, now);
    } else {
      StepKeeps(db, events[0]);
      DeadStays(db, events[0], family, chain);
      DeadForever(Step(db, events[0]), events[1..], family, chain, token, id, now);
    }
  }

  /** Presenting a live token that was replaced longer ago ends its family. */
  lemma {:induction false} OldTokenEndsFamily(db: Sessions, family: Id, chain: seq<Id>, k: nat, id: Id, now: int)
    requires Inv(db) && IsChain(db, family, chain) && k + 2 < |chain| && Live(db[chain[k]], now)
    ensures var (db', answer) := Present(db, db[chain[k]].token, id, now); answer.None? && Dead(db', family, chain)
  {
    var last := chain[|chain| - 1];
    assert chain[k] in chain && chain[k + 1] in chain && last in chain;
    assert Linked(db, chain, k) && Linked(db, chain, k + 1);
    RevokesKeepChain(db, RevokeFamily(db, family, now), family, chain);
  }

  /** Logging out with the last token, or everywhere, ends the family. */
  lemma {:induction false} LogoutEndsFamily(db: Sessions, family: Id, chain: seq<Id>, now: int)
    requires Inv(db) && IsChain(db, family, chain) && chain != []
    ensures var last := chain[|chain| - 1];
            && Dead(Logout(db, db[last].user, db[last].token, now), family, chain)
            && Dead(RevokeUser(db, db[last].user, now), family, chain)
  {
    var last := chain[|chain| - 1];
    assert last in chain;
    RevokesKeepChain(db, Logout(db, db[last].user, db[last].token, now), family, chain);
    RevokesKeepChain(db, RevokeUser(db, db[last].user, now), family, chain);
  }
}
