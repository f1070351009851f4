/** SessionManager of src/impl/session_manager.h: two tables of the same sessions, one by token
    and one by user, that have to agree across login, rotation and kick-out.

    UUIDs and the clock are inputs.  A run is a sequence of operations; `issued` records every
    session ever handed out, so that freshness of a UUID is "its token was never issued". */
module Sessions {
  import opened Options

  const SESSION_INTERVAL: int := 5 * 60 * 1000

  datatype Session = Session(user: string, updated: int, token: string)

  datatype Tables = Tables(tokens: map<string, Session>, users: map<string, Session>)

  // ---------- the operations on the two tables ----------

  /** unordered_map::emplace: an existing entry is kept. */
  function Emplace(m: map<string, Session>, k: string, s: Session): map<string, Session> {
    if k in m then m else m[k := s]
  }

  function Login(t: Tables, user: string, uuid: string, now: int): Tables {
    var s := Session(user, now, uuid);
    Tables(Emplace(t.tokens, uuid, s), Emplace(t.users, user, s))
  }

  predicate Live(t: Tables, token: string, now: int) {
    token != "" && token in t.tokens && now - t.tokens[token].updated < SESSION_INTERVAL
  }

  function Validate(t: Tables, token: string, now: int): Option<string> {
    if Live(t, token, now) then Some(t.tokens[token].user) else None
  }

  predicate CanRotate(t: Tables, user: string, token: string, now: int) {
    Live(t, token, now) && t.tokens[token].user == user
  }

  function Rotate(t: Tables, user: string, token: string, uuid: string, now: int): Tables {
    if CanRotate(t, user, token, now) then
      var s := Session(user, now, uuid);
      Tables((t.tokens - {token})[uuid := s], t.users[user := s])
    else t
  }

  function Query(t: Tables, user: string): string {
    if user in t.users then t.users[user].token else ""
  }

  function KickUser(t: Tables, user: string): Tables {
    if user in t.users && t.users[user].token in t.tokens
    then Tables(t.tokens - {t.users[user].token}, t.users - {user})
    else t
  }

  function KickToken(t: Tables, token: string): Tables {
    if token in t.tokens && t.tokens[token].user in t.users
    then Tables(t.tokens - {token}, t.users - {t.tokens[token].user})
    else t
  }

  // ---------- runs ----------

  datatype Op =
    | OpLogin(user: string, uuid: string, now: int)
    | OpRotate(user: string, token: string, uuid: string, now: int)
    | OpKickUser(user: string)
    | OpKickToken(token: string)

  datatype World = World(t: Tables, issued: set<Session>)

  const Empty := World(Tables(map[], map[]), {})

  function Step(w: World, op: Op): World {
    match op
    case OpLogin(user, uuid, now) =>
      World(Login(w.t, user, uuid, now), w.issued + {Session(user, now, uuid)})
    case OpRotate(user, token, uuid, now) =>
      World(Rotate(w.t, user, token, uuid, now),
            if CanRotate(w.t, user, token, now) then w.issued + {Session(user, now, uuid)} else w.issued)
    case OpKickUser(user) => World(KickUser(w.t, user), w.issued)
    case OpKickToken(token) => World(KickToken(w.t, token), w.issued)
  }

  predicate Issued(w: World, token: string) {
    exists s :: s in w.issued && s.token == token
  }

  /** UUID() never returns the empty string nor a token it returned before. */
  predicate Fresh(w: World, op: Op) {
    match op
    case OpLogin(_, uuid, _) => uuid != "" && !Issued(w, uuid)
    case OpRotate(_, _, uuid, _) => uuid != "" && !Issued(w, uuid)
    case _ => true
  }

  function Run(w: World, ops: seq<Op>): World
    decreases |ops|
  {
    if ops == [] then w else Run(Step(w, ops[0]), ops[1..])
  }

  predicate FreshRun(w: World, ops: seq<Op>)
    decreases |ops|
  {
    ops == [] || (Fresh(w, ops[0]) && FreshRun(Step(w, ops[0]), ops[1..]))
  }

  // ---------- agreement ----------

  /** Every by-user entry is the by-token record of its own token and names that user. */
  predicate UsersAgree(t: Tables) {
    forall u :: u in t.users ==> UserAgrees(t, u, t.users[u])
  }

  predicate UserAgrees(t: Tables, user: string, s: Session) {
    s.user == user && s.token in t.tokens && t.tokens[s.token] == s
  }

  /** Every by-token record is filed under its token and is one that was issued. */
  predicate Filed(w: World) {
    forall k :: k in w.t.tokens ==> w.t.tokens[k].token == k && w.t.tokens[k] in w.issued
  }

  predicate IssuedOnce(issued: set<Session>) {
    && (forall s, r :: s in issued && r in issued && s.token == r.token ==> s == r)
    && (forall s :: s in issued ==> s.token != "")
  }

  predicate Agree(w: World) { UsersAgree(w.t) && Filed(w) && IssuedOnce(w.issued) }

  lemma FreshIsUnknown(w: World, uuid: string)
    requires Filed(w)
    ensures uuid in w.t.tokens ==> Issued(w, uuid)
  {
    if uuid in w.t.tokens { assert w.t.tokens[uuid] in w.issued; }
  }

  lemma AgreeLogin(w: World, user: string, uuid: string, now: int)
    requires Agree(w) && uuid != "" && !Issued(w, uuid)
    ensures Agree(Step(w, OpLogin(user, uuid, now)))
  {
    FreshIsUnknown(w, uuid);
    var t' := Login(w.t, user, uuid, now);
    forall u | u in t'.users ensures UserAgrees(t', u, t'.users[u]) {
      assert u in w.t.users ==> UserAgrees(w.t, u, w.t.users[u]);
    }
  }

  lemma AgreeRotate(w: World, user: string, token: string, uuid: string, now: int)
    requires Agree(w) && uuid != "" && !Issued(w, uuid)
    ensures Agree(Step(w, OpRotate(user, token, uuid, now)))
  {
    FreshIsUnknown(w, uuid);
    if CanRotate(w.t, user, token, now) {
      var t' := Rotate(w.t, user, token, uuid, now);
      forall u | u in t'.users ensures UserAgrees(t', u, t'.users[u]) {
        assert u in w.t.users ==> UserAgrees(w.t, u, w.t.users[u]);
      }
    }
  }

  lemma AgreeKick(t: Tables, token: string, user: string)
    requires UsersAgree(t) && token in t.tokens && t.tokens[token].user == user
    ensures UsersAgree(Tables(t.tokens - {token}, t.users - {user}))
  {
    var t' := Tables(t.tokens - {token}, t.users - {user});
    forall u | u in t'.users ensures UserAgrees(t', u, t'.users[u]) {
      assert UserAgrees(t, u, t.users[u]);
    }
  }

  lemma AgreeStep(w: World, op: Op)
    requires Agree(w) && Fresh(w, op)
    ensures Agree(Step(w, op))
  {
    match op {
      case OpLogin(user, uuid, now) => AgreeLogin(w, user, uuid, now);
      case OpRotate(user, token, uuid, now) => AgreeRotate(w, user, token, uuid, now);
      case OpKickUser(user) =>
        if user in w.t.users {
          assert UserAgrees(w.t, user, w.t.users[user]);
          AgreeKick(w.t, w.t.users[user].token, user);
        }
      case OpKickToken(token) =>
        if token in w.t.tokens { AgreeKick(w.t, token, w.t.tokens[token].user); }
    }
  }

  /** The two tables agree after every run with fresh UUIDs. */
  lemma {:induction false} AgreeRun(w: World, ops: seq<Op>)
    requires Agree(w) && FreshRun(w, ops)
    ensures Agree(Run(w, ops))
    decreases |ops|
  {
    if ops != [] {
      AgreeStep(w, ops[0]);
      AgreeRun(Step(w, ops[0]), ops[1..]);
    }
  }

  /** After every run from start-up: KickoutByUser's "never happen" branch is not taken, the token in the
      by-user table stops working at once, and no other user loses anything. */
  lemma KickoutByUserWorks(ops: seq<Op>, user: string)
    requires FreshRun(Empty, ops)
    ensures var t := Run(Empty, ops).t;
            var t' := KickUser(t, user);
            && (user in t.users ==> t.users[user].token in t.tokens)
            && user !in t'.users
            && (user in t.users ==> t.users[user].token !in t'.tokens)
            && (forall k :: k in t.tokens && t.tokens[k].user != user ==> k in t'.tokens && t'.tokens[k] == t.tokens[k])
            && (forall u :: u in t.users && u != user ==> u in t'.users && t'.users[u] == t.users[u])
  {
    AgreeRun(Empty, ops);
  }

  /** The user is out: no token is accepted for them. */
  ghost predicate LockedOut(t: Tables, user: string, now: int) {
    forall token :: Validate(t, token, now) != Some(user)
  }

  /** QueryUserToken knows every token that is accepted for the user. */
  ghost predicate OnlyQueried(t: Tables, user: string, now: int) {
    forall token :: Validate(t, token, now) == Some(user) ==> Query(t, user) == token
  }

  /** What one token is worth after KickoutByUser. */
  lemma KickUserToken(w: World, user: string, token: string, now: int)
    requires Agree(w)
    ensures Validate(KickUser(w.t, user), token, now) == Some(user)
            <==> Validate(w.t, token, now) == Some(user) && Query(w.t, user) != token
  {
    if user in w.t.users {
      assert UserAgrees(w.t, user, w.t.users[user]);
    }
  }

  /** After every run, KickoutByUser locks the user out if and only if every token accepted for them is the
      one in the by-user table. */
  lemma KickoutByUserExact(ops: seq<Op>, user: string, now: int)
    requires FreshRun(Empty, ops)
    ensures var t := Run(Empty, ops).t;
            LockedOut(KickUser(t, user), user, now) <==> OnlyQueried(t, user, now)
  {
    AgreeRun(Empty, ops);
    var t := Run(Empty, ops).t;
    forall token
      ensures Validate(KickUser(t, user), token, now) == Some(user)
              <==> Validate(t, token, now) == Some(user) && Query(t, user) != token
    {
      KickUserToken(Run(Empty, ops), user, token, now);
    }
  }

  /** An accepted token was issued, to exactly the returned user, less than SESSION_INTERVAL ago. */
  lemma AcceptedWasIssued(ops: seq<Op>, token: string, now: int)
    requires FreshRun(Empty, ops)
    requires Validate(Run(Empty, ops).t, token, now).Some?
    ensures exists s :: s in Run(Empty, ops).issued && s.token == token
                        && Validate(Run(Empty, ops).t, token, now) == Some(s.user)
                        && now - s.updated < SESSION_INTERVAL
    ensures forall s :: s in Run(Empty, ops).issued && s.token == token
                        ==> Validate(Run(Empty, ops).t, token, now) == Some(s.user)
  {
    AgreeRun(Empty, ops);
    var s := Run(Empty, ops).t.tokens[token];
    assert s in Run(Empty, ops).issued && s.token == token;
  }

  // ---------- a dead token stays dead ----------

  lemma {:induction false} DeadStaysDead(w: World, ops: seq<Op>, token: string)
    requires Agree(w) && FreshRun(w, ops)
    requires Issued(w, token) && token !in w.t.tokens
    ensures token !in Run(w, ops).t.tokens
    decreases |ops|
  {
    if ops != [] {
      var w' := Step(w, ops[0]);
      AgreeStep(w, ops[0]);
      var s :| s in w.issued && s.token == token;
      assert s in w'.issued;
      DeadStaysDead(w', ops[1..], token);
    }
  }

  /** A rotated token never validates again, whatever follows; the new one works at once. */
  lemma RotatedTokenIsDead(before: seq<Op>, user: string, token: string, uuid: string, now: int,
                           after: seq<Op>, later: int)
    requires FreshRun(Empty, before)
    requires Fresh(Run(Empty, before), OpRotate(user, token, uuid, now))
    requires CanRotate(Run(Empty, before).t, user, token, now)
    requires FreshRun(Step(Run(Empty, before), OpRotate(user, token, uuid, now)), after)
    ensures var w := Step(Run(Empty, before), OpRotate(user, token, uuid, now));
            && Validate(Run(w, after).t, token, later) == None
            && Validate(w.t, uuid, now) == Some(user)
            && w.t.users[user].token == uuid
  {
    var w0 := Run(Empty, before);
    var op := OpRotate(user, token, uuid, now);
    AgreeRun(Empty, before);
    AgreeStep(w0, op);
    var s := w0.t.tokens[token];
    assert s in Step(w0, op).issued && s.token == token;
    DeadStaysDead(Step(w0, op), after, token);
  }

  // ---------- what an operation leaves alone ----------

  lemma QueryEmpty(w: World, user: string)
    requires Agree(w)
    ensures Query(w.t, user) == "" <==> user !in w.t.users
  {
    if user in w.t.users {
      var s := w.t.users[user];
      assert UserAgrees(w.t, user, s);
      assert w.t.tokens[s.token] in w.issued;
    }
  }

  // `Agree` holds after every run from start-up (AgreeRun).

  /** Nothing but these tokens and these users may differ, and nothing else is added. */
  ghost predicate OthersKept(t: Tables, t': Tables, tokens: set<string>, users: set<string>) {
    && (forall k :: k !in tokens ==>
          (k in t'.tokens <==> k in t.tokens) && (k in t.tokens ==> t'.tokens[k] == t.tokens[k]))
    && (forall u :: u !in users ==>
          (u in t'.users <==> u in t.users) && (u in t.users ==> t'.users[u] == t.users[u]))
  }

  /** A login after any run adds its own token, and the by-user entry if there was none; nobody else notices. */
  lemma LoginFrame(w: World, user: string, uuid: string, now: int, later: int)
    requires Agree(w) && Fresh(w, OpLogin(user, uuid, now))
    ensures var t' := Login(w.t, user, uuid, now);
            && OthersKept(w.t, t', {uuid}, if user in w.t.users then {} else {user})
            && Validate(t', uuid, later) == (if later - now < SESSION_INTERVAL then Some(user) else None)
            && Query(t', user) == if Query(w.t, user) == "" then uuid else Query(w.t, user)
  {
    FreshIsUnknown(w, uuid);
    QueryEmpty(w, user);
  }

  /** A rotation takes the old token away, adds the new one, and points the by-user entry to it; refused, it changes
      nothing. */
  lemma RotateFrame(w: World, user: string, token: string, uuid: string, now: int, later: int)
    requires Agree(w) && Fresh(w, OpRotate(user, token, uuid, now))
    ensures var t' := Rotate(w.t, user, token, uuid, now);
            if Validate(w.t, token, now) != Some(user) then t' == w.t
            else
              && OthersKept(w.t, t', {token, uuid}, {user})
              && token !in t'.tokens && Query(t', user) == uuid
              && Validate(t', uuid, later) == if later - now < SESSION_INTERVAL then Some(user) else None
  {
    FreshIsUnknown(w, uuid);
  }

  /** A logout by token takes that token and its user's by-user entry away -- also when the entry is that of
      another token of theirs -- and nothing else; without such an entry it changes nothing. */
  lemma KickoutByTokenFrame(w: World, token: string)
    requires Agree(w)
    ensures var t' := KickToken(w.t, token);
            if token in w.t.tokens && Query(w.t, w.t.tokens[token].user) != "" then
              && OthersKept(w.t, t', {token}, {w.t.tokens[token].user})
              && token !in t'.tokens && Query(t', w.t.tokens[token].user) == ""
            else t' == w.t
  {
    if token in w.t.tokens { QueryEmpty(w, w.t.tokens[token].user); }
  }

  /** A kick-out by user takes the by-user entry and its token away, and nothing else. */
  lemma KickoutByUserFrame(w: World, user: string)
    requires Agree(w)
    ensures var t' := KickUser(w.t, user);
            if Query(w.t, user) != "" then
              && OthersKept(w.t, t', {Query(w.t, user)}, {user})
              && Query(w.t, user) !in t'.tokens && Query(t', user) == ""
            else t' == w.t
  {
    QueryEmpty(w, user);
    if user in w.t.users { assert UserAgrees(w.t, user, w.t.users[user]); }
  }

  // ---------- the lifetime of a token ----------

  /** The operation takes the token out of use: it is rotated, logged out by a logout that works, or kicked out with
      its user. */
  predicate Retires(t: Tables, op: Op, token: string)
    requires token in t.tokens
  {
    match op
    case OpLogin(_, _, _) => false
    case OpRotate(user, old_, _, now) => old_ == token && Validate(t, token, now) == Some(user)
    case OpKickUser(user) => Query(t, user) == token
    case OpKickToken(kicked) => kicked == token && Query(t, t.tokens[token].user) != ""
  }

  predicate RetiredIn(w: World, ops: seq<Op>, token: string)
    requires token in w.t.tokens
    decreases |ops|
  {
    ops != [] && (Retires(w.t, ops[0], token)
                  || (token in Step(w, ops[0]).t.tokens && RetiredIn(Step(w, ops[0]), ops[1..], token)))
  }

  lemma RetiresExactly(w: World, op: Op, token: string)
    requires Agree(w) && Fresh(w, op) && token in w.t.tokens
    ensures var t' := Step(w, op).t;
            && (Retires(w.t, op, token) <==> token !in t'.tokens)
            && (token in t'.tokens ==> t'.tokens[token] == w.t.tokens[token])
  {
    var s := w.t.tokens[token];
    assert s in w.issued && s.token == token;
    QueryEmpty(w, s.user);
    match op {
      case OpLogin(_, uuid, _) => assert uuid != token;
      case OpRotate(_, _, uuid, _) => assert uuid != token;
      case OpKickUser(user) =>
        QueryEmpty(w, user);
        if user in w.t.users { assert UserAgrees(w.t, user, w.t.users[user]); }
      case OpKickToken(_) =>
    }
  }

  lemma {:induction false} TokenRun(w: World, ops: seq<Op>, token: string)
    requires Agree(w) && FreshRun(w, ops) && token in w.t.tokens
    ensures var t' := Run(w, ops).t;
            && (RetiredIn(w, ops, token) <==> token !in t'.tokens)
            && (token in t'.tokens ==> t'.tokens[token] == w.t.tokens[token])
    decreases |ops|
  {
    if ops != [] {
      var w' := Step(w, ops[0]);
      AgreeStep(w, ops[0]);
      RetiresExactly(w, ops[0], token);
      if token in w'.t.tokens {
        TokenRun(w', ops[1..], token);
      } else {
        var s := w.t.tokens[token];
        assert s in w'.issued && s.token == token;
        DeadStaysDead(w', ops[1..], token);
      }
    }
  }

  /** A token that a login gave out is accepted, for its user and nobody else, exactly as long as it was not retired
      and SESSION_INTERVAL is not over. */
  lemma LoginLifetime(before: seq<Op>, user: string, uuid: string, at: int, after: seq<Op>, now: int)
    requires FreshRun(Empty, before) && Fresh(Run(Empty, before), OpLogin(user, uuid, at))
    requires FreshRun(Step(Run(Empty, before), OpLogin(user, uuid, at)), after)
    ensures var w := Step(Run(Empty, before), OpLogin(user, uuid, at));
            && uuid in w.t.tokens
            && Validate(Run(w, after).t, uuid, now)
               == if !RetiredIn(w, after, uuid) && now - at < SESSION_INTERVAL then Some(user) else None
  {
    var w0, op := Run(Empty, before), OpLogin(user, uuid, at);
    AgreeRun(Empty, before);
    FreshIsUnknown(w0, uuid);
    AgreeStep(w0, op);
    TokenRun(Step(w0, op), after, uuid);
  }

  /** And so is one that a rotation gave out. */
  lemma RotateLifetime(before: seq<Op>, user: string, token: string, uuid: string, at: int, after: seq<Op>, now: int)
    requires FreshRun(Empty, before) && Fresh(Run(Empty, before), OpRotate(user, token, uuid, at))
    requires Validate(Run(Empty, before).t, token, at) == Some(user)
    requires FreshRun(Step(Run(Empty, before), OpRotate(user, token, uuid, at)), after)
    ensures var w := Step(Run(Empty, before), OpRotate(user, token, uuid, at));
            && uuid in w.t.tokens
            && Validate(Run(w, after).t, uuid, now)
               == if !RetiredIn(w, after, uuid) && now - at < SESSION_INTERVAL then Some(user) else None
  {
    var w0, op := Run(Empty, before), OpRotate(user, token, uuid, at);
    AgreeRun(Empty, before);
    FreshIsUnknown(w0, uuid);
    AgreeStep(w0, op);
    TokenRun(Step(w0, op), after, uuid);
  }

  // ---------- kick-out by token ----------

  /** A logout of an accepted token takes effect exactly when QueryUserToken still answers for
      its user; otherwise the token goes on being accepted for that user. */
  lemma KickoutByTokenExact(ops: seq<Op>, token: string, now: int)
    requires FreshRun(Empty, ops) && Validate(Run(Empty, ops).t, token, now).Some?
    ensures var t := Run(Empty, ops).t;
            var after := Validate(KickToken(t, token), token, now);
            if Query(t, Validate(t, token, now).value) != "" then after == None
            else after == Validate(t, token, now)
  {
    AgreeRun(Empty, ops);
    var t := Run(Empty, ops).t;
    var user := t.tokens[token].user;
    assert user in t.users ==> UserAgrees(t, user, t.users[user]);
  }

  /** Two logins of one user, then two logouts: the second logout meets the "never happen"
      branch and its token keeps validating. */
  lemma SecondLogoutIsLost()
    ensures var ops := [OpLogin("u", "a", 0), OpLogin("u", "b", 0), OpKickToken("a"), OpKickToken("b")];
            FreshRun(Empty, ops) && Validate(Run(Empty, ops).t, "b", 1) == Some("u")
  {
    var o1, o2, o3, o4 := OpLogin("u", "a", 0), OpLogin("u", "b", 0), OpKickToken("a"), OpKickToken("b");
    var w1 := Step(Empty, o1);
    var w2 := Step(w1, o2);
    var w3 := Step(w2, o3);
    var w4 := Step(w3, o4);
    assert w1.issued == {Session("u", 0, "a")};
    assert w3.t.users == map[] && "b" in w3.t.tokens;
    assert w4.t == w3.t;
    var ops := [o1, o2, o3, o4];
    assert ops[1..] == [o2, o3, o4] && ops[1..][1..] == [o3, o4];
    assert [o3, o4][1..] == [o4] && [o4][1..] == [];
    assert Run(w3, [o4]) == w4;
    assert Run(w2, [o3, o4]) == w4;
    assert Run(w1, [o2, o3, o4]) == w4;
    assert FreshRun(w3, [o4]) && FreshRun(w2, [o3, o4]) && FreshRun(w1, [o2, o3, o4]);
  }

  predicate Bijective(w: World) {
    forall k :: k in w.t.tokens ==>
      w.t.tokens[k].user in w.t.users && w.t.users[w.t.tokens[k].user] == w.t.tokens[k]
  }

  /** QueryUserToken has no answer for the user of a login. */
  predicate SingleLogin(w: World, op: Op) { op.OpLogin? ==> Query(w.t, op.user) == "" }

  predicate SingleLoginRun(w: World, ops: seq<Op>)
    decreases |ops|
  {
    ops == [] || (SingleLogin(w, ops[0]) && SingleLoginRun(Step(w, ops[0]), ops[1..]))
  }

  /** The tables are in bijection now and after every operation. */
  predicate BijectiveRun(w: World, ops: seq<Op>)
    decreases |ops|
  {
    Bijective(w) && (ops == [] || BijectiveRun(Step(w, ops[0]), ops[1..]))
  }

  /** A login keeps the bijection if and only if QueryUserToken has no answer for its user. */
  lemma LoginKeepsBijection(w: World, user: string, uuid: string, now: int)
    requires Agree(w) && Bijective(w) && uuid != "" && !Issued(w, uuid)
    ensures Bijective(Step(w, OpLogin(user, uuid, now))) <==> Query(w.t, user) == ""
  {
    QueryEmpty(w, user);
    FreshIsUnknown(w, uuid);
    var w' := Step(w, OpLogin(user, uuid, now));
    if user in w.t.users {
      assert UserAgrees(w.t, user, w.t.users[user]);
      assert w'.t.tokens[uuid].user == user && w'.t.users[user] != w'.t.tokens[uuid];
    }
  }

  /** Every operation but a login keeps it in any case. */
  lemma BijectiveStep(w: World, op: Op)
    requires Agree(w) && Bijective(w) && Fresh(w, op)
    ensures Bijective(Step(w, op)) <==> SingleLogin(w, op)
  {
    if op.OpLogin? { LoginKeepsBijection(w, op.user, op.uuid, op.now); }
  }

  /** The tables stay in bijection throughout a run if and only if every login finds QueryUserToken without an
      answer. */
  lemma {:induction false} BijectiveExactly(w: World, ops: seq<Op>)
    requires Agree(w) && Bijective(w) && FreshRun(w, ops)
    ensures BijectiveRun(w, ops) <==> SingleLoginRun(w, ops)
    ensures SingleLoginRun(w, ops) ==> Bijective(Run(w, ops))
    decreases |ops|
  {
    if ops != [] {
      AgreeStep(w, ops[0]);
      BijectiveStep(w, ops[0]);
      if SingleLogin(w, ops[0]) { BijectiveExactly(Step(w, ops[0]), ops[1..]); }
    }
  }

  /** On such a run both kick-outs work: a logout by token ends that token, a kick-out by user locks the user
      out. */
  lemma SingleLoginLogoutWorks(ops: seq<Op>, token: string, user: string, now: int)
    requires FreshRun(Empty, ops) && SingleLoginRun(Empty, ops)
    ensures var t := Run(Empty, ops).t;
            && token !in KickToken(t, token).tokens
            && LockedOut(KickUser(t, user), user, now)
            && Bijective(Run(Empty, ops)) && UsersAgree(t)
  {
    AgreeRun(Empty, ops);
    BijectiveExactly(Empty, ops);
    KickoutByUserExact(ops, user, now);
  }

  /** Nobody logs in while a token is accepted for them: not enough. */
  predicate LoginWhenLockedOut(w: World, op: Op) {
    op.OpLogin? ==> forall k :: k in w.t.tokens && w.t.tokens[k].user == op.user ==> Validate(w.t, k, op.now) == None
  }

  /** A user comes back after their token expired.  No token is live at either login, yet the tables leave the
      bijection: a kick-out by user removes the expired token and leaves the live one, and after a logout of
      the live one, a logout of the expired one meets the "never happen" branch. */
  lemma ReturnAfterExpiry()
    ensures var o1, o2 := OpLogin("u", "a", 0), OpLogin("u", "b", SESSION_INTERVAL);
            var w1, w2 := Step(Empty, o1), Step(Step(Empty, o1), o2);
            && FreshRun(Empty, [o1, o2]) && Run(Empty, [o1, o2]) == w2
            && LoginWhenLockedOut(Empty, o1) && LoginWhenLockedOut(w1, o2)
            && !Bijective(w2)
            && Validate(KickUser(w2.t, "u"), "b", SESSION_INTERVAL) == Some("u")
            && var t := KickToken(w2.t, "b");
               "a" in t.tokens && t.tokens["a"].user !in t.users && KickToken(t, "a") == t
  {
    var o1, o2 := OpLogin("u", "a", 0), OpLogin("u", "b", SESSION_INTERVAL);
    var w1 := Step(Empty, o1);
    var w2 := Step(w1, o2);
    assert w1.issued == {Session("u", 0, "a")};
    assert [o1, o2][1..] == [o2] && [o2][1..] == [];
    assert Run(w1, [o2]) == w2 && FreshRun(w1, [o2]);
    assert "b" in w2.t.tokens && w2.t.users["u"].token == "a";
  }

  // ---------- the class ----------

  class SessionManager {
    var tokenSessions: map<string, Session>
    var userSessions: map<string, Session>

    ghost function View(): Tables
      reads this
    {
      Tables(tokenSessions, userSessions)
    }

    constructor ()
      ensures View() == Empty.t
    {
      tokenSessions, userSessions := map[], map[];
    }

    method GenerateToken(user: string, uuid: string, now: int) returns (token: string)
      modifies this
      ensures View() == Login(old(View()), user, uuid, now) && token == uuid
    {
      token := uuid;
      var session := Session(user, now, token);
      if token !in tokenSessions { tokenSessions := tokenSessions[token := session]; }
      if user !in userSessions { userSessions := userSessions[user := session]; }
    }

    method ValidateSession(token: string, now: int) returns (ok: bool, user: string)
      ensures ok <==> Validate(View(), token, now).Some?
      ensures ok ==> Validate(View(), token, now) == Some(user)
    {
      user := "";
      if token == "" || token !in tokenSessions { return false, user; }
      if now - tokenSessions[token].updated >= SESSION_INTERVAL { return false, user; }
      return true, tokenSessions[token].user;
    }

    method UpdateSession(user: string, token: string, uuid: string, now: int)
      returns (ok: bool, newToken: string)
      modifies this
      ensures ok <==> CanRotate(old(View()), user, token, now)
      ensures ok ==> newToken == uuid
      ensures View() == Rotate(old(View()), user, token, uuid, now)
    {
      newToken := "";
      if token == "" || token !in tokenSessions { return false, newToken; }
      var session := tokenSessions[token];
      if user != session.user { return false, newToken; }
      if now - session.updated >= SESSION_INTERVAL { return false, newToken; }
      session := session.(updated := now);
      var newSession := session.(token := uuid);
      userSessions := userSessions[user := newSession];
      tokenSessions := tokenSessions - {token};
      tokenSessions := tokenSessions[newSession.token := newSession];
      return true, newSession.token;
    }

    method QueryUserToken(user: string) returns (token: string)
      ensures token == Query(View(), user)
    {
      if user !in userSessions { return ""; }
      return userSessions[user].token;
    }

    method KickoutByUser(user: string)
      modifies this
      ensures View() == KickUser(old(View()), user)
    {
      if user !in userSessions { return; }
      var token := userSessions[user].token;
      if token !in tokenSessions { return; }
      userSessions := userSessions - {user};
      tokenSessions := tokenSessions - {token};
    }

    method KickoutByToken(token: string)
      modifies this
      ensures View() == KickToken(old(View()), token)
    {
      if token !in tokenSessions { return; }
      var user := tokenSessions[token].user;
      if user !in userSessions { return; }
      userSessions := userSessions - {user};
      tokenSessions := tokenSessions - {token};
    }
  }
}
