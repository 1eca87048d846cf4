/**
 What RotateToken of the Redis store answers while other clients interleave with it: when a call is
 refused, when its EXEC rotates, and who wins of two calls with the same token.
 */
module RedisRotations {
  import opened Families
  import opened RedisRefreshTokens
  import M = MemoryRefreshTokens

  // ------------------------------------------------------------------------- single steps

  /** The family key that an issued token belongs to is gone or lacks a field. */
  predicate Broken(s: System, t: Token) {
    t in Abs(s).familyOf
    && var f := Abs(s).familyOf[t];
      f !in s.db.families || s.db.families[f].owner == "" || s.db.families[f].current == ""
  }

  predicate Superseded(s: System, t: Token) {
    t in Abs(s).familyOf
    && var f := Abs(s).familyOf[t];
      f in s.db.families && s.db.families[f].owner != "" && s.db.families[f].current !in {"", t}
  }

  /** The instant at which a call with token `t` is refused with `e`. */
  predicate RefusedNow(s: System, p: Client, t: Token, e: Error) {
    match e
    case InvalidRefreshToken => (p.RotateGet? && p.token == t && t !in s.db.tokenKey) || (p.RotateRead? && p.token == t && Broken(s, t))
    case RefreshTokenReplay => p.RotateRead? && p.token == t && Superseded(s, t)
  }

  /** A call is refused at exactly these instants and never takes it back: by GET if its token has no key, by
      HGETALL if the family key is broken or names another token.  No other command and no error refuses. */
  lemma RefusalIff(s: System, a: Action, t: Token, e: Error)
    requires Inv(s) && Can(s, a) && (a.Command? || a.Fault?)
    ensures var (p, q) := (s.clients[a.client], Step(s, a).clients[a.client]);
      Refusing(q, t, e) <==> Refusing(p, t, e) || (a.Command? && RefusedNow(s, p, t, e))
  {
    var p := s.clients[a.client];
    assert ClientOk(s, p);
    if a.Fault? {
      hide Inv, ClientOk;
      FaultRefuses(s, a, t, e);
    } else if p.RotateRead? {
      ReadRefuses(s, p, a.next, t, e);
      hide Inv, ClientOk, Broken, Superseded, Decide;
    } else {
      hide Inv, ClientOk, Broken, Superseded;
      OthersRefuse(s, a, t, e);
    }
  }

  lemma FaultRefuses(s: System, a: Action, t: Token, e: Error)
    requires Can(s, a) && a.Fault?
    ensures Refusing(Step(s, a).clients[a.client], t, e) <==> Refusing(s.clients[a.client], t, e)
  {
    hide CommitRotate, CommitRevoke;
  }

  lemma ReadRefuses(s: System, p: Client, next: Token, t: Token, e: Error)
    requires DbInv(s) && p.RotateRead? && ClientOk(s, p)
    ensures Refusing(Decide(s.db, p, next), t, e) <==> RefusedNow(s, p, t, e)
  {
    hide Replay, DbInv;
  }

  lemma OthersRefuse(s: System, a: Action, t: Token, e: Error)
    requires Can(s, a) && a.Command? && !s.clients[a.client].RotateRead?
    ensures var (p, q) := (s.clients[a.client], Step(s, a).clients[a.client]);
      Refusing(q, t, e) <==> Refusing(p, t, e) || RefusedNow(s, p, t, e)
  {
    hide CommitRotate, CommitRevoke, Version;
    var p := s.clients[a.client];
    if p.RevokeExec? || p.UserMembers? {
      ReturnRefuses(if p.RevokeExec? then p.caller else ForUser(p.owner, a.order), t, e);
      hide Return, Refusing;
    }
  }

  lemma ReturnRefuses(k: Caller, t: Token, e: Error)
    ensures Refusing(Return(k), t, e) <==> k == ForRotate(t, e)
  {
  }

  /** An error of a command is returned to the caller, except that a rotation which has been refused returns that. */
  lemma FaultsAreReported(s: System, a: Action)
    requires Can(s, a) && a.Fault?
    ensures var (p, q) := (s.clients[a.client], Step(s, a).clients[a.client]);
      q.Finished? && (q.result == Aborted || q.result.Failed?)
      && (q.result.Failed? <==> CallerOf(p).ForRotate?)
      && forall t, e :: q == Finished(Failed(t, e)) ==> Refusing(p, t, e)
  {
    hide CommitRotate, CommitRevoke;
  }

  // ------------------------------------------------------------------------------- EXEC

  /** What a call knows that has read or watched an older version: its token has been superseded. */
  ghost predicate StaleOk(s: System, p: Client) {
    match p
    case RotateRead(t, _, f, v) => v < Version(s.db, f) ==> Spent(Abs(s), t)
    case RotateExec(t, _, f, v, owner, _) => t != "" && owner != "" && (v < Version(s.db, f) ==> Spent(Abs(s), t))
    case _ => true
  }

  ghost predicate StalesOk(s: System) {
    forall c :: c in s.clients ==> StaleOk(s, s.clients[c])
  }

  lemma StoreMoves(db: Db, f: FamilyID, owner: UserID, t: Token, until: int, g: FamilyID)
    ensures Version(StoreToken(db, f, owner, t, until), g) == Version(db, g) + if g == f then 1 else 0
    ensures f in StoreToken(db, f, owner, t, until).families && StoreToken(db, f, owner, t, until).families[f].current == t
  {
  }

  lemma DeleteMoves(db: Db, f: FamilyID, g: FamilyID)
    ensures Version(DeleteFamily(db, f), g) == Version(db, g) + if g == f && f in db.families then 1 else 0
    ensures f !in DeleteFamily(db, f).families
  {
  }

  lemma RevokeMoves(db: Db, f: FamilyID, owner: UserID, hashes: set<Token>, g: FamilyID)
    ensures Version(RevokeFamily(db, f, owner, hashes), g) == Version(db, g) + if g == f && f in db.families then 1 else 0
    ensures f !in RevokeFamily(db, f, owner, hashes).families
  {
    hide Remove;
  }

  /** A family key changes by getting a new current token or by going away. */
  lemma VersionMoves(s: System, a: Action, f: FamilyID)
    requires Inv(s) && Can(s, a) && f in Abs(s).familyOf.Values && Version(Step(s, a).db, f) != Version(s.db, f)
    ensures var s' := Step(s, a); f !in s'.db.families || s'.db.families[f].current !in Abs(s).familyOf
  {
    hide StoreToken, RevokeFamily, DeleteFamily, Replay, Decide, Return, CallerOf;
    match a {
      case New(u, g, t, until) => StoreMoves(s.db, g, u, t, until, f);
      case ExpireFamily(g) => DeleteMoves(s.db, g, f);
      case Command(c, _, _) => ClientMoves(s, s.clients[c], Step(s, a), f);
      case Fault(c, applied) => ClientMoves(s, s.clients[c], Step(s, a), f);
      case _ =>
    }
  }

  lemma SameVersion(db: Db, db': Db, f: FamilyID)
    requires db'.version == db.version
    ensures Version(db', f) == Version(db, f)
  {
  }

  lemma ClientMoves(s: System, p: Client, s': System, f: FamilyID)
    requires ClientOk(s, p) && Version(s'.db, f) != Version(s.db, f)
    requires s'.db.version == s.db.version
      || (p.RotateExec? && s'.db == CommitRotate(s, p).db) || (p.RevokeExec? && s'.db == CommitRevoke(s, p).db)
    ensures f !in s'.db.families || s'.db.families[f].current !in Abs(s).familyOf
  {
    hide StoreToken, RevokeFamily, Replay;
    if s'.db.version == s.db.version {
      SameVersion(s.db, s'.db, f);
    } else if p.RotateExec? {
      StoreMoves(s.db, p.family, p.owner, p.next, p.until, f);
    } else {
      RevokeMoves(s.db, p.family, p.owner, p.hashes, f);
    }
  }

  lemma StaleStays(s: System, a: Action, t: Token, f: FamilyID, v: nat)
    requires Inv(s) && Can(s, a) && IssuedIn(s, t, f) && v <= Version(s.db, f)
    requires v < Version(s.db, f) ==> Spent(Abs(s), t)
    ensures v < Version(Step(s, a).db, f) ==> Spent(Abs(Step(s, a)), t)
  {
    var s' := Step(s, a);
    StepInv(s, a);
    assert DbInv(s') && s.log <= s'.log && f in Abs(s).familyOf.Values;
    assert IssuedIn(s', t, f);
    if Version(s.db, f) != Version(s'.db, f) {
      VersionMoves(s, a, f);
      hide Step, Can, Replay, Inv, Version, Legal;
    } else if Spent(Abs(s), t) {
      hide Step, Can, Replay, Inv, Version;
      Monotone(s'.log, |s.log|, |s'.log|);
      assert s'.log[..|s.log|] == s.log && s'.log[..|s'.log|] == s'.log;
    }
  }

  lemma StaleKept(s: System, a: Action, p: Client)
    requires Inv(s) && Can(s, a) && ClientOk(s, p) && StaleOk(s, p)
    ensures StaleOk(Step(s, a), p)
  {
    if p.RotateRead? || p.RotateExec? {
      assert IssuedIn(s, p.token, p.family) && p.version <= Version(s.db, p.family);
      hide Step, Can, Inv, ClientOk;
      StaleStays(s, a, p.token, p.family, p.version);
    }
    hide Step, Can, Inv, ClientOk;
  }

  /** The client's own command: WATCH reads the version, HGETALL finds the token current or refuses. */
  lemma StaleSteps(s: System, a: Action)
    requires Inv(s) && Can(s, a) && (a.Command? || a.Fault?) && StaleOk(s, s.clients[a.client])
    ensures StaleOk(Step(s, a), Step(s, a).clients[a.client])
  {
    var p, q := s.clients[a.client], Step(s, a).clients[a.client];
    assert ClientOk(s, p);
    if p.RotateRead? && a.Command? {
      assert Step(s, a).log == s.log && Step(s, a).db == s.db;
      assert Abs(Step(s, a)) == Abs(s);
      hide Step, Can, Inv, ClientOk, Replay;
    } else {
      OthersRead(s, a);
      hide Step, Can, Inv, ClientOk, Replay;
    }
  }

  lemma OthersRead(s: System, a: Action)
    requires Can(s, a) && (a.Command? || a.Fault?) && !(s.clients[a.client].RotateRead? && a.Command?)
    ensures var q := Step(s, a).clients[a.client];
      !q.RotateExec? && (q.RotateRead? ==> q.version == Version(Step(s, a).db, q.family))
  {
    hide CommitRotate, CommitRevoke, StoreToken, RevokeFamily, Version;
  }

  lemma StalesKept(s: System, a: Action)
    requires Inv(s) && StalesOk(s) && Can(s, a)
    ensures StalesOk(Step(s, a))
  {
    var s' := Step(s, a);
    forall c | c in s'.clients ensures StaleOk(s', s'.clients[c]) {
      if (a.Command? || a.Fault?) && a.client == c {
        StaleSteps(s, a);
      } else if !(a.Call? && a.client == c) {
        hide Inv, StaleOk;
        ItsClient(s, a, c);
        assert ClientOk(s, s.clients[c]) by { ItsState(s, c); }
        StaleKept(s, a, s.clients[c]);
      }
    }
  }

  lemma ItsState(s: System, c: ClientID)
    requires Inv(s) && c in s.clients
    ensures ClientOk(s, s.clients[c])
  {
  }

  lemma ItsClient(s: System, a: Action, c: ClientID)
    requires Can(s, a) && c in Step(s, a).clients && !((a.Command? || a.Fault? || a.Call?) && a.client == c)
    ensures c in s.clients && Step(s, a).clients[c] == s.clients[c]
  {
    hide Replay, Decide, Return, StoreToken, RevokeFamily, CallerOf;
  }

  lemma {:induction false} RunKeepsStale(run: seq<Action>)
    requires CanRun(INIT, run)
    ensures Inv(Run(INIT, run)) && StalesOk(Run(INIT, run))
  {
    RunKeeps(INIT, run);
    if run != [] {
      RunKeepsStale(run[..|run| - 1]);
      hide Inv, StalesOk, Step, Can;
      StalesKept(Run(INIT, run[..|run| - 1]), run[|run| - 1]);
    }
  }

  /** In every reachable state: an EXEC rotates if and only if its token is still the current one at that
      instant; otherwise it changes nothing and the call starts again from its GET. */
  lemma ExecIff(run: seq<Action>, a: Action)
    requires CanRun(INIT, run) && Can(Run(INIT, run), a) && a.Command? && Run(INIT, run).clients[a.client].RotateExec?
    ensures var s := Run(INIT, run); var s' := Step(s, a);
      var (p, q) := (s.clients[a.client], s'.clients[a.client]);
      && (Current(s, p.token) ==>
            p.family in s.db.families && q == Finished(Rotated(p.token, s.db.families[p.family].owner, p.next))
            && p.family in s'.db.families && s'.db.families[p.family] == Family(s.db.families[p.family].owner, p.next, p.until))
      && (!Current(s, p.token) ==> q == RotateGet(p.token, p.until) && s'.db == s.db && s'.log == s.log)
  {
    var s := Run(INIT, run);
    RunKeepsStale(run);
    var p := s.clients[a.client];
    assert ClientOk(s, p) && StaleOk(s, p) && DbInv(s);
    hide Run, CanRun, Replay, Legal, KeysOk;
  }

  // ------------------------------------------------------------- two calls with one token

  /** A call on its way to its EXEC, while nothing has changed. */
  predicate Contending(s: System, p: Client, t: Token, f: FamilyID) {
    match p
    case RotateGet(t', _) => t' == t
    case RotateWatch(t', _, g) => t' == t && g == f
    case RotateRead(t', _, g, v) => t' == t && g == f && v == Version(s.db, f)
    case RotateExec(t', _, g, v, _, next) => t' == t && g == f && v == Version(s.db, f) && next != ""
    case _ => false
  }

  /** A call that is going to find its token superseded, or has found it. */
  predicate Losing(s: System, p: Client, t: Token, f: FamilyID) {
    var k := ForRotate(t, RefreshTokenReplay);
    match p
    case RotateGet(t', _) => t' == t
    case RotateWatch(t', _, g) => t' == t && g == f
    case RotateRead(t', _, g, _) => t' == t && g == f
    case RotateExec(t', _, g, v, _, _) => t' == t && g == f && v < Version(s.db, f)
    case RevokeMembers(g, _, k') => g == f && k' == k
    case RevokeExec(g, _, _, k') => g == f && k' == k
    case _ => false
  }

  /** The family key holds named fields, and `t` has its key. */
  predicate Whole(s: System, t: Token, f: FamilyID) {
    t != "" && t in s.db.tokenKey && s.db.tokenKey[t] == f && f in s.db.families
    && s.db.families[f].owner != "" && s.db.families[f].current != ""
  }

  predicate Undecided(s: System, c: ClientID, d: ClientID, t: Token, f: FamilyID) {
    && c in s.clients && d in s.clients && Whole(s, t, f) && s.db.families[f].current == t
    && Contending(s, s.clients[c], t, f) && Contending(s, s.clients[d], t, f)
  }

  /** `c` has rotated the token; `d` is going to report the replay. */
  predicate Won(s: System, c: ClientID, d: ClientID, t: Token, f: FamilyID) {
    && c in s.clients && d in s.clients && WasTold(s.clients[c], t) && Whole(s, t, f) && s.db.families[f].current != t
    && Losing(s, s.clients[d], t, f)
  }

  /** Both calls have returned: one has rotated, the other was told of the replay, and the family is dead. */
  ghost predicate Over(s: System, c: ClientID, d: ClientID, t: Token, f: FamilyID) {
    && c in s.clients && d in s.clients && WasTold(s.clients[c], t)
    && s.clients[d] == Finished(Failed(t, RefreshTokenReplay)) && Dead(Abs(s), f)
  }

  /** Commands that a call still needs, if it wins or if it loses. */
  function Left(p: Client, wins: bool): nat {
    match p
    case RotateGet(_, _) => if wins then 4 else 5
    case RotateWatch(_, _, _) => if wins then 3 else 4
    case RotateRead(_, _, _, _) => if wins then 2 else 3
    case RotateExec(_, _, _, _, _, _) => if wins then 1 else 6
    case RevokeMembers(_, _, _) => 2
    case RevokeExec(_, _, _, _) => 1
    case _ => 0
  }

  ghost predicate Race(s: System, c: ClientID, d: ClientID, t: Token, f: FamilyID, left: int) {
    || (Undecided(s, c, d, t, f) && Left(s.clients[c], true) + Left(s.clients[d], true) + 5 <= left)
    || (Won(s, c, d, t, f) && Left(s.clients[d], false) <= left)
    || (Won(s, d, c, t, f) && Left(s.clients[c], false) <= left)
    || (left >= 0 && (Over(s, c, d, t, f) || Over(s, d, c, t, f)))
  }

  lemma UndecidedStep(s: System, a: Action, c: ClientID, d: ClientID, t: Token, f: FamilyID)
    requires Inv(s) && Can(s, a) && a.Command? && a.client == c && a.next != "" && c != d && Undecided(s, c, d, t, f)
    ensures var s' := Step(s, a);
      || (Undecided(s', c, d, t, f) && Left(s'.clients[c], true) == Left(s.clients[c], true) - 1 && s'.clients[d] == s.clients[d])
      || (s.clients[c].RotateExec? && Won(s', c, d, t, f) && s'.clients[d] == s.clients[d])
  {
    var p := s.clients[c];
    OthersStay(s, a, d);
    if p.RotateExec? {
      assert ClientOk(s, p) && IssuedIn(s, t, f);
      StoreMoves(s.db, f, p.owner, p.next, p.until, f);
      hide Inv, Replay, Version;
    } else {
      hide Inv, Replay;
    }
  }

  lemma WonStep(s: System, a: Action, c: ClientID, d: ClientID, t: Token, f: FamilyID)
    requires Inv(s) && Can(s, a) && a.Command? && a.client == d && c != d && Won(s, c, d, t, f)
    ensures var s' := Step(s, a);
      || (Won(s', c, d, t, f) && Left(s'.clients[d], false) == Left(s.clients[d], false) - 1)
      || (Over(s', c, d, t, f) && Left(s.clients[d], false) == 1)
  {
    var p := s.clients[d];
    OthersStay(s, a, c);
    assert ClientOk(s, p);
    if p.RevokeExec? {
      assert IssuedIn(s, t, f) && f in Abs(s).familyOf.Values;
      assert Step(s, a).clients[d] == Finished(Failed(t, RefreshTokenReplay));
      hide Inv, Replay, Version, RevokeFamily, Step, Can, Dead;
      CommitKills(s, a, f);
    } else {
      hide Inv, Replay, CommitRevoke, CommitRotate, Dead, Over;
    }
  }

  lemma RaceStep(s: System, a: Action, c: ClientID, d: ClientID, t: Token, f: FamilyID, left: int)
    requires Inv(s) && Can(s, a) && a.Command? && a.client in {c, d} && a.next != "" && c != d && Race(s, c, d, t, f, left)
    ensures Race(Step(s, a), c, d, t, f, left - 1)
  {
    var other := if a.client == c then d else c;
    if Undecided(s, c, d, t, f) {
      hide Inv, Step, Can;
      UndecidedStep(s, a, a.client, other, t, f);
    } else if Won(s, other, a.client, t, f) {
      hide Inv, Step, Can, Won, Undecided;
      WonStep(s, a, other, a.client, t, f);
    } else {
      hide Inv, Step, Losing, Contending, Whole, Dead;
    }
  }

  /** Nobody but the two clients acts, and nothing fails or expires; generated tokens are not empty. */
  predicate OnlyTwo(run: seq<Action>, c: ClientID, d: ClientID) {
    forall i :: 0 <= i < |run| ==> run[i].Command? && run[i].client in {c, d} && run[i].next != ""
  }

  lemma LastStep(s: System, run: seq<Action>)
    requires CanRun(s, run)
    ensures run != [] ==> var init, a := run[..|run| - 1], run[|run| - 1];
      CanRun(s, init) && Can(Run(s, init), a) && Run(s, run) == Step(Run(s, init), a)
    ensures run == [] ==> Run(s, run) == s
  {
    hide Can, Step;
  }

  lemma LastOfTwo(run: seq<Action>, c: ClientID, d: ClientID)
    requires OnlyTwo(run, c, d) && run != []
    ensures var a := run[|run| - 1]; OnlyTwo(run[..|run| - 1], c, d) && a.Command? && a.client in {c, d} && a.next != ""
  {
  }

  lemma {:induction false} RaceRuns(s: System, c: ClientID, d: ClientID, t: Token, f: FamilyID, run: seq<Action>, left: int)
    requires Inv(s) && CanRun(s, run) && OnlyTwo(run, c, d) && c != d && Race(s, c, d, t, f, left)
    ensures Race(Run(s, run), c, d, t, f, left - |run|)
  {
    hide *;
    if run != [] {
      var init, a := run[..|run| - 1], run[|run| - 1];
      LastStep(s, run);
      LastOfTwo(run, c, d);
      RaceRuns(s, c, d, t, f, init, left);
      RunKeeps(s, init);
      RaceStep(Run(s, init), a, c, d, t, f, left - |init|);
    } else {
      LastStep(s, run);
    }
  }

  /** Two calls with one current token, their commands interleaved in any way: together they take at most 13
      commands, and when both have returned exactly one has rotated the token, the other was told of a
      replay, and the family is dead. */
  lemma OneOfTwoRotates(s: System, c: ClientID, d: ClientID, t: Token, run: seq<Action>)
    requires Inv(s) && CanRun(s, run) && OnlyTwo(run, c, d) && c != d && c in s.clients && d in s.clients
    requires s.clients[c].RotateGet? && s.clients[d].RotateGet? && s.clients[c].token == t == s.clients[d].token
    requires Current(s, t) && t !in s.expired
    ensures |run| <= 13
    ensures var s' := Run(s, run);
      && c in s'.clients && d in s'.clients
      && (|run| == 13 ==> s'.clients[c].Finished? && s'.clients[d].Finished?)
      && (s'.clients[c].Finished? && s'.clients[d].Finished? ==>
            Over(s', c, d, t, Abs(s).familyOf[t]) != Over(s', d, c, t, Abs(s).familyOf[t]))
  {
    var f := Abs(s).familyOf[t];
    RaceStarts(s, c, d, t, f);
    hide *;
    RaceRuns(s, c, d, t, f, run, 13);
    RaceEnds(Run(s, run), c, d, t, f, 13 - |run|);
  }

  lemma RaceStarts(s: System, c: ClientID, d: ClientID, t: Token, f: FamilyID)
    requires DbInv(s) && c in s.clients && d in s.clients && t in Abs(s).familyOf && f == Abs(s).familyOf[t]
    requires s.clients[c].RotateGet? && s.clients[d].RotateGet? && s.clients[c].token == t == s.clients[d].token
    requires Current(s, t) && t !in s.expired
    ensures Race(s, c, d, t, f, 13)
  {
    assert Whole(s, t, f);
    hide Replay, Legal, Won, Over;
  }

  lemma RaceEnds(s: System, c: ClientID, d: ClientID, t: Token, f: FamilyID, left: int)
    requires Race(s, c, d, t, f, left)
    ensures left >= 0 && c in s.clients && d in s.clients
    ensures left == 0 ==> s.clients[c].Finished? && s.clients[d].Finished?
    ensures s.clients[c].Finished? && s.clients[d].Finished? ==> Over(s, c, d, t, f) != Over(s, d, c, t, f)
  {
    hide Whole, Dead, Abs;
  }

  // -------------------------------------------------------------- the tokens of a family

  /** The token that a storing step stores. */
  function StoredToken(s: System, a: Action): Token
    requires ChangeOf(s, a).Stores?
  {
    if a.New? then a.token else s.clients[a.client].next
  }

  lemma StoreLists(db: Db, g: FamilyID, owner: UserID, x: Token, until: int, f: FamilyID, t: Token)
    ensures t in Members(StoreToken(db, g, owner, x, until).familyTokens, f) <==> t in Members(db.familyTokens, f) || (g == f && x == t)
  {
  }

  lemma RevokeLists(db: Db, g: FamilyID, owner: UserID, hashes: set<Token>, f: FamilyID)
    ensures f in RevokeFamily(db, g, owner, hashes).families ==>
      Members(RevokeFamily(db, g, owner, hashes).familyTokens, f) == Members(db.familyTokens, f)
  {
  }

  lemma ListStep(s: System, a: Action, f: FamilyID, t: Token)
    requires Can(s, a) && f in Step(s, a).db.families
    ensures t in Members(Step(s, a).db.familyTokens, f) <==>
      (t in Members(s.db.familyTokens, f) && a != ExpireFamilyTokens(f))
      || (ChangeOf(s, a).Stores? && ChangeOf(s, a).family == f && StoredToken(s, a) == t)
  {
    hide StoreToken, RevokeFamily, Replay, Decide, Return, CallerOf;
    match a {
      case New(u, g, x, until) => StoreLists(s.db, g, u, x, until, f, t);
      case Command(c, _, _) => ClientLists(s, a, f, t);
      case Fault(c, applied) => ClientLists(s, a, f, t);
      case _ =>
    }
  }

  lemma ClientLists(s: System, a: Action, f: FamilyID, t: Token)
    requires Can(s, a) && (a.Command? || a.Fault?) && f in Step(s, a).db.families
    ensures t in Members(Step(s, a).db.familyTokens, f) <==>
      t in Members(s.db.familyTokens, f)
      || (ChangeOf(s, a).Stores? && ChangeOf(s, a).family == f && StoredToken(s, a) == t)
  {
    hide StoreToken, RevokeFamily, Replay, Decide, Return, CallerOf, Members, Version;
    var p := s.clients[a.client];
    if p.RotateExec? {
      StoreLists(s.db, p.family, p.owner, p.next, p.until, f, t);
    } else if p.RevokeExec? {
      RevokeLists(s.db, p.family, p.owner, p.hashes, f);
    }
  }

  /** The family event of a step that changes a family key, and none otherwise. */
  predicate Logs(s: System, a: Action, log: seq<Event>) {
    var d := ChangeOf(s, a);
    if d.Stores? then
      |log| == 1 && if a.New? then log[0] == Create(d.family, d.owner, a.token, a.until)
      else log[0].Rotate? && log[0].family == d.family && log[0].next == StoredToken(s, a)
    else log == [] || (|log| == 1 && log[0].Revoke?)
  }

  lemma StepLogs(s: System, a: Action) returns (more: seq<Event>)
    requires Can(s, a)
    ensures Step(s, a).log == s.log + more && Logs(s, a, more)
  {
    hide StoreToken, RevokeFamily, Replay, Decide, Return, CallerOf;
    more := Step(s, a).log[|s.log|..];
  }

  /** A step issues at most the token that it stores. */
  lemma IssuedBy(s: System, a: Action, t: Token, f: FamilyID)
    requires Inv(s) && Can(s, a) && IssuedIn(Step(s, a), t, f)
    ensures IssuedIn(s, t, f) || (ChangeOf(s, a).Stores? && ChangeOf(s, a).family == f && StoredToken(s, a) == t)
  {
    var s' := Step(s, a);
    var more := StepLogs(s, a);
    if more != [] {
      assert more == [more[0]];
      LogEffect(s, s', more[0]);
    } else {
      assert s'.log == s.log;
    }
    hide Replay, Step, Can, ChangeOf;
  }

  /** A stored token was not issued before. */
  lemma StoredIsNew(s: System, a: Action)
    requires Inv(s) && Can(s, a) && ChangeOf(s, a).Stores?
    ensures StoredToken(s, a) !in Abs(s).familyOf && IssuedIn(Step(s, a), StoredToken(s, a), ChangeOf(s, a).family)
  {
    var s' := Step(s, a);
    var more := StepLogs(s, a);
    assert more == [more[0]];
    LogEffect(s, s', more[0]);
    if !a.New? {
      assert ClientOk(s, s.clients[a.client]);
    }
    hide Replay, Step;
  }

  /** The list of the family's tokens expired at some step of the run after `t` had been issued. */
  ghost predicate ListExpired(run: seq<Action>, t: Token, f: FamilyID)
    requires CanRun(INIT, run)
    decreases |run|
  {
    run != [] &&
    (var init, a := run[..|run| - 1], run[|run| - 1];
      (a == ExpireFamilyTokens(f) && IssuedIn(Run(INIT, init), t, f)) || ListExpired(init, t, f))
  }

  lemma {:induction false} ExpiredWasIssued(run: seq<Action>, t: Token, f: FamilyID)
    requires CanRun(INIT, run) && ListExpired(run, t, f)
    ensures IssuedIn(Run(INIT, run), t, f)
  {
    var init, a := run[..|run| - 1], run[|run| - 1];
    RunKeeps(INIT, init);
    if !IssuedIn(Run(INIT, init), t, f) {
      ExpiredWasIssued(init, t, f);
    }
    hide Inv, Step, Can, Abs;
    StepInv(Run(INIT, init), a);
  }

  lemma StaysDead(s: System, a: Action, t: Token, f: FamilyID)
    requires Inv(s) && Can(s, a) && IssuedIn(s, t, f) && f in Step(s, a).db.families
    ensures f in s.db.families
  {
    StepInv(s, a);
    if f !in s.db.families {
      DeadStays(s, a, f);
    }
    hide Step, Can, Replay, Legal;
  }

  /** After any run: a token of a live family is missing from the family's list, and so survives a revocation
      as a useless key, if and only if that list expired after the token was issued. */
  lemma {:induction false} TokenUnlistedIff(run: seq<Action>, t: Token, f: FamilyID)
    requires CanRun(INIT, run) && f in Run(INIT, run).db.families && IssuedIn(Run(INIT, run), t, f)
    ensures t !in Members(Run(INIT, run).db.familyTokens, f) <==> ListExpired(run, t, f)
  {
    if run != [] {
      var init, a := run[..|run| - 1], run[|run| - 1];
      var s := Run(INIT, init);
      RunKeeps(INIT, init);
      assert Can(s, a) && Run(INIT, run) == Step(s, a);
      ListStep(s, a, f, t);
      IssuedBy(s, a, t, f);
      if IssuedIn(s, t, f) {
        StaysDead(s, a, t, f);
        if ChangeOf(s, a).Stores? {
          StoredIsNew(s, a);
        }
        hide Inv, Step, Can, Abs, Members, ChangeOf;
        TokenUnlistedIff(init, t, f);
      } else {
        if ListExpired(init, t, f) {
          ExpiredWasIssued(init, t, f);
        }
        hide Inv, Step, Can, Abs, Members;
      }
    }
  }

  // -------------------------------------------------- the other calls, and the in-memory store

  /** NewToken does to the families what the in-memory store does. */
  lemma NewMatchesMemory(s: System, u: UserID, f: FamilyID, t: Token, until: int)
    requires Can(s, New(u, f, t, until))
    ensures Abs(Step(s, New(u, f, t, until))) == M.Apply(Abs(s), M.New(u, f, t, until))
  {
    LogEffect(s, Step(s, New(u, f, t, until)), Create(f, u, t, until));
    hide Replay;
  }

  /** The last two commands of a deletion. */
  lemma DeleteEnds(s: System, c: ClientID, next: Token) returns (end: System)
    requires c in s.clients && s.clients[c].RevokeMembers? && s.clients[c].caller.ForDelete?
    ensures CanAlone(s, c, next, 2) && Alone(s, c, next, 2) == end
    ensures c in end.clients && end.clients[c] == Finished(Done) && end.log == s.log + [Revoke({s.clients[c].family})]
  {
    var a := Command(c, next, []);
    var s1 := Step(s, a);
    end := Step(s1, a);
    OneMore(s1, c, next, 0, end);
    OneMore(s, c, next, 1, end);
  }

  lemma DeleteRevokes(s: System, c: ClientID, next: Token) returns (n: nat, end: System)
    requires c in s.clients && (s.clients[c].RevokeRead? || s.clients[c].RevokeMembers?) && s.clients[c].caller.ForDelete?
    ensures n <= 3 && CanAlone(s, c, next, n) && Alone(s, c, next, n) == end
    ensures c in end.clients && end.clients[c] == Finished(Done) && end.log == s.log + [Revoke({s.clients[c].family})]
  {
    if s.clients[c].RevokeRead? {
      var s1 := Step(s, Command(c, next, []));
      end := DeleteEnds(s1, c, next);
      n := 3;
      OneMore(s, c, next, 2, end);
    } else {
      end := DeleteEnds(s, c, next);
      n := 2;
    }
  }

  /** Undisturbed, DeleteToken takes at most five commands, succeeds, and does to the families what the
      in-memory store does. */
  lemma DeleteAloneMatchesMemory(s: System, c: ClientID, next: Token) returns (n: nat, end: System)
    requires Inv(s) && c in s.clients && s.clients[c].DeleteGet? && s.clients[c].token !in s.expired
    ensures n <= 5 && CanAlone(s, c, next, n) && Alone(s, c, next, n) == end
    ensures c in end.clients && end.clients[c] == Finished(Done)
    ensures Abs(end) == M.Apply(Abs(s), M.Delete(s.clients[c].token))
  {
    var t := s.clients[c].token;
    assert DbInv(s);
    hide *;
    if t !in s.db.tokenKey {
      end := DeleteUnknown(s, c, next);
      n := 1;
    } else {
      n, end := DeleteKnown(s, c, next);
      DeleteEffect(s, end, t);
    }
  }

  lemma DeleteKnown(s: System, c: ClientID, next: Token) returns (n: nat, end: System)
    requires c in s.clients && s.clients[c].DeleteGet? && s.clients[c].token in s.db.tokenKey
    ensures n <= 5 && CanAlone(s, c, next, n) && Alone(s, c, next, n) == end
    ensures c in end.clients && end.clients[c] == Finished(Done)
    ensures end.log == s.log + [Revoke({s.db.tokenKey[s.clients[c].token]})]
  {
    hide *;
    var s1, s2 := DeleteReads(s, c, next);
    var m;
    m, end := DeleteRevokes(s2, c, next);
    n := m + 2;
    DeletesAlone(s, s1, s2, c, next, m, end);
  }

  lemma DeleteUnknown(s: System, c: ClientID, next: Token) returns (end: System)
    requires DbInv(s) && c in s.clients && s.clients[c].DeleteGet? && s.clients[c].token !in s.expired && s.clients[c].token !in s.db.tokenKey
    ensures CanAlone(s, c, next, 1) && Alone(s, c, next, 1) == end
    ensures c in end.clients && end.clients[c] == Finished(Done) && Abs(end) == M.Apply(Abs(s), M.Delete(s.clients[c].token))
  {
    end := Step(s, Command(c, next, []));
    OneMore(s, c, next, 0, end);
    assert Abs(end) == Abs(s);
    hide Replay, Legal, CanAlone, Alone;
  }

  /** The first two commands of a deletion that finds the token's key. */
  lemma DeleteReads(s: System, c: ClientID, next: Token) returns (s1: System, s2: System)
    requires c in s.clients && s.clients[c].DeleteGet? && s.clients[c].token in s.db.tokenKey
    ensures Can(s, Command(c, next, [])) && s1 == Step(s, Command(c, next, []))
    ensures Can(s1, Command(c, next, [])) && s2 == Step(s1, Command(c, next, [])) && s2.log == s.log
    ensures c in s2.clients && (s2.clients[c].RevokeRead? || s2.clients[c].RevokeMembers?) && s2.clients[c].caller.ForDelete?
    ensures s2.clients[c].family == s.db.tokenKey[s.clients[c].token]
  {
    s1 := Step(s, Command(c, next, []));
    s2 := Step(s1, Command(c, next, []));
  }

  lemma DeleteEffect(s: System, end: System, t: Token)
    requires DbInv(s) && t in s.db.tokenKey && end.log == s.log + [Revoke({s.db.tokenKey[t]})]
    ensures Abs(end) == M.Apply(Abs(s), M.Delete(t))
  {
    var f := s.db.tokenKey[t];
    LogEffect(s, end, Revoke({f}));
    hide Replay, Legal;
    assert f !in Abs(s).live ==> Abs(s).live - {f} == Abs(s).live;
  }

  lemma DeletesAlone(s: System, s1: System, s2: System, c: ClientID, next: Token, m: nat, end: System)
    requires Can(s, Command(c, next, [])) && s1 == Step(s, Command(c, next, []))
    requires Can(s1, Command(c, next, [])) && s2 == Step(s1, Command(c, next, []))
    requires CanAlone(s2, c, next, m) && Alone(s2, c, next, m) == end
    ensures CanAlone(s, c, next, m + 2) && Alone(s, c, next, m + 2) == end
  {
    hide Can, Step, CanAlone, Alone;
    OneMore(s1, c, next, m, end);
    OneMore(s, c, next, m + 1, end);
  }
}
