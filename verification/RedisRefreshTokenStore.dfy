/**
 The Redis token store as a step system.  Any number of clients interleave at every Redis
 command; an EXEC of watched commands commits only if the watched family key has not changed
 since WATCH; any key may expire at any time; and any command may fail, an EXEC also after it
 was applied.  The log of committed changes to family keys is proved to be a legal run of the
 family machine, so its safety theorems hold for every interleaving.
 */
module RedisRefreshTokens {
  import opened Families
  import M = MemoryRefreshTokens
  import Options

  type ClientID = nat

  /** One map per key prefix; `version` counts the changes to a family key. */
  datatype Db = Db(
    tokenKey: map<Token, FamilyID>,
    families: map<FamilyID, Family>,
    familyTokens: map<FamilyID, set<Token>>,
    userFamilies: map<UserID, set<FamilyID>>,
    version: map<FamilyID, nat>)

  datatype Error = InvalidRefreshToken | RefreshTokenReplay

  datatype Result =
    | Rotated(token: Token, owner: UserID, next: Token)
    | Failed(token: Token, error: Error)
    | Aborted
    | Done

  /** Whoever called revokeFamily, and what it does afterwards. */
  datatype Caller = ForRotate(token: Token, error: Error) | ForDelete | ForUser(owner: UserID, rest: seq<FamilyID>)

  /** A client's program counter: the command it issues next, with its local variables. */
  datatype Client =
    | Idle
    | RotateGet(token: Token, until: int)
    | RotateWatch(token: Token, until: int, family: FamilyID)
    | RotateRead(token: Token, until: int, family: FamilyID, version: nat)
    | RotateExec(token: Token, until: int, family: FamilyID, version: nat, owner: UserID, next: Token)
    | DeleteGet(token: Token)
    | DeleteRead(family: FamilyID)
    | UserMembers(owner: UserID)
    | UserDel(owner: UserID)
    | RevokeRead(family: FamilyID, caller: Caller)
    | RevokeMembers(family: FamilyID, owner: UserID, caller: Caller)
    | RevokeExec(family: FamilyID, owner: UserID, hashes: set<Token>, caller: Caller)
    | Finished(result: Result)

  /** `log`, `generated` and `expired` are history: the committed changes to family keys, every
      token ever generated, and the tokens whose own key has expired. */
  datatype System = System(
    db: Db, clients: map<ClientID, Client>, log: seq<Event>, generated: set<Token>, expired: set<Token>)

  datatype Action =
    | New(owner: UserID, family: FamilyID, token: Token, until: int)
    | Call(client: ClientID, start: Client)
    | Command(client: ClientID, next: Token, order: seq<FamilyID>)
    | Fault(client: ClientID, applied: bool)
    | ExpireToken(token: Token)
    | ExpireFamily(family: FamilyID)
    | ExpireFamilyTokens(family: FamilyID)
    | ExpireUserFamilies(owner: UserID)

  const INIT := System(Db(map[], map[], map[], map[], map[]), map[], [], {}, {})

  // --------------------------------------------------------------------- Redis commands

  function Version(db: Db, f: FamilyID): nat {
    if f in db.version then db.version[f] else 0
  }

  function Touch(db: Db, f: FamilyID): map<FamilyID, nat> {
    db.version[f := Version(db, f) + 1]
  }

  function Members<K>(m: map<K, set<string>>, k: K): set<string> {
    if k in m then m[k] else {}
  }

  function Remove<K>(m: map<K, set<string>>, k: K, x: string): map<K, set<string>> {
    if Members(m, k) - {x} == {} then m - {k} else m[k := m[k] - {x}]
  }

  /** The pipeline that NewToken and RotateToken share. */
  function StoreToken(db: Db, f: FamilyID, owner: UserID, t: Token, until: int): Db {
    Db(db.tokenKey[t := f],
       db.families[f := Family(owner, t, until)],
       db.familyTokens[f := Members(db.familyTokens, f) + {t}],
       db.userFamilies[owner := Members(db.userFamilies, owner) + {f}],
       Touch(db, f))
  }

  function DeleteFamily(db: Db, f: FamilyID): Db {
    if f in db.families then db.(families := db.families - {f}, version := Touch(db, f)) else db
  }

  /** The pipeline of revokeFamily. */
  function RevokeFamily(db: Db, f: FamilyID, owner: UserID, hashes: set<Token>): Db {
    DeleteFamily(db.(tokenKey := db.tokenKey - hashes,
                     familyTokens := db.familyTokens - {f},
                     userFamilies := if owner == "" then db.userFamilies else Remove(db.userFamilies, owner, f)), f)
  }

  // ------------------------------------------------------------------------ client steps

  function StartRevoke(f: FamilyID, owner: UserID, caller: Caller): Client {
    if owner == "" then RevokeRead(f, caller) else RevokeMembers(f, owner, caller)
  }

  function Return(caller: Caller): Client {
    match caller
    case ForRotate(t, e) => Finished(Failed(t, e))
    case ForDelete => Finished(Done)
    case ForUser(u, rest) => if rest == [] then UserDel(u) else StartRevoke(rest[0], u, ForUser(u, rest[1..]))
  }

  function OwnerOf(db: Db, f: FamilyID): UserID {
    if f in db.families then db.families[f].owner else ""
  }

  /** What the callback of Watch decides from the family hash it reads. */
  function Decide(db: Db, p: Client, next: Token): Client
    requires p.RotateRead?
  {
    var f := p.family;
    if f !in db.families then StartRevoke(f, "", ForRotate(p.token, InvalidRefreshToken))
    else
      var h := db.families[f];
      if h.current == "" || h.owner == "" then StartRevoke(f, h.owner, ForRotate(p.token, InvalidRefreshToken))
      else if h.current != p.token then StartRevoke(f, h.owner, ForRotate(p.token, RefreshTokenReplay))
      else RotateExec(p.token, p.until, f, p.version, h.owner, next)
  }

  function CommitRotate(s: System, p: Client): System
    requires p.RotateExec?
  {
    s.(db := StoreToken(s.db, p.family, p.owner, p.next, p.until),
       log := s.log + [Rotate(p.family, p.token, p.next, p.until)])
  }

  function CommitRevoke(s: System, p: Client): System
    requires p.RevokeExec?
  {
    s.(db := RevokeFamily(s.db, p.family, p.owner, p.hashes), log := s.log + [Revoke({p.family})])
  }

  /** Executes the client's next command successfully. */
  function Succeed(s: System, p: Client, a: Action): (System, Client)
    requires a.Command?
  {
    match p
    case RotateGet(t, until) =>
      (s, if t in s.db.tokenKey then RotateWatch(t, until, s.db.tokenKey[t]) else Finished(Failed(t, InvalidRefreshToken)))
    case RotateWatch(t, until, f) => (s, RotateRead(t, until, f, Version(s.db, f)))
    case RotateRead(_, _, _, _) =>
      var q := Decide(s.db, p, a.next);
      (if q.RotateExec? then s.(generated := s.generated + {a.next}) else s, q)
    case RotateExec(t, until, f, v, owner, next) =>
      if v == Version(s.db, f) then (CommitRotate(s, p), Finished(Rotated(t, owner, next)))
      else (s, RotateGet(t, until))
    case DeleteGet(t) => (s, if t in s.db.tokenKey then DeleteRead(s.db.tokenKey[t]) else Finished(Done))
    case DeleteRead(f) => (s, StartRevoke(f, OwnerOf(s.db, f), ForDelete))
    case UserMembers(u) => (s, Return(ForUser(u, a.order)))
    case UserDel(u) => (s.(db := s.db.(userFamilies := s.db.userFamilies - {u})), Finished(Done))
    case RevokeRead(f, caller) => (s, RevokeMembers(f, OwnerOf(s.db, f), caller))
    case RevokeMembers(f, owner, caller) => (s, RevokeExec(f, owner, Members(s.db.familyTokens, f), caller))
    case RevokeExec(_, _, _, caller) => (CommitRevoke(s, p), Return(caller))
    case Idle => (s, p)
    case Finished(_) => (s, p)
  }

  function CallerOf(p: Client): Caller {
    match p
    case RevokeRead(_, k) => k
    case RevokeMembers(_, _, k) => k
    case RevokeExec(_, _, _, k) => k
    case _ => ForDelete
  }

  /** The client's next command returns an error; `applied` tells whether it took effect. */
  function Break(s: System, p: Client, applied: bool): (System, Client) {
    var s' :=
      if !applied then s
      else if p.RotateExec? && p.version == Version(s.db, p.family) then CommitRotate(s, p)
      else if p.RevokeExec? then CommitRevoke(s, p)
      else if p.UserDel? then s.(db := s.db.(userFamilies := s.db.userFamilies - {p.owner}))
      else s;
    // RotateToken ignores the error of its revokeFamily; everyone else returns it.
    (s', if CallerOf(p).ForRotate? then Return(CallerOf(p)) else Finished(Aborted))
  }

  ghost predicate Can(s: System, a: Action) {
    match a
    case New(_, f, t, _) => t !in s.generated && f !in Replay(s.log).familyOf.Values
    case Call(c, start) =>
      (c !in s.clients || s.clients[c].Finished? || s.clients[c].Idle?)
      && (start.RotateGet? || start.DeleteGet? || start.UserMembers?)
    case Command(c, next, order) =>
      c in s.clients && !s.clients[c].Idle? && !s.clients[c].Finished?
      && (s.clients[c].RotateRead? ==> next !in s.generated)
      && (s.clients[c].UserMembers? ==>
            |order| == |Members(s.db.userFamilies, s.clients[c].owner)|
            && forall f :: f in order <==> f in Members(s.db.userFamilies, s.clients[c].owner))
    case Fault(c, _) => c in s.clients && !s.clients[c].Idle? && !s.clients[c].Finished?
    case _ => true
  }

  function Step(s: System, a: Action): System
    requires Can(s, a)
  {
    match a
    case New(u, f, t, until) =>
      s.(db := StoreToken(s.db, f, u, t, until), log := s.log + [Create(f, u, t, until)], generated := s.generated + {t})
    case Call(c, start) => s.(clients := s.clients[c := start])
    case Command(c, _, _) =>
      var (s', p) := Succeed(s, s.clients[c], a);
      s'.(clients := s.clients[c := p])
    case Fault(c, applied) =>
      var (s', p) := Break(s, s.clients[c], applied);
      s'.(clients := s.clients[c := p])
    case ExpireToken(t) =>
      s.(db := s.db.(tokenKey := s.db.tokenKey - {t}), expired := s.expired + {t})
    case ExpireFamily(f) =>
      if f in s.db.families then s.(db := DeleteFamily(s.db, f), log := s.log + [Revoke({f})]) else s
    case ExpireFamilyTokens(f) => s.(db := s.db.(familyTokens := s.db.familyTokens - {f}))
    case ExpireUserFamilies(u) => s.(db := s.db.(userFamilies := s.db.userFamilies - {u}))
  }

  // ---------------------------------------------------------------------------- invariant

  function Abs(s: System): State { Replay(s.log) }

  predicate IssuedIn(s: System, t: Token, f: FamilyID) {
    t in Abs(s).familyOf && Abs(s).familyOf[t] == f
  }

  predicate Consumed(log: seq<Event>, t: Token) {
    exists i :: 0 <= i < |log| && log[i].Rotate? && log[i].token == t
  }

  /** The committed log is a legal run of the family machine, and the family keys are exactly
      its live families.  A token key always names the token's own family; a token of a live
      family has its key, unless that key expired. */
  ghost predicate DbInv(s: System) {
    && Legal(s.log)
    && s.db.families == Abs(s).live
    && Abs(s).familyOf.Keys <= s.generated
    && KeysOk(s.db, Abs(s).familyOf, s.expired)
  }

  ghost predicate KeysOk(db: Db, familyOf: map<Token, FamilyID>, expired: set<Token>) {
    && (forall t :: t in db.tokenKey ==> t in familyOf && familyOf[t] == db.tokenKey[t])
    && (forall t :: t in familyOf && familyOf[t] in db.families ==> t in db.tokenKey || t in expired)
    && (forall f, t :: f in db.familyTokens && t in db.familyTokens[f] ==> t in familyOf && familyOf[t] == f)
  }

  lemma StoreKeepsKeys(db: Db, familyOf: map<Token, FamilyID>, expired: set<Token>, f: FamilyID, owner: UserID, t: Token, until: int)
    requires KeysOk(db, familyOf, expired) && t !in familyOf
    requires f in db.families || f !in familyOf.Values
    ensures KeysOk(StoreToken(db, f, owner, t, until), familyOf[t := f], expired)
  {
    var db', familyOf' := StoreToken(db, f, owner, t, until), familyOf[t := f];
    forall t' | t' in familyOf ensures familyOf[t'] in familyOf.Values {
    }
    hide Touch;
    forall g, x | g in db'.familyTokens && x in db'.familyTokens[g] ensures x in familyOf' && familyOf'[x] == g {
      assert x != t ==> g in db.familyTokens && x in db.familyTokens[g];
    }
    forall x | x in familyOf' && familyOf'[x] in db'.families ensures x in db'.tokenKey || x in expired {
      assert x != t ==> familyOf[x] in db.families;
    }
  }

  ghost predicate CallerOk(s: System, f: FamilyID, k: Caller) {
    k.ForRotate? ==> IssuedIn(s, k.token, f) && (k.error.RefreshTokenReplay? ==> Consumed(s.log, k.token))
  }

  ghost predicate ClientOk(s: System, p: Client) {
    match p
    case RotateWatch(t, _, f) => IssuedIn(s, t, f)
    case RotateRead(t, _, f, v) => IssuedIn(s, t, f) && v <= Version(s.db, f)
    case RotateExec(t, _, f, v, owner, next) =>
      && IssuedIn(s, t, f) && v <= Version(s.db, f)
      && (v == Version(s.db, f) ==> exists x :: FamilyAt(s.db, f) == {Family(owner, t, x)})
      && next in s.generated && next !in Abs(s).familyOf
    case RevokeRead(f, k) => CallerOk(s, f, k)
    case RevokeMembers(f, _, k) => CallerOk(s, f, k)
    case RevokeExec(f, _, hashes, k) => CallerOk(s, f, k) && forall h :: h in hashes ==> IssuedIn(s, h, f)
    case Finished(Rotated(t, _, next)) =>
      exists i :: 0 <= i < |s.log| && s.log[i].Rotate? && s.log[i].token == t && s.log[i].next == next
    case Finished(Failed(t, RefreshTokenReplay)) => Consumed(s.log, t)
    case _ => true
  }

  /** The token a client has generated for the rotation it is about to commit or has committed. */
  function Own(p: Client): set<Token> {
    match p
    case RotateExec(_, _, _, _, _, next) => {next}
    case Finished(Rotated(_, _, next)) => {next}
    case _ => {}
  }

  ghost predicate Inv(s: System) {
    && DbInv(s)
    && (forall c :: c in s.clients ==> ClientOk(s, s.clients[c]) && Own(s.clients[c]) <= s.generated)
    && (forall c, d :: c in s.clients && d in s.clients && c != d ==> Own(s.clients[c]) !! Own(s.clients[d]))
  }

  lemma RevokeKeepsKeys(db: Db, familyOf: map<Token, FamilyID>, expired: set<Token>, f: FamilyID, owner: UserID, hashes: set<Token>)
    requires KeysOk(db, familyOf, expired)
    requires forall h :: h in hashes ==> h in familyOf && familyOf[h] == f
    ensures KeysOk(RevokeFamily(db, f, owner, hashes), familyOf, expired)
    ensures RevokeFamily(db, f, owner, hashes).families == db.families - {f}
    ensures Versioned(db, RevokeFamily(db, f, owner, hashes))
  {
    DeleteVersioned(db, f);
    assert forall g :: Version(RevokeFamily(db, f, owner, hashes), g) == Version(DeleteFamily(db, f), g);
  }

  // ------------------------------------------------------------------------- preservation

  /** A family key changes only together with its version. */
  ghost predicate Versioned(db: Db, db': Db) {
    && (forall f :: Version(db, f) <= Version(db', f))
    && (forall f :: Version(db, f) == Version(db', f) ==> FamilyAt(db, f) == FamilyAt(db', f))
  }

  /** The family key's value, as a set of at most one element. */
  function FamilyAt(db: Db, f: FamilyID): set<Family> {
    if f in db.families then {db.families[f]} else {}
  }

  /** What any step may do to the shared state, seen by a client that does not move. */
  ghost predicate Evolves(s: System, s': System) {
    && s.log <= s'.log
    && (forall t :: t in Abs(s).familyOf ==> t in Abs(s').familyOf && Abs(s').familyOf[t] == Abs(s).familyOf[t])
    && Versioned(s.db, s'.db)
    && s.generated <= s'.generated
  }

  lemma StoreVersioned(db: Db, f: FamilyID, owner: UserID, t: Token, until: int)
    ensures Versioned(db, StoreToken(db, f, owner, t, until))
  {
    forall g ensures Version(StoreToken(db, f, owner, t, until), g) == Version(db, g) + if g == f then 1 else 0 {
    }
  }

  lemma DeleteVersioned(db: Db, f: FamilyID)
    ensures Versioned(db, DeleteFamily(db, f)) && DeleteFamily(db, f).families == db.families - {f}
  {
    forall g ensures Version(DeleteFamily(db, f), g) == Version(db, g) + if g == f && f in db.families then 1 else 0 {
    }
  }

  lemma ClientStable(s: System, s': System, p: Client)
    requires ClientOk(s, p) && Evolves(s, s')
    requires p.RotateExec? ==> p.next !in Abs(s').familyOf
    ensures ClientOk(s', p)
  {
    hide Replay;
    if p.Finished? && p.result.Rotated? {
      var i :| 0 <= i < |s.log| && s.log[i].Rotate? && s.log[i].token == p.result.token && s.log[i].next == p.result.next;
      assert s'.log[i] == s.log[i];
    }
    forall t | Consumed(s.log, t) ensures Consumed(s'.log, t) {
      var i :| 0 <= i < |s.log| && s.log[i].Rotate? && s.log[i].token == t;
      assert s'.log[i] == s.log[i];
    }
  }

  lemma StoreKeeps(s: System, e: Event, f: FamilyID, owner: UserID, t: Token, until: int) returns (s': System)
    requires DbInv(s) && Enabled(Abs(s), e)
    requires e == Create(f, owner, t, until) || (e.Rotate? && e.family == f && e.next == t && e.expiry == until && s.db.families[f].owner == owner)
    ensures s' == s.(db := StoreToken(s.db, f, owner, t, until), log := s.log + [e], generated := s.generated + {t})
    ensures DbInv(s') && Evolves(s, s') && Abs(s').familyOf == Abs(s).familyOf[t := f]
  {
    s' := s.(db := StoreToken(s.db, f, owner, t, until), log := s.log + [e], generated := s.generated + {t});
    Extend(s.log, e);
    LegalWellFormed(s.log);
    StepKeeps(Abs(s), e);
    assert Abs(s') == Next(Abs(s), e);
    assert s'.db.families == Abs(s').live && t !in Abs(s).familyOf;
    assert Abs(s').familyOf == Abs(s).familyOf[t := f];
    StoreKeepsKeys(s.db, Abs(s).familyOf, s.expired, f, owner, t, until);
    StoreVersioned(s.db, f, owner, t, until);
    hide Replay, Legal, Next, Enabled, KeysOk, Versioned;
  }

  lemma RevokeKeeps(s: System, p: Client)
    requires DbInv(s) && p.RevokeExec? && ClientOk(s, p)
    ensures DbInv(CommitRevoke(s, p)) && Evolves(s, CommitRevoke(s, p))
    ensures Abs(CommitRevoke(s, p)).familyOf == Abs(s).familyOf
  {
    var s' := CommitRevoke(s, p);
    Extend(s.log, Revoke({p.family}));
    assert Abs(s') == Next(Abs(s), Revoke({p.family}));
    RevokeKeepsKeys(s.db, Abs(s).familyOf, s.expired, p.family, p.owner, p.hashes);
    hide Replay, Legal, KeysOk, Versioned, RevokeFamily;
  }

  lemma ExpiryKeepsKeys(s: System, a: Action)
    requires KeysOk(s.db, Abs(s).familyOf, s.expired)
    requires a.ExpireToken? || a.ExpireFamily? || a.ExpireFamilyTokens? || a.ExpireUserFamilies?
    ensures KeysOk(Step(s, a).db, Abs(s).familyOf, Step(s, a).expired) && Versioned(s.db, Step(s, a).db)
    ensures Step(s, a).db.families == if a.ExpireFamily? then s.db.families - {a.family} else s.db.families
  {
    hide Replay, KeysOk, Versioned;
    match a {
      case ExpireFamily(f) => FamilyExpires(s.db, Abs(s).familyOf, s.expired, f);
      case ExpireToken(t) => KeysShrink(s.db, Step(s, a).db, Abs(s).familyOf, s.expired, s.expired + {t});
      case ExpireFamilyTokens(_) => KeysShrink(s.db, Step(s, a).db, Abs(s).familyOf, s.expired, s.expired);
      case ExpireUserFamilies(_) => KeysShrink(s.db, Step(s, a).db, Abs(s).familyOf, s.expired, s.expired);
      case _ =>
    }
  }

  lemma FamilyExpires(db: Db, familyOf: map<Token, FamilyID>, expired: set<Token>, f: FamilyID)
    requires KeysOk(db, familyOf, expired)
    ensures KeysOk(DeleteFamily(db, f), familyOf, expired) && Versioned(db, DeleteFamily(db, f))
    ensures DeleteFamily(db, f).families == db.families - {f}
  {
    DeleteVersioned(db, f);
    hide Versioned;
  }

  lemma KeysShrink(db: Db, db': Db, familyOf: map<Token, FamilyID>, expired: set<Token>, expired': set<Token>)
    requires KeysOk(db, familyOf, expired) && db'.families == db.families && db'.version == db.version
    requires forall t :: t in db'.tokenKey ==> t in db.tokenKey && db'.tokenKey[t] == db.tokenKey[t]
    requires forall t :: t in db.tokenKey || t in expired ==> t in db'.tokenKey || t in expired'
    requires forall f :: f in db'.familyTokens ==> f in db.familyTokens && db'.familyTokens[f] == db.familyTokens[f]
    ensures KeysOk(db', familyOf, expired') && Versioned(db, db')
  {
  }

  lemma ExpireKeeps(s: System, a: Action)
    requires DbInv(s)
    requires a.ExpireToken? || a.ExpireFamily? || a.ExpireFamilyTokens? || a.ExpireUserFamilies?
    ensures DbInv(Step(s, a)) && Evolves(s, Step(s, a)) && Abs(Step(s, a)).familyOf == Abs(s).familyOf
  {
    var s' := Step(s, a);
    ExpiryKeepsKeys(s, a);
    assert s'.generated == s.generated && s.log <= s'.log;
    if a.ExpireFamily? && a.family in s.db.families {
      Extend(s.log, Revoke({a.family}));
      assert s'.log == s.log + [Revoke({a.family})];
      hide Step, Replay, Legal, KeysOk, Versioned;
    } else {
      assert s'.log == s.log && s'.db.families == s.db.families;
      hide Step, Replay, Legal, KeysOk, Versioned;
    }
  }

  /** Put one client's new counter into a state whose shared part has evolved. */
  lemma Assemble(s: System, s': System, c: ClientID, p: Client)
    requires Inv(s) && DbInv(s') && Evolves(s, s') && s'.clients == s.clients[c := p]
    requires ClientOk(s', p) && Own(p) <= s'.generated
    requires Own(p) <= (if c in s.clients then Own(s.clients[c]) else {}) + (s'.generated - s.generated)
    requires forall t :: t in Abs(s').familyOf && t !in Abs(s).familyOf ==> c in s.clients && Own(s.clients[c]) == {t}
    ensures Inv(s')
  {
    hide Replay, Legal, DbInv;
    forall d | d in s.clients && d != c ensures ClientOk(s', s.clients[d]) {
      assert s.clients[d].RotateExec? ==> s.clients[d].next !in Abs(s').familyOf;
      hide ClientOk, Evolves;
      ClientStable(s, s', s.clients[d]);
    }
  }

  lemma CommitRotateKeeps(s: System, c: ClientID, p: Client, q: Client)
    requires Inv(s) && c in s.clients && s.clients[c] == p && p.RotateExec? && p.version == Version(s.db, p.family)
    requires q == Finished(Rotated(p.token, p.owner, p.next)) || q == Finished(Aborted)
    ensures Inv(CommitRotate(s, p).(clients := s.clients[c := q])) && Evolves(s, CommitRotate(s, p).(clients := s.clients[c := q]))
  {
    var e := Rotate(p.family, p.token, p.next, p.until);
    var s1 := StoreKeeps(s, e, p.family, p.owner, p.next, p.until);
    var s' := s1.(clients := s.clients[c := q]);
    assert s1.generated == s.generated;
    assert s'.log[|s.log|] == e;
    hide Replay, KeysOk, Versioned;
    Assemble(s, s', c, q);
  }

  lemma CommitRevokeKeeps(s: System, c: ClientID, p: Client, q: Client)
    requires Inv(s) && c in s.clients && s.clients[c] == p && p.RevokeExec?
    requires ClientOk(s, q) && Own(q) == {} && !q.RotateExec?
    ensures Inv(CommitRevoke(s, p).(clients := s.clients[c := q])) && Evolves(s, CommitRevoke(s, p).(clients := s.clients[c := q]))
  {
    RevokeKeeps(s, p);
    var s' := CommitRevoke(s, p).(clients := s.clients[c := q]);
    hide Replay, KeysOk, Versioned, RevokeFamily;
    ClientStable(s, s', q);
    Assemble(s, s', c, q);
  }

  /** A step that changes no token, family or family-token key and moves one client to `q`. */
  lemma MoveKeeps(s: System, s': System, c: ClientID, q: Client)
    requires Inv(s) && s'.log == s.log && s'.expired == s.expired && s'.clients == s.clients[c := q]
    requires s.generated <= s'.generated
    requires s'.db == s.db.(userFamilies := s'.db.userFamilies)
    requires ClientOk(s', q) && Own(q) <= s'.generated - s.generated
    ensures Inv(s') && Evolves(s, s')
  {
    assert Versioned(s.db, s'.db) by {
      assert forall f :: Version(s.db, f) == Version(s'.db, f) && FamilyAt(s.db, f) == FamilyAt(s'.db, f);
    }
    assert Abs(s) == Abs(s');
    hide Replay, Legal, Versioned;
    Assemble(s, s', c, q);
  }

  lemma ReturnOk(s: System, f: FamilyID, k: Caller)
    requires CallerOk(s, f, k)
    ensures ClientOk(s, Return(k)) && Own(Return(k)) == {} && !Return(k).RotateExec?
  {
  }

  /** A read of a token's live family that is not current shows a consumed token. */
  lemma DecideOk(s: System, p: Client, next: Token)
    requires DbInv(s) && p.RotateRead? && ClientOk(s, p) && next !in s.generated
    ensures Decide(s.db, p, next).RotateExec? || (ClientOk(s, Decide(s.db, p, next)) && Own(Decide(s.db, p, next)) == {})
  {
    var q := Decide(s.db, p, next);
    if p.family in s.db.families && s.db.families[p.family].current != p.token {
      var i := NotCurrentMeansConsumed(s.log, p.token);
      assert Consumed(s.log, p.token);
    }
  }

  lemma RotateKeeps(s: System, a: Action)
    requires Inv(s) && Can(s, a) && a.Command?
    requires s.clients[a.client].RotateRead? || s.clients[a.client].RotateExec?
    ensures Inv(Step(s, a)) && Evolves(s, Step(s, a))
  {
    var c := a.client;
    var p := s.clients[c];
    var q := Succeed(s, p, a).1;
    assert ClientOk(s, p);
    if p.RotateRead? {
      var s' := Step(s, a);
      assert s'.log == s.log && s'.db == s.db && s'.expired == s.expired && s'.clients == s.clients[c := q];
      assert s'.generated == if q.RotateExec? then s.generated + {a.next} else s.generated;
      DecidedOk(s, s', p, q, a.next);
      hide *;
      MoveKeeps(s, s', c, q);
    } else if p.version == Version(s.db, p.family) {
      hide *;
      CommitRotateKeeps(s, c, p, q);
    } else {
      hide *;
      MoveKeeps(s, s.(clients := s.clients[c := q]), c, q);
    }
  }

  lemma DecidedOk(s: System, s': System, p: Client, q: Client, next: Token)
    requires DbInv(s) && p.RotateRead? && ClientOk(s, p) && next !in s.generated && q == Decide(s.db, p, next)
    requires s'.log == s.log && s'.db == s.db && s'.generated == if q.RotateExec? then s.generated + {next} else s.generated
    ensures ClientOk(s', q) && Own(q) <= s'.generated - s.generated
  {
    DecideOk(s, p, next);
    assert Abs(s') == Abs(s);
    hide Replay, Legal, KeysOk;
  }

  lemma RevokeStepKeeps(s: System, a: Action)
    requires Inv(s) && Can(s, a) && a.Command? && s.clients[a.client].RevokeExec?
    ensures Inv(Step(s, a)) && Evolves(s, Step(s, a))
  {
    var p := s.clients[a.client];
    assert ClientOk(s, p);
    ReturnOk(s, p.family, p.caller);
    CommitRevokeKeeps(s, a.client, p, Return(p.caller));
    hide Inv, Evolves;
  }

  lemma ReadKeeps(s: System, a: Action)
    requires Inv(s) && Can(s, a) && a.Command?
    requires !s.clients[a.client].RotateRead? && !s.clients[a.client].RotateExec? && !s.clients[a.client].RevokeExec?
    ensures Inv(Step(s, a)) && Evolves(s, Step(s, a))
  {
    var p := s.clients[a.client];
    var q := Succeed(s, p, a).1;
    assert DbInv(s) && ClientOk(s, p);
    var s' := Step(s, a);
    assert s'.log == s.log && s'.expired == s.expired && s'.generated == s.generated && s'.clients == s.clients[a.client := q];
    assert s'.db == s.db.(userFamilies := s'.db.userFamilies);
    ReadOk(s, p, a);
    hide *;
    SameView(s, s', q);
    MoveKeeps(s, s', a.client, q);
  }

  lemma ReadOk(s: System, p: Client, a: Action)
    requires DbInv(s) && ClientOk(s, p) && a.Command? && !p.Finished?
    requires !p.RotateRead? && !p.RotateExec? && !p.RevokeExec?
    ensures var q := Succeed(s, p, a).1; ClientOk(s, q) && Own(q) == {}
  {
    hide Replay, Legal, Return, Consumed, FamilyAt;
    match p {
      case UserMembers(u) => ReturnOk(s, "", ForUser(u, a.order));
      case _ =>
    }
  }

  /** What a client knows does not depend on the users' indices. */
  lemma SameView(s: System, s': System, q: Client)
    requires s'.log == s.log && s'.generated == s.generated && s'.db == s.db.(userFamilies := s'.db.userFamilies)
    requires ClientOk(s, q)
    ensures ClientOk(s', q)
  {
    assert Abs(s') == Abs(s);
    hide Replay;
  }

  lemma FaultKeeps(s: System, a: Action)
    requires Inv(s) && Can(s, a) && a.Fault?
    ensures Inv(Step(s, a)) && Evolves(s, Step(s, a))
  {
    var c := a.client;
    var p := s.clients[c];
    var q := Break(s, p, a.applied).1;
    assert ClientOk(s, p);
    if p.RevokeRead? || p.RevokeMembers? || p.RevokeExec? {
      ReturnOk(s, p.family, CallerOf(p));
    }
    var s' := Step(s, a);
    if a.applied && p.RotateExec? && p.version == Version(s.db, p.family) {
      hide Inv, Evolves, DbInv, ClientOk;
      CommitRotateKeeps(s, c, p, q);
    } else if a.applied && p.RevokeExec? {
      hide Inv, Evolves, DbInv, ClientOk;
      CommitRevokeKeeps(s, c, p, q);
    } else {
      assert s'.log == s.log && s'.db == s.db.(userFamilies := s'.db.userFamilies);
      hide Inv, Evolves, DbInv, CommitRotate, CommitRevoke;
      MoveKeeps(s, s', c, q);
    }
  }

  lemma NewKeeps(s: System, a: Action)
    requires Inv(s) && Can(s, a) && a.New?
    ensures Inv(Step(s, a)) && Evolves(s, Step(s, a))
  {
    assert forall c :: c in s.clients ==> ClientOk(s, s.clients[c]) && Own(s.clients[c]) <= s.generated;
    var s' := StoreKeeps(s, Create(a.family, a.owner, a.token, a.until), a.family, a.owner, a.token, a.until);
    hide Replay, Legal, DbInv, Versioned;
    forall d | d in s.clients ensures ClientOk(s', s.clients[d]) {
      assert s.clients[d].RotateExec? ==> s.clients[d].next in s.generated;
      ClientStable(s, s', s.clients[d]);
    }
  }

  lemma ExpiryKeeps(s: System, a: Action)
    requires Inv(s) && !a.New? && !a.Call? && !a.Command? && !a.Fault?
    ensures Inv(Step(s, a)) && Evolves(s, Step(s, a))
  {
    ExpireKeeps(s, a);
    var s' := Step(s, a);
    hide Replay, Legal, DbInv, Versioned;
    forall d | d in s.clients ensures ClientOk(s', s.clients[d]) {
      ClientStable(s, s', s.clients[d]);
    }
  }

  lemma StepInv(s: System, a: Action)
    requires Inv(s) && Can(s, a)
    ensures Inv(Step(s, a)) && Evolves(s, Step(s, a))
  {
    hide Inv, Evolves;
    match a {
      case New(_, _, _, _) => NewKeeps(s, a);
      case Call(c, start) => MoveKeeps(s, Step(s, a), c, start);
      case Command(c, _, _) =>
        var p := s.clients[c];
        if p.RotateRead? || p.RotateExec? {
          RotateKeeps(s, a);
        } else if p.RevokeExec? {
          RevokeStepKeeps(s, a);
        } else {
          ReadKeeps(s, a);
        }
      case Fault(_, _) => FaultKeeps(s, a);
      case _ => ExpiryKeeps(s, a);
    }
  }

  // ---------------------------------------------------------------------- runs and safety

  ghost predicate CanRun(s: System, run: seq<Action>)
    decreases |run|, 0
  {
    run == [] || (CanRun(s, run[..|run| - 1]) && Can(Run(s, run[..|run| - 1]), run[|run| - 1]))
  }

  ghost function Run(s: System, run: seq<Action>): System
    requires CanRun(s, run)
    decreases |run|, 1
  {
    if run == [] then s else Step(Run(s, run[..|run| - 1]), run[|run| - 1])
  }

  lemma {:induction false} RunKeeps(s: System, run: seq<Action>)
    requires Inv(s) && CanRun(s, run)
    ensures Inv(Run(s, run)) && s.log <= Run(s, run).log
  {
    if run != [] {
      RunKeeps(s, run[..|run| - 1]);
      StepInv(Run(s, run[..|run| - 1]), run[|run| - 1]);
    }
  }

  /** Refinement: whatever the interleaving, faults and expiries, the changes committed so far
      are a legal run of the family machine, and the family keys are exactly its live families. */
  lemma RefinesFamilies(run: seq<Action>)
    requires CanRun(INIT, run)
    ensures Legal(Run(INIT, run).log)
    ensures Run(INIT, run).db.families == Replay(Run(INIT, run).log).live
  {
    RunKeeps(INIT, run);
  }

  predicate Consumes(e: Event, t: Token) { e.Rotate? && e.token == t }

  predicate WasTold(p: Client, t: Token) { p.Finished? && p.result.Rotated? && p.result.token == t }

  /** No token is consumed by two committed EXECs, and no two clients are told they rotated it. */
  lemma ConsumedByOneExec(run: seq<Action>, t: Token)
    requires CanRun(INIT, run)
    ensures var log := Run(INIT, run).log;
      forall i, j :: 0 <= i < |log| && 0 <= j < |log| && Consumes(log[i], t) && Consumes(log[j], t) ==> i == j
    ensures var ps := Run(INIT, run).clients;
      forall c, d :: c in ps && d in ps && WasTold(ps[c], t) && WasTold(ps[d], t) ==> c == d
  {
    RunKeeps(INIT, run);
    var s := Run(INIT, run);
    hide Run, CanRun;
    forall i, j | 0 <= i < |s.log| && 0 <= j < |s.log| && Consumes(s.log[i], t) && Consumes(s.log[j], t) ensures i == j {
      ConsumedOnce(s.log, i, j);
    }
    forall c, d | c in s.clients && d in s.clients && WasTold(s.clients[c], t) && WasTold(s.clients[d], t) ensures c == d {
      hide WasTold;
      OneWinner(s, c, d, t);
    }
  }

  lemma OneWinner(s: System, c: ClientID, d: ClientID, t: Token)
    requires Inv(s) && c in s.clients && d in s.clients && WasTold(s.clients[c], t) && WasTold(s.clients[d], t)
    ensures c == d
  {
    assert ClientOk(s, s.clients[c]) && ClientOk(s, s.clients[d]);
    var i :| 0 <= i < |s.log| && Consumes(s.log[i], t) && s.log[i].next == s.clients[c].result.next;
    var j :| 0 <= j < |s.log| && Consumes(s.log[j], t) && s.log[j].next == s.clients[d].result.next;
    assert Consumes(s.log[i], t) && Consumes(s.log[j], t);
    ConsumedOnce(s.log, i, j);
  }

  /** A family whose key is gone never gets one again, however many rotations are in flight. */
  lemma DeletedForever(s: System, f: FamilyID, run: seq<Action>)
    requires Inv(s) && CanRun(s, run) && Dead(Abs(s), f)
    ensures f !in Run(s, run).db.families && Dead(Abs(Run(s, run)), f)
  {
    RunKeeps(s, run);
    var log := Run(s, run).log;
    Monotone(log, |s.log|, |log|);
    assert log[..|s.log|] == s.log && log[..|log|] == log;
  }

  /** A call on a token of a dead family: it can only be on its way to ErrInvalidRefreshToken,
      unless a fault aborts it. */
  predicate Doomed(p: Client, t: Token, f: FamilyID) {
    var k := ForRotate(t, InvalidRefreshToken);
    match p
    case RotateGet(t', _) => t' == t
    case RotateWatch(t', _, g) => t' == t && g == f
    case RotateRead(t', _, g, _) => t' == t && g == f
    case RevokeRead(_, k') => k' == k
    case RevokeMembers(_, _, k') => k' == k
    case RevokeExec(_, _, _, k') => k' == k
    case Finished(r) => r == Failed(t, InvalidRefreshToken) || r == Aborted
    case _ => false
  }

  lemma {:induction false} LeftoverTokenIsInvalid(s: System, c: ClientID, t: Token, f: FamilyID, run: seq<Action>)
    requires Inv(s) && CanRun(s, run) && IssuedIn(s, t, f) && Dead(Abs(s), f)
    requires c in s.clients && s.clients[c].RotateGet? && s.clients[c].token == t
    requires forall i :: 0 <= i < |run| ==> !(run[i].Call? && run[i].client == c)
    ensures c in Run(s, run).clients && Doomed(Run(s, run).clients[c], t, f)
  {
    if run != [] {
      var init, a := run[..|run| - 1], run[|run| - 1];
      LeftoverTokenIsInvalid(s, c, t, f, init);
      DeletedForever(s, f, init);
      RunKeeps(s, init);
      var s1 := Run(s, init);
      assert Can(s1, a) && Run(s, run) == Step(s1, a);
      hide *;
      StillDoomed(s, s1, a, c, t, f);
    }
  }

  lemma OthersStay(s: System, a: Action, c: ClientID)
    requires Can(s, a) && c in s.clients && !((a.Call? || a.Command? || a.Fault?) && a.client == c)
    ensures c in Step(s, a).clients && Step(s, a).clients[c] == s.clients[c]
  {
    hide Replay, Decide, Return, StoreToken, RevokeFamily, CallerOf;
  }

  lemma StillDoomed(s: System, s1: System, a: Action, c: ClientID, t: Token, f: FamilyID)
    requires Inv(s1) && s.log <= s1.log && IssuedIn(s, t, f) && Dead(Abs(s1), f) && f !in s1.db.families && Can(s1, a)
    requires c in s1.clients && Doomed(s1.clients[c], t, f) && !(a.Call? && a.client == c)
    ensures c in Step(s1, a).clients && Doomed(Step(s1, a).clients[c], t, f)
  {
    var log := s1.log;
    assert DbInv(s1);
    Monotone(log, |s.log|, |log|);
    assert log[..|s.log|] == s.log && log[..|log|] == log;
    assert IssuedIn(s1, t, f);
    hide Replay, Inv, DbInv, Doomed, Legal, Dead;
    if (a.Command? || a.Fault?) && a.client == c {
      DoomedStep(s1, a, c, t, f);
    } else {
      hide Abs;
      OthersStay(s1, a, c);
    }
  }

  lemma DoomedStep(s: System, a: Action, c: ClientID, t: Token, f: FamilyID)
    requires DbInv(s) && Can(s, a) && (a.Command? || a.Fault?) && a.client == c
    requires IssuedIn(s, t, f) && f !in s.db.families && Doomed(s.clients[c], t, f)
    ensures Doomed(Step(s, a).clients[c], t, f)
  {
  }

  // ------------------------------------------------------------------------- refused calls

  /** `t` is the current token of a live family of a named user. */
  predicate Current(s: System, t: Token) {
    t in Abs(s).familyOf && Abs(s).familyOf[t] in Abs(s).live
    && Abs(s).live[Abs(s).familyOf[t]].current == t && t != "" && Abs(s).live[Abs(s).familyOf[t]].owner != ""
  }

  predicate Refusing(p: Client, t: Token, e: Error) {
    CallerOf(p) == ForRotate(t, e) || p == Finished(Failed(t, e))
  }

  /** A rotation is refused only at an instant at which its token is not current (or its own key
      has expired); the callback of Watch refuses exactly then, and it reports a replay exactly
      for a live family with another current token. */
  lemma RefusalIsJustified(s: System, a: Action)
    requires Inv(s) && Can(s, a) && a.Command?
    requires s.clients[a.client].RotateGet? || s.clients[a.client].RotateRead?
    ensures var (p, q) := (s.clients[a.client], Step(s, a).clients[a.client]); var t := p.token;
      && (p.RotateGet? && (exists e :: Refusing(q, t, e)) ==> !Current(s, t) || t in s.expired)
      && (p.RotateRead? ==> ((exists e :: Refusing(q, t, e)) <==> !Current(s, t)))
      && (p.RotateRead? ==> (Refusing(q, t, RefreshTokenReplay) <==>
            p.family in s.db.families && s.db.families[p.family].owner != ""
            && s.db.families[p.family].current != "" && s.db.families[p.family].current != t))
  {
    var p, q := s.clients[a.client], Step(s, a).clients[a.client];
    assert ClientOk(s, p);
    hide Replay;
    if p.RotateRead? && !q.RotateExec? {
      assert Refusing(q, p.token, InvalidRefreshToken) || Refusing(q, p.token, RefreshTokenReplay);
    }
  }

  /** The client runs its next `n` commands undisturbed. */
  ghost predicate CanAlone(s: System, c: ClientID, next: Token, n: nat)
    decreases n
  {
    n == 0 || (Can(s, Command(c, next, [])) && CanAlone(Step(s, Command(c, next, [])), c, next, n - 1))
  }

  ghost function Alone(s: System, c: ClientID, next: Token, n: nat): System
    requires CanAlone(s, c, next, n)
    decreases n
  {
    if n == 0 then s else Alone(Step(s, Command(c, next, [])), c, next, n - 1)
  }

  function ToOutcome(r: Result): M.Outcome {
    match r
    case Rotated(_, u, n) => M.Rotated(u, n)
    case Failed(_, RefreshTokenReplay) => M.RefreshTokenReplay
    case Failed(_, InvalidRefreshToken) => M.InvalidRefreshToken
    case _ => M.Done
  }

  lemma OneMore(s: System, c: ClientID, next: Token, n: nat, end: System)
    requires Can(s, Command(c, next, [])) && CanAlone(Step(s, Command(c, next, [])), c, next, n)
    requires Alone(Step(s, Command(c, next, [])), c, next, n) == end
    ensures CanAlone(s, c, next, n + 1) && Alone(s, c, next, n + 1) == end
  {
  }

  /** revokeFamily, undisturbed, up to its return to RotateToken. */
  lemma AloneRevokes(s: System, c: ClientID, next: Token) returns (n: nat, end: System)
    requires c in s.clients && (s.clients[c].RevokeRead? || s.clients[c].RevokeMembers?) && s.clients[c].caller.ForRotate?
    ensures n <= 3 && CanAlone(s, c, next, n) && Alone(s, c, next, n) == end
    ensures var k := s.clients[c].caller; end.clients == s.clients[c := Finished(Failed(k.token, k.error))]
    ensures end.log == s.log + [Revoke({s.clients[c].family})]
  {
    var a := Command(c, next, []);
    if s.clients[c].RevokeRead? {
      var m;
      assert Step(s, a).clients[c := Finished(Failed(s.clients[c].caller.token, s.clients[c].caller.error))]
          == s.clients[c := Finished(Failed(s.clients[c].caller.token, s.clients[c].caller.error))];
      m, end := AloneRevokesMembers(Step(s, a), c, next);
      n := m + 1;
      OneMore(s, c, next, m, end);
    } else {
      n, end := AloneRevokesMembers(s, c, next);
    }
  }

  lemma AloneRevokesMembers(s: System, c: ClientID, next: Token) returns (n: nat, end: System)
    requires c in s.clients && s.clients[c].RevokeMembers? && s.clients[c].caller.ForRotate?
    ensures n == 2 && CanAlone(s, c, next, n) && Alone(s, c, next, n) == end
    ensures var k := s.clients[c].caller; end.clients == s.clients[c := Finished(Failed(k.token, k.error))]
    ensures end.log == s.log + [Revoke({s.clients[c].family})]
  {
    var a := Command(c, next, []);
    var s1 := Step(s, a);
    end := Step(s1, a);
    n := 2;
    OneMore(s1, c, next, 0, end);
    OneMore(s, c, next, 1, end);
  }

  /** The first three commands: GET, WATCH, HGETALL. */
  function ReadAlone(s: System, c: ClientID, next: Token): System
    requires c in s.clients && s.clients[c].RotateGet? && s.clients[c].token in s.db.tokenKey
  {
    var p := s.clients[c];
    var f := s.db.tokenKey[p.token];
    var q := Decide(s.db, RotateRead(p.token, p.until, f, Version(s.db, f)), next);
    s.(clients := s.clients[c := q], generated := if q.RotateExec? then s.generated + {next} else s.generated)
  }

  /** The client's next command, when it is one that reads. */
  lemma CommandIs(s: System, c: ClientID, next: Token, s': System)
    requires c in s.clients && (s.clients[c].RotateGet? || s.clients[c].RotateWatch? || s.clients[c].RotateRead?)
    requires next !in s.generated && c in s'.clients
    requires var a := Command(c, next, []); var (t, q) := Succeed(s, s.clients[c], a);
      s'.clients[c] == q && s' == t.(clients := s'.clients) && forall d :: d != c ==> (d in s'.clients <==> d in s.clients) && (d in s.clients ==> s'.clients[d] == s.clients[d])
    ensures Can(s, Command(c, next, [])) && Step(s, Command(c, next, [])) == s'
  {
    hide Decide, Succeed;
    assert s'.clients == s.clients[c := s'.clients[c]];
  }

  lemma ReadsAlone(s: System, c: ClientID, next: Token, m: nat, end: System)
    requires c in s.clients && s.clients[c].RotateGet? && s.clients[c].token in s.db.tokenKey && next !in s.generated
    requires CanAlone(ReadAlone(s, c, next), c, next, m) && Alone(ReadAlone(s, c, next), c, next, m) == end
    ensures CanAlone(s, c, next, m + 3) && Alone(s, c, next, m + 3) == end
  {
    var p := s.clients[c];
    var f := s.db.tokenKey[p.token];
    var s1 := s.(clients := s.clients[c := RotateWatch(p.token, p.until, f)]);
    var s2 := s.(clients := s.clients[c := RotateRead(p.token, p.until, f, Version(s.db, f))]);
    var s3 := ReadAlone(s, c, next);
    hide Decide, CanAlone, Alone;
    CommandIs(s, c, next, s1);
    CommandIs(s1, c, next, s2);
    CommandIs(s2, c, next, s3);
    hide *;
    OneMore(s2, c, next, m, end);
    OneMore(s1, c, next, m + 1, end);
    OneMore(s, c, next, m + 2, end);
  }

  lemma AloneRotates(s: System, c: ClientID, next: Token) returns (n: nat, end: System)
    requires c in s.clients && s.clients[c].RotateGet? && s.clients[c].token in s.db.tokenKey && next !in s.generated
    requires ReadAlone(s, c, next).clients[c].RotateExec?
    ensures n == 4 && CanAlone(s, c, next, n) && Alone(s, c, next, n) == end
    ensures var q := ReadAlone(s, c, next).clients[c];
      end.clients == s.clients[c := Finished(Rotated(q.token, q.owner, next))]
      && end.log == s.log + [Rotate(q.family, q.token, next, q.until)]
  {
    ReadToExec(s, c, next);
    hide *;
    var s3 := ReadAlone(s, c, next);
    end := ExecAlone(s3, c, next);
    n := 4;
    ReadsAlone(s, c, next, 1, end);
    var q := s3.clients[c];
    Overwrite(s.clients, c, q, Finished(Rotated(q.token, q.owner, next)));
  }

  lemma Overwrite(clients: map<ClientID, Client>, c: ClientID, p: Client, q: Client)
    ensures clients[c := p][c := q] == clients[c := q]
  {
  }

  lemma ReadToExec(s: System, c: ClientID, next: Token)
    requires c in s.clients && s.clients[c].RotateGet? && s.clients[c].token in s.db.tokenKey
    requires ReadAlone(s, c, next).clients[c].RotateExec?
    ensures var s3 := ReadAlone(s, c, next); var q := s3.clients[c];
      && q.version == Version(s3.db, q.family) && q.token == s.clients[c].token && q.next == next
      && s3.log == s.log && s3.clients == s.clients[c := q]
  {
  }

  lemma ExecAlone(s: System, c: ClientID, next: Token) returns (end: System)
    requires c in s.clients && s.clients[c].RotateExec? && s.clients[c].version == Version(s.db, s.clients[c].family)
    ensures CanAlone(s, c, next, 1) && Alone(s, c, next, 1) == end
    ensures var q := s.clients[c];
      end.clients == s.clients[c := Finished(Rotated(q.token, q.owner, q.next))]
      && end.log == s.log + [Rotate(q.family, q.token, q.next, q.until)]
  {
    hide StoreToken;
    end := Step(s, Command(c, next, []));
    OneMore(s, c, next, 0, end);
  }

  lemma AloneRefuses(s: System, c: ClientID, next: Token) returns (n: nat, end: System)
    requires c in s.clients && s.clients[c].RotateGet? && s.clients[c].token in s.db.tokenKey && next !in s.generated
    requires !ReadAlone(s, c, next).clients[c].RotateExec?
    ensures n <= 6 && CanAlone(s, c, next, n) && Alone(s, c, next, n) == end
    ensures var q := ReadAlone(s, c, next).clients[c];
      CallerOf(q).ForRotate?
      && end.clients == s.clients[c := Finished(Failed(CallerOf(q).token, CallerOf(q).error))]
      && end.log == s.log + [Revoke({s.db.tokenKey[s.clients[c].token]})]
  {
    var m;
    var s3 := ReadAlone(s, c, next);
    var q := s3.clients[c];
    ReadToRevoke(s, c, next);
    hide *;
    m, end := AloneRevokes(s3, c, next);
    n := m + 3;
    ReadsAlone(s, c, next, m, end);
    Overwrite(s.clients, c, q, Finished(Failed(q.caller.token, q.caller.error)));
  }

  lemma ReadToRevoke(s: System, c: ClientID, next: Token)
    requires c in s.clients && s.clients[c].RotateGet? && s.clients[c].token in s.db.tokenKey
    requires !ReadAlone(s, c, next).clients[c].RotateExec?
    ensures var s3 := ReadAlone(s, c, next); var q := s3.clients[c];
      && (q.RevokeRead? || q.RevokeMembers?) && q.caller.ForRotate? && CallerOf(q) == q.caller
      && q.family == s.db.tokenKey[s.clients[c].token]
      && s3.log == s.log && s3.clients == s.clients[c := q]
  {
  }

  /** In state `end` the client has the in-memory store's answer, and the families are as that leaves them. */
  ghost predicate AsInMemory(s: System, c: ClientID, next: Token, now: int, end: System)
    requires c in s.clients && s.clients[c].RotateGet?
  {
    var op := M.Rotation(s.clients[c].token, now, s.clients[c].until - now, Options.Some(next));
    c in end.clients && end.clients[c].Finished? && ToOutcome(end.clients[c].result) == M.Effect(Abs(s), op).1
    && Abs(end) == M.Apply(Abs(s), op)
  }

  /** Redis has expired every family whose time is up, and nobody has stored empty fields. */
  predicate UpToDate(db: Db, now: int) {
    forall f :: f in db.families ==> db.families[f].owner != "" && db.families[f].current != "" && db.families[f].expiry >= now
  }

  lemma UnknownAsInMemory(s: System, c: ClientID, next: Token, now: int) returns (end: System)
    requires DbInv(s) && c in s.clients && s.clients[c].RotateGet?
    requires s.clients[c].token !in s.expired && s.clients[c].token !in s.db.tokenKey
    ensures CanAlone(s, c, next, 1) && Alone(s, c, next, 1) == end && AsInMemory(s, c, next, now, end)
  {
    end := Step(s, Command(c, next, []));
    OneMore(s, c, next, 0, end);
    hide CanAlone, Alone, Replay, Legal;
    assert end.log == s.log;
  }

  lemma RotatedAsInMemory(s: System, c: ClientID, next: Token, now: int) returns (n: nat, end: System)
    requires DbInv(s) && c in s.clients && s.clients[c].RotateGet? && next !in s.generated && UpToDate(s.db, now)
    requires s.clients[c].token in s.db.tokenKey && ReadAlone(s, c, next).clients[c].RotateExec?
    ensures n <= 6 && CanAlone(s, c, next, n) && Alone(s, c, next, n) == end && AsInMemory(s, c, next, now, end)
  {
    var p := s.clients[c];
    MemoryDecides(s, p.token, now, p.until, next);
    ReadToExec(s, c, next);
    var q := ReadAlone(s, c, next).clients[c];
    assert q == Decide(s.db, RotateRead(p.token, p.until, s.db.tokenKey[p.token], Version(s.db, s.db.tokenKey[p.token])), next);
    hide CanAlone, Alone, DbInv, Decide, Replay, ReadAlone, UpToDate, AsInMemory;
    n, end := AloneRotates(s, c, next);
    FinishedAsInMemory(s, c, next, now, end, Rotate(q.family, p.token, next, p.until), Rotated(p.token, q.owner, next));
  }

  lemma FinishedAsInMemory(s: System, c: ClientID, next: Token, now: int, end: System, e: Event, r: Result)
    requires c in s.clients && s.clients[c].RotateGet?
    requires end.clients == s.clients[c := Finished(r)] && end.log == s.log + [e]
    requires var op := M.Rotation(s.clients[c].token, now, s.clients[c].until - now, Options.Some(next));
      M.Apply(Abs(s), op) == Next(Abs(s), e) && M.Effect(Abs(s), op).1 == ToOutcome(r)
    ensures AsInMemory(s, c, next, now, end)
  {
    LogEffect(s, end, e);
    hide Abs;
  }

  lemma RefusedAsInMemory(s: System, c: ClientID, next: Token, now: int) returns (n: nat, end: System)
    requires DbInv(s) && c in s.clients && s.clients[c].RotateGet? && next !in s.generated && UpToDate(s.db, now)
    requires s.clients[c].token in s.db.tokenKey && !ReadAlone(s, c, next).clients[c].RotateExec?
    ensures n <= 6 && CanAlone(s, c, next, n) && Alone(s, c, next, n) == end && AsInMemory(s, c, next, now, end)
  {
    var p := s.clients[c];
    MemoryDecides(s, p.token, now, p.until, next);
    var q := ReadAlone(s, c, next).clients[c];
    assert q == Decide(s.db, RotateRead(p.token, p.until, s.db.tokenKey[p.token], Version(s.db, s.db.tokenKey[p.token])), next);
    hide CanAlone, Alone, DbInv, Decide, Replay, ReadAlone, UpToDate, AsInMemory;
    n, end := AloneRefuses(s, c, next);
    FinishedAsInMemory(s, c, next, now, end, Revoke({s.db.tokenKey[p.token]}), Failed(CallerOf(q).token, CallerOf(q).error));
  }

  /** Undisturbed, RotateToken takes at most six commands, and does to the families and tells its caller
      exactly what the in-memory store does at that time.  A family's stored expiry is the point in time
      that its time-to-live sets. */
  lemma AloneMatchesMemory(s: System, c: ClientID, next: Token, now: int) returns (n: nat, end: System)
    requires Inv(s) && c in s.clients && s.clients[c].RotateGet? && next !in s.generated
    requires s.clients[c].token !in s.expired && UpToDate(s.db, now)
    ensures n <= 6 && CanAlone(s, c, next, n) && Alone(s, c, next, n) == end && AsInMemory(s, c, next, now, end)
  {
    assert DbInv(s);
    hide *;
    if s.clients[c].token !in s.db.tokenKey {
      n := 1;
      end := UnknownAsInMemory(s, c, next, now);
    } else if ReadAlone(s, c, next).clients[c].RotateExec? {
      n, end := RotatedAsInMemory(s, c, next, now);
    } else {
      n, end := RefusedAsInMemory(s, c, next, now);
    }
  }

  /** What the callback of Watch decides is what the in-memory store does. */
  lemma MemoryDecides(s: System, t: Token, now: int, until: int, next: Token)
    requires DbInv(s) && t in s.db.tokenKey && UpToDate(s.db, now)
    ensures var f := s.db.tokenKey[t]; var q := Decide(s.db, RotateRead(t, until, f, Version(s.db, f)), next);
      var op := M.Rotation(t, now, until - now, Options.Some(next));
      if q.RotateExec? then
        q.family == f && q.token == t && q.until == until
        && M.Apply(Abs(s), op) == Next(Abs(s), Rotate(f, t, next, until)) && M.Effect(Abs(s), op).1 == M.Rotated(q.owner, next)
      else
        CallerOf(q).ForRotate? && CallerOf(q).token == t
        && M.Apply(Abs(s), op) == Next(Abs(s), Revoke({f})) && M.Effect(Abs(s), op).1 == ToOutcome(Failed(t, CallerOf(q).error))
  {
    var f := s.db.tokenKey[t];
    assert t in Abs(s).familyOf && Abs(s).familyOf[t] == f && s.db.families == Abs(s).live;
    hide Replay, Legal, KeysOk;
    assert f !in Abs(s).live ==> Abs(s).live - {f} == Abs(s).live;
  }

  lemma LogEffect(s: System, s': System, e: Event)
    requires s'.log == s.log + [e]
    ensures Abs(s') == Next(Abs(s), e)
  {
    assert (s.log + [e])[..|s.log|] == s.log;
  }

  // ---------------------------------------------------------------- revoking a user's tokens

  /** What a step does to the family keys and to the users' indices. */
  datatype Change = Stores(family: FamilyID, owner: UserID) | Revokes(family: FamilyID, owner: UserID) | Drops(owner: UserID) | Neither

  function ClientChange(s: System, p: Client): Change {
    match p
    case RotateExec(_, _, f, v, owner, _) => if v == Version(s.db, f) then Stores(f, owner) else Neither
    case RevokeExec(f, owner, _, _) => Revokes(f, owner)
    case UserDel(u) => Drops(u)
    case _ => Neither
  }

  function ChangeOf(s: System, a: Action): Change {
    match a
    case New(u, f, _, _) => Stores(f, u)
    case Command(c, _, _) => if c in s.clients then ClientChange(s, s.clients[c]) else Neither
    case Fault(c, applied) => if c in s.clients && applied then ClientChange(s, s.clients[c]) else Neither
    case ExpireFamily(f) => Revokes(f, "")
    case ExpireUserFamilies(u) => Drops(u)
    case _ => Neither
  }

  function IndexAfter(db: Db, d: Change, u: UserID): set<FamilyID> {
    var listed := Members(db.userFamilies, u);
    match d
    case Stores(f, owner) => if owner == u then listed + {f} else listed
    case Revokes(f, owner) => if owner == u && u != "" then listed - {f} else listed
    case Drops(v) => if v == u then {} else listed
    case Neither => listed
  }

  function OwnersAfter(db: Db, d: Change, f: FamilyID): set<UserID> {
    match d
    case Stores(g, owner) => if g == f then {owner} else Owners(db, f)
    case Revokes(g, _) => if g == f then {} else Owners(db, f)
    case _ => Owners(db, f)
  }

  /** A live family's owner, as a set of at most one element. */
  function Owners(db: Db, f: FamilyID): set<UserID> {
    if f in db.families then {db.families[f].owner} else {}
  }

  lemma StoreChanges(db: Db, f: FamilyID, owner: UserID, t: Token, until: int)
    ensures var db' := StoreToken(db, f, owner, t, until);
      && (forall u :: Members(db'.userFamilies, u) == IndexAfter(db, Stores(f, owner), u))
      && (forall g :: Owners(db', g) == OwnersAfter(db, Stores(f, owner), g))
  {
  }

  lemma RevokeChanges(db: Db, f: FamilyID, owner: UserID, hashes: set<Token>)
    ensures var db' := RevokeFamily(db, f, owner, hashes);
      && (forall u :: Members(db'.userFamilies, u) == IndexAfter(db, Revokes(f, owner), u))
      && (forall g :: Owners(db', g) == OwnersAfter(db, Revokes(f, owner), g))
  {
    hide Touch;
  }

  lemma ClientChanges(s: System, p: Client, s': System)
    requires s'.db == (
      if p.RotateExec? && p.version == Version(s.db, p.family) then CommitRotate(s, p).db
      else if p.RevokeExec? then CommitRevoke(s, p).db
      else if p.UserDel? then s.db.(userFamilies := s.db.userFamilies - {p.owner})
      else s.db)
    ensures forall u :: Members(s'.db.userFamilies, u) == IndexAfter(s.db, ClientChange(s, p), u)
    ensures forall f :: Owners(s'.db, f) == OwnersAfter(s.db, ClientChange(s, p), f)
  {
    if p.RotateExec? {
      StoreChanges(s.db, p.family, p.owner, p.next, p.until);
    } else if p.RevokeExec? {
      RevokeChanges(s.db, p.family, p.owner, p.hashes);
    }
    hide StoreToken, RevokeFamily;
  }

  /** Every step's effect is the change it is said to make. */
  lemma StepChanges(s: System, a: Action)
    requires Can(s, a)
    ensures forall u :: Members(Step(s, a).db.userFamilies, u) == IndexAfter(s.db, ChangeOf(s, a), u)
    ensures forall f :: Owners(Step(s, a).db, f) == OwnersAfter(s.db, ChangeOf(s, a), f)
  {
    hide StoreToken, RevokeFamily, Replay, Decide, Return, CallerOf;
    match a {
      case New(u, f, t, until) => StoreChanges(s.db, f, u, t, until);
      case Command(c, _, _) => ClientChanges(s, s.clients[c], Step(s, a));
      case Fault(c, applied) => ClientChanges(s, if applied then s.clients[c] else Idle, Step(s, a));
      case _ =>
    }
    hide ClientChange;
  }

  /** A user's index lists only families that were created, and a live one only under its owner. */
  ghost predicate IndexOk(s: System) {
    forall u, f :: f in Members(s.db.userFamilies, u) ==> f in Abs(s).familyOf.Values && Owners(s.db, f) <= {u}
  }

  lemma IssuedStays(s: System, s': System, f: FamilyID)
    requires Evolves(s, s') && f in Abs(s).familyOf.Values
    ensures f in Abs(s').familyOf.Values
  {
    hide Replay, Versioned;
    var t :| t in Abs(s).familyOf && Abs(s).familyOf[t] == f;
    assert Abs(s').familyOf[t] == f;
  }

  /** A stored family is new, or it is live with that owner. */
  lemma StoredFamily(s: System, a: Action)
    requires Inv(s) && Can(s, a) && ChangeOf(s, a).Stores?
    ensures var d := ChangeOf(s, a);
      && d.family in Abs(Step(s, a)).familyOf.Values
      && (Owners(s.db, d.family) == {d.owner} || d.family !in Abs(s).familyOf.Values)
  {
    var d, s' := ChangeOf(s, a), Step(s, a);
    StepInv(s, a);
    if a.New? {
      LogEffect(s, s', Create(a.family, a.owner, a.token, a.until));
      hide Replay, Inv, Evolves;
      assert Abs(s').familyOf[a.token] == a.family;
    } else {
      var p := s.clients[a.client];
      assert p.RotateExec? && ClientOk(s, p);
      hide Inv, Step, Replay;
      assert Abs(s).familyOf[p.token] == d.family;
      IssuedStays(s, s', d.family);
    }
  }

  lemma IndexKept(s: System, a: Action)
    requires Inv(s) && IndexOk(s) && Can(s, a)
    ensures IndexOk(Step(s, a))
  {
    hide Step, ChangeOf, Inv, Replay, Evolves, Can, Owners, Members;
    var d, s' := ChangeOf(s, a), Step(s, a);
    StepInv(s, a);
    StepChanges(s, a);
    if d.Stores? {
      StoredFamily(s, a);
    }
    forall u, f | f in Members(s'.db.userFamilies, u) ensures f in Abs(s').familyOf.Values && Owners(s'.db, f) <= {u} {
      assert f in IndexAfter(s.db, d, u);
      if f in Members(s.db.userFamilies, u) {
        IssuedStays(s, s', f);
      }
    }
  }

  lemma {:induction false} RunKeepsIndex(run: seq<Action>)
    requires CanRun(INIT, run)
    ensures IndexOk(Run(INIT, run))
  {
    if run != [] {
      RunKeepsIndex(run[..|run| - 1]);
      RunKeeps(INIT, run[..|run| - 1]);
      hide IndexOk, Inv, Step, Can;
      IndexKept(Run(INIT, run[..|run| - 1]), run[|run| - 1]);
    }
  }

  /** A family key whose owner's index does not list it: revoking the owner's tokens would miss it. */
  predicate Unlisted(s: System, f: FamilyID) {
    f in s.db.families && f !in Members(s.db.userFamilies, s.db.families[f].owner)
  }

  /** A live family becomes unlisted exactly when its owner's index is dropped as a whole, by the expiry
      of that key or by the last command of a revocation, and it is listed again by its next rotation. */
  lemma UnlistedIff(s: System, a: Action, f: FamilyID)
    requires Can(s, a)
    ensures Unlisted(Step(s, a), f) <==>
      match ChangeOf(s, a)
      case Stores(g, _) => g != f && Unlisted(s, f)
      case Revokes(g, _) => g != f && Unlisted(s, f)
      case Drops(u) => Unlisted(s, f) || Owners(s.db, f) == {u}
      case Neither => Unlisted(s, f)
  {
    var s', d := Step(s, a), ChangeOf(s, a);
    StepChanges(s, a);
    hide Step, ChangeOf, Members, Can;
    assert Owners(s'.db, f) == OwnersAfter(s.db, d, f);
    if f in s'.db.families {
      var u := s'.db.families[f].owner;
      assert Members(s'.db.userFamilies, u) == IndexAfter(s.db, d, u) && u in Owners(s'.db, f);
    }
  }

  /** The families that a revocation has dealt with: all up to the current one. */
  ghost predicate Swept(s: System, order: seq<FamilyID>, n: nat) {
    forall i :: 0 <= i < n && i < |order| ==> Dead(Abs(s), order[i])
  }

  ghost predicate At(s: System, f: FamilyID, k: Caller, u: UserID, order: seq<FamilyID>) {
    && k.ForUser? && k.owner == u && |k.rest| < |order|
    && (var n := |order| - |k.rest| - 1; order[n] == f && k.rest == order[n + 1..] && Swept(s, order, n))
  }

  /** Where a revocation of the user's families `order` can be. */
  ghost predicate Sweeping(s: System, p: Client, u: UserID, order: seq<FamilyID>) {
    match p
    case RevokeRead(f, k) => At(s, f, k, u, order)
    case RevokeMembers(f, _, k) => At(s, f, k, u, order)
    case RevokeExec(f, _, _, k) => At(s, f, k, u, order)
    case UserDel(v) => v == u && Swept(s, order, |order|)
    case Finished(r) => r.Done? && Swept(s, order, |order|)
    case _ => false
  }

  /** What is dead stays dead. */
  lemma DeadStays(s: System, a: Action, f: FamilyID)
    requires Inv(s) && Can(s, a) && Dead(Abs(s), f)
    ensures Dead(Abs(Step(s, a)), f)
  {
    StepInv(s, a);
    var log := Step(s, a).log;
    hide Step, Replay, Can;
    Monotone(log, |s.log|, |log|);
    assert log[..|s.log|] == s.log && log[..|log|] == log;
  }

  lemma SweptStays(s: System, a: Action, order: seq<FamilyID>, n: nat)
    requires Inv(s) && Can(s, a) && Swept(s, order, n)
    ensures Swept(Step(s, a), order, n)
  {
    hide Step, Inv, Can, Dead, Abs;
    forall i | 0 <= i < n && i < |order| ensures Dead(Abs(Step(s, a)), order[i]) {
      DeadStays(s, a, order[i]);
    }
  }

  /** The revocation's next family, or its end. */
  lemma NextFamily(s: System, u: UserID, order: seq<FamilyID>, n: nat)
    requires n <= |order| && Swept(s, order, n)
    ensures Sweeping(s, Return(ForUser(u, order[n..])), u, order)
  {
    hide Swept;
    if n < |order| {
      assert order[n..][0] == order[n] && order[n..][1..] == order[n + 1..];
      assert |order[n + 1..]| == |order| - n - 1;
    }
  }

  lemma CommitKills(s: System, a: Action, f: FamilyID)
    requires Inv(s) && Can(s, a) && (a.Command? || (a.Fault? && a.applied))
    requires s.clients[a.client].RevokeExec? && s.clients[a.client].family == f && f in Abs(s).familyOf.Values
    ensures Dead(Abs(Step(s, a)), f)
  {
    LogEffect(s, Step(s, a), Revoke({f}));
    hide Replay, Inv;
  }

  /** The revoking client's own command. */
  lemma SweepOn(s: System, a: Action, u: UserID, order: seq<FamilyID>)
    requires Inv(s) && Can(s, a) && a.Command? && Sweeping(s, s.clients[a.client], u, order)
    requires forall f :: f in order ==> f in Abs(s).familyOf.Values
    ensures Sweeping(Step(s, a), Step(s, a).clients[a.client], u, order)
  {
    var p, s' := s.clients[a.client], Step(s, a);
    if p.RevokeExec? {
      var n := |order| - |p.caller.rest| - 1;
      CommitKills(s, a, order[n]);
      SweptStays(s, a, order, n);
      assert Swept(s', order, n + 1);
      assert s'.clients[a.client] == Return(ForUser(u, order[n + 1..]));
      hide Step, Inv, Can, Sweeping, Swept;
      NextFamily(s', u, order, n + 1);
    } else {
      SweptStays(s, a, order, if p.UserDel? then |order| else |order| - |CallerOf(p).rest| - 1);
      hide Inv, Swept;
    }
  }

  /** Anybody else's step. */
  lemma SweepWaits(s: System, a: Action, p: Client, u: UserID, order: seq<FamilyID>)
    requires Inv(s) && Can(s, a) && Sweeping(s, p, u, order)
    ensures Sweeping(Step(s, a), p, u, order)
  {
    if CallerOf(p).ForUser? {
      SweptStays(s, a, order, |order| - |CallerOf(p).rest| - 1);
    } else {
      SweptStays(s, a, order, |order|);
    }
    hide Step, Inv, Can, Swept;
  }

  lemma IssuedLater(s: System, s': System, f: FamilyID)
    requires Legal(s'.log) && s.log <= s'.log && f in Abs(s).familyOf.Values
    ensures f in Abs(s').familyOf.Values
  {
    Monotone(s'.log, |s.log|, |s'.log|);
    assert s'.log[..|s.log|] == s.log && s'.log[..|s'.log|] == s'.log;
    hide Replay, Legal;
    var t :| t in Abs(s).familyOf && Abs(s).familyOf[t] == f;
    assert Abs(s').familyOf[t] == f;
  }

  /** No client is faulted or called anew. */
  predicate Undisturbed(run: seq<Action>, c: ClientID) {
    forall i :: 0 <= i < |run| ==> !((run[i].Call? || run[i].Fault?) && run[i].client == c)
  }

  lemma {:induction false} SweepRuns(s: System, c: ClientID, u: UserID, order: seq<FamilyID>, run: seq<Action>)
    requires Inv(s) && CanRun(s, run) && Undisturbed(run, c)
    requires c in s.clients && Sweeping(s, s.clients[c], u, order) && forall f :: f in order ==> f in Abs(s).familyOf.Values
    ensures c in Run(s, run).clients && Sweeping(Run(s, run), Run(s, run).clients[c], u, order)
  {
    if run != [] {
      var init, b := run[..|run| - 1], run[|run| - 1];
      SweepRuns(s, c, u, order, init);
      RunKeeps(s, init);
      var s2 := Run(s, init);
      assert Can(s2, b) && Run(s, run) == Step(s2, b) && Legal(s2.log);
      hide Run, CanRun, Inv, Sweeping, Abs, Can, Step, Legal;
      forall f | f in order ensures f in Abs(s2).familyOf.Values {
        IssuedLater(s, s2, f);
      }
      if b.Command? && b.client == c {
        ItsCommand(s2, b);
        SweepOn(s2, b, u, order);
      } else {
        SweepWaits(s2, b, s2.clients[c], u, order);
        OthersStay(s2, b, c);
      }
    }
  }

  lemma ItsCommand(s: System, a: Action)
    requires Can(s, a) && a.Command?
    ensures a.client in s.clients && a.client in Step(s, a).clients
  {
  }

  lemma SweepStarts(s: System, c: ClientID, u: UserID, a: Action)
    requires Inv(s) && IndexOk(s) && Can(s, a) && a.Command? && a.client == c && s.clients[c] == UserMembers(u)
    ensures var s1 := Step(s, a);
      && c in s1.clients && Sweeping(s1, s1.clients[c], u, a.order) && s1.log == s.log
      && (forall f :: f in Members(s.db.userFamilies, u) <==> f in a.order)
      && (forall f :: f in a.order ==> f in Abs(s1).familyOf.Values)
  {
    var s1 := Step(s, a);
    assert a.order[0..] == a.order && s1.clients[c] == Return(ForUser(u, a.order));
    hide Inv, Replay, Sweeping, Return;
    NextFamily(s1, u, a.order, 0);
  }

  /** RevokeUserRefreshTokens: when a call returns whose commands all succeeded, every family that was
      listed at its SMEMBERS is dead for good, whatever other clients and expiries did meanwhile. */
  lemma UserRevocationIsComplete(s: System, c: ClientID, u: UserID, a: Action, run: seq<Action>)
    requires Inv(s) && IndexOk(s) && Can(s, a) && a.Command? && a.client == c && s.clients[c] == UserMembers(u)
    requires CanRun(Step(s, a), run) && Undisturbed(run, c)
    ensures var s' := Run(Step(s, a), run);
      && c in s'.clients && (s'.clients[c].Finished? ==> s'.clients[c].result.Done?)
      && (s'.clients[c].Finished? ==> forall f :: f in Members(s.db.userFamilies, u) ==> Dead(Abs(s'), f) && f !in s'.db.families)
  {
    var s1 := Step(s, a);
    StepInv(s, a);
    SweepStarts(s, c, u, a);
    RunKeeps(s1, run);
    hide Step, Can, Members, Run, CanRun, Replay;
    SweepRuns(s1, c, u, a.order, run);
  }
}
