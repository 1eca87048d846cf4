/**
 What the answers of the Redis store's revoking calls mean for the families, over interleaved runs with
 faults and expiries: a reported replay, a deleted token, and the revocation of a user's tokens.
 */
module RedisRevocations {
  import opened Families
  import opened RedisRefreshTokens

  /** The run is possible in `s` and ends in `end`. */
  ghost predicate Leads(s: System, run: seq<Action>, end: System) {
    CanRun(s, run) && Run(s, run) == end
  }

  ghost predicate Takes(s: System, a: Action, s': System) {
    Can(s, a) && Step(s, a) == s'
  }

  lemma Then(s: System, run: seq<Action>, s1: System, a: Action, s2: System)
    requires Leads(s, run, s1) && Takes(s1, a, s2)
    ensures Leads(s, run + [a], s2)
  {
    assert (run + [a])[..|run|] == run;
  }

  lemma Steps3(s: System, s1: System, s2: System, s3: System, a: Action, b: Action, c: Action)
    requires Takes(s, a, s1) && Takes(s1, b, s2) && Takes(s2, c, s3)
    ensures Leads(s, [a, b, c], s3)
  {
    assert Leads(s, [], s);
    assert [] + [a] == [a] && [a] + [b] == [a, b] && [a, b] + [c] == [a, b, c];
    hide Leads, Takes;
    Then(s, [], s, a, s1);
    Then(s, [a], s1, b, s2);
    Then(s, [a, b], s2, c, s3);
  }

  predicate Unfaulted(run: seq<Action>, c: ClientID) {
    forall i :: 0 <= i < |run| ==> !(run[i].Fault? && run[i].client == c)
  }

  predicate Uncalled(run: seq<Action>, c: ClientID) {
    forall i :: 0 <= i < |run| ==> !(run[i].Call? && run[i].client == c)
  }

  /** The token's family is dead. */
  predicate Revoked(s: System, t: Token) {
    t in Abs(s).familyOf && Dead(Abs(s), Abs(s).familyOf[t])
  }

  lemma IssuedStaysIn(s: System, a: Action, t: Token, f: FamilyID)
    requires Inv(s) && Can(s, a) && IssuedIn(s, t, f)
    ensures IssuedIn(Step(s, a), t, f)
  {
    StepInv(s, a);
    hide Step, Inv, Can, Abs;
  }

  lemma RevokedStays(s: System, a: Action, t: Token)
    requires Inv(s) && Can(s, a) && Revoked(s, t)
    ensures Revoked(Step(s, a), t)
  {
    hide Step, Inv, Can, Abs, Dead;
    DeadStays(s, a, Abs(s).familyOf[t]);
    IssuedStaysIn(s, a, t, Abs(s).familyOf[t]);
  }

  // -------------------------------------------------------------------------- revokeFamily

  /** The client takes no step. */
  predicate Waits(run: seq<Action>, c: ClientID) {
    forall i :: 0 <= i < |run| ==> !((run[i].Call? || run[i].Command? || run[i].Fault?) && run[i].client == c)
  }

  lemma {:induction false} WaitingStays(s: System, run: seq<Action>, c: ClientID)
    requires CanRun(s, run) && Waits(run, c) && c in s.clients
    ensures c in Run(s, run).clients && Run(s, run).clients[c] == s.clients[c]
  {
    if run != [] {
      var init := run[..|run| - 1];
      WaitingStays(s, init, c);
      hide Step, Can;
      OthersStay(Run(s, init), run[|run| - 1], c);
    }
  }

  /** The step applies revokeFamily's pipeline, whether or not its reply arrives. */
  ghost predicate Commits(s: System, a: Action)
    requires Can(s, a) && (a.Command? || a.Fault?)
  {
    s.clients[a.client].RevokeExec? && (a.Fault? ==> a.applied)
  }

  lemma CommitDeletes(s: System, a: Action)
    requires Can(s, a) && (a.Command? || a.Fault?) && Commits(s, a)
    ensures Step(s, a).db == RevokeFamily(s.db, s.clients[a.client].family, s.clients[a.client].owner, s.clients[a.client].hashes)
  {
  }

  /** revokeFamily, from its SMEMBERS (`a`) to its pipeline (`b`) with anything of others in between: the
      family is dead for good, its token set and its entry in the owner's index are gone, and of its tokens' keys exactly
      those survive that SMEMBERS did not list. */
  lemma RevocationIsFinal(s: System, a: Action, others: seq<Action>, b: Action, run: seq<Action>, t: Token)
    requires Inv(s) && Can(s, a) && a.Command? && s.clients[a.client].RevokeMembers?
    requires CanRun(Step(s, a), others) && Waits(others, a.client)
    requires var s1 := Run(Step(s, a), others);
      Can(s1, b) && (b.Command? || b.Fault?) && b.client == a.client && Commits(s1, b) && CanRun(Step(s1, b), run)
    requires IssuedIn(Run(Step(s, a), others), t, s.clients[a.client].family)
    ensures var f := s.clients[a.client].family;
      var s1 := Run(Step(s, a), others);
      var s2 := Step(s1, b);
      && Dead(Abs(s2), f) && f !in Run(s2, run).db.families
      && (t in s2.db.tokenKey <==> t in s1.db.tokenKey && t !in Members(s.db.familyTokens, f))
      && f !in s2.db.familyTokens && (s.clients[a.client].owner != "" ==> f !in Members(s2.db.userFamilies, s.clients[a.client].owner))
  {
    var c := a.client;
    var f := s.clients[c].family;
    var s0 := Step(s, a);
    assert s0.clients[c] == RevokeExec(f, s.clients[c].owner, Members(s.db.familyTokens, f), s.clients[c].caller);
    StepInv(s, a);
    RunKeeps(s0, others);
    WaitingStays(s0, others, c);
    var s1 := Run(s0, others);
    assert f in Abs(s1).familyOf.Values;
    hide Step, Inv, Can, Run, CanRun, Abs, Dead;
    CommitDeletes(s1, b);
    PipelineDeletes(s1.db, f, s.clients[c].owner, Members(s.db.familyTokens, f), t);
    StepInv(s1, b);
    CommitKills(s1, b, f);
    DeletedForever(Step(s1, b), f, run);
    hide RevokeFamily, Members;
  }

  lemma PipelineDeletes(db: Db, f: FamilyID, owner: UserID, hashes: set<Token>, t: Token)
    ensures var after := RevokeFamily(db, f, owner, hashes);
      && (t in after.tokenKey <==> t in db.tokenKey && t !in hashes) && f !in after.familyTokens
      && (owner != "" ==> f !in Members(after.userFamilies, owner))
  {
    hide Touch;
  }

  // ------------------------------------------------------------------- the second HGETALL

  /** The family has been created, and can have no other owner than this. */
  ghost predicate Belongs(s: System, f: FamilyID, u: UserID) {
    f in Abs(s).familyOf.Values && Owners(s.db, f) <= {u}
  }

  ghost predicate RestBelongs(s: System, k: Caller) {
    k.ForUser? ==> forall i :: 0 <= i < |k.rest| ==> Belongs(s, k.rest[i], k.owner)
  }

  /** revokeFamily reads the owner itself only for a family without one. */
  ghost predicate Ownerless(s: System, p: Client) {
    match p
    case DeleteRead(f) => f in Abs(s).familyOf.Values
    case RevokeRead(f, k) => Belongs(s, f, "") && RestBelongs(s, k)
    case RevokeMembers(_, _, k) => RestBelongs(s, k)
    case RevokeExec(_, _, _, k) => RestBelongs(s, k)
    case _ => true
  }

  lemma BelongsStays(s: System, a: Action, f: FamilyID, u: UserID)
    requires Inv(s) && Can(s, a) && Belongs(s, f, u)
    ensures Belongs(Step(s, a), f, u)
  {
    StepInv(s, a);
    hide Step, Inv, Can, Owners, Replay, Evolves;
    IssuedStays(s, Step(s, a), f);
    StepChanges(s, a);
    if ChangeOf(s, a).Stores? {
      StoredFamily(s, a);
    }
    hide ChangeOf;
    assert Owners(Step(s, a).db, f) == OwnersAfter(s.db, ChangeOf(s, a), f);
  }

  lemma OwnerlessStays(s: System, a: Action, p: Client)
    requires Inv(s) && Can(s, a) && Ownerless(s, p)
    ensures Ownerless(Step(s, a), p)
  {
    hide Step, Inv, Can, Belongs;
    if p.RevokeRead? {
      BelongsStays(s, a, p.family, "");
    }
    if p.DeleteRead? {
      StepInv(s, a);
      hide Evolves, Abs;
      IssuedStays(s, Step(s, a), p.family);
    }
    var k := CallerOf(p);
    if k.ForUser? {
      forall i | 0 <= i < |k.rest| ensures Belongs(Step(s, a), k.rest[i], k.owner) {
        BelongsStays(s, a, k.rest[i], k.owner);
      }
    }
  }

  /** The counter that a client moves to, seen in the state before. */
  lemma OwnerlessMoves(s: System, a: Action)
    requires Inv(s) && IndexOk(s) && Can(s, a) && (a.Command? || a.Fault?) && Ownerless(s, s.clients[a.client])
    ensures Ownerless(s, Step(s, a).clients[a.client])
  {
    var p := s.clients[a.client];
    assert ClientOk(s, p) && DbInv(s);
    hide Inv;
    if a.Fault? {
      FaultOwnerless(s, p, a.applied);
    } else if p.UserMembers? {
      IndexBelongs(s, p.owner, a.order);
      hide IndexOk, Ownerless;
      ReturnOwnerless(s, ForUser(p.owner, a.order));
    } else if p.RevokeExec? {
      assert RestBelongs(s, p.caller);
      hide IndexOk, Ownerless, ClientOk, CommitRevoke, Return;
      ReturnOwnerless(s, p.caller);
    } else {
      hide IndexOk, Can;
      CommandOwnerless(s, p, a);
    }
  }

  lemma FaultOwnerless(s: System, p: Client, applied: bool)
    ensures Ownerless(s, Break(s, p, applied).1)
  {
    hide CommitRotate, CommitRevoke;
  }

  lemma CommandOwnerless(s: System, p: Client, a: Action)
    requires DbInv(s) && ClientOk(s, p) && Ownerless(s, p) && a.Command? && !p.UserMembers? && !p.RevokeExec? && !p.Finished?
    ensures Ownerless(s, Succeed(s, p, a).1)
  {
    if p.RotateRead? {
      DecideOwnerless(s, p, a.next);
      hide Decide, Ownerless;
    } else {
      hide Replay, Legal, CommitRotate, Version, Decide, Return;
    }
  }

  lemma DecideOwnerless(s: System, p: Client, next: Token)
    requires p.RotateRead? && ClientOk(s, p)
    ensures Ownerless(s, Decide(s.db, p, next))
  {
    assert p.family in Abs(s).familyOf.Values;
    hide Abs, Version;
  }

  lemma IndexBelongs(s: System, u: UserID, order: seq<FamilyID>)
    requires IndexOk(s) && forall f :: f in order <==> f in Members(s.db.userFamilies, u)
    ensures RestBelongs(s, ForUser(u, order))
  {
    hide Owners, Abs;
    forall i | 0 <= i < |order| ensures Belongs(s, order[i], u) {
      assert order[i] in order;
    }
  }

  lemma ReturnOwnerless(s: System, k: Caller)
    requires RestBelongs(s, k)
    ensures Ownerless(s, Return(k))
  {
    hide Belongs;
    if k.ForUser? && k.rest != [] {
      forall i | 0 <= i < |k.rest[1..]| ensures Belongs(s, k.rest[1..][i], k.owner) {
        assert k.rest[1..][i] == k.rest[i + 1];
      }
    }
  }

  ghost predicate AllOwnerless(s: System) {
    forall c :: c in s.clients ==> Ownerless(s, s.clients[c])
  }

  lemma AllOwnerlessKept(s: System, a: Action)
    requires Inv(s) && IndexOk(s) && AllOwnerless(s) && Can(s, a)
    ensures AllOwnerless(Step(s, a))
  {
    var s' := Step(s, a);
    forall c | c in s'.clients ensures Ownerless(s', s'.clients[c]) {
      if (a.Command? || a.Fault?) && a.client == c {
        hide Ownerless, Inv, IndexOk;
        OwnerlessMoves(s, a);
        OwnerlessStays(s, a, s'.clients[c]);
      } else if !(a.Call? && a.client == c) {
        hide Ownerless, Inv, IndexOk;
        NewClients(s, a, c);
        OwnerlessStays(s, a, s.clients[c]);
      }
    }
  }

  /** A branch that looks live is not: whenever revokeFamily reads the family key for want of an owner, the key is gone or
      has none either. */
  lemma {:induction false} SecondReadFindsNoOwner(run: seq<Action>)
    requires CanRun(INIT, run)
    ensures AllOwnerless(Run(INIT, run))
    ensures var s := Run(INIT, run); forall c :: c in s.clients && s.clients[c].RevokeRead? ==> OwnerOf(s.db, s.clients[c].family) == ""
  {
    if run != [] {
      var init := run[..|run| - 1];
      SecondReadFindsNoOwner(init);
      RunKeeps(INIT, init);
      RunKeepsIndex(init);
      hide Inv, IndexOk, AllOwnerless, Step, Can;
      AllOwnerlessKept(Run(INIT, init), run[|run| - 1]);
    }
    NoOwner(Run(INIT, run));
  }

  lemma NoOwner(s: System)
    requires AllOwnerless(s)
    ensures forall c :: c in s.clients && s.clients[c].RevokeRead? ==> OwnerOf(s.db, s.clients[c].family) == ""
  {
    forall c | c in s.clients && s.clients[c].RevokeRead? ensures OwnerOf(s.db, s.clients[c].family) == "" {
      assert Ownerless(s, s.clients[c]);
      hide Abs;
    }
  }

  // ----------------------------------------------------------------------- reported replays

  /** The client was told that `t` had been used before. */
  predicate ToldReplay(s: System, c: ClientID, t: Token) {
    c in s.clients && s.clients[c] == Finished(Failed(t, RefreshTokenReplay))
  }

  /** RotateToken drops the error of its revokeFamily: the step that reports a replay leaves the family
      dead exactly if it applies the call's pipeline, or the family was dead before. */
  lemma ReplayRevokesIff(s: System, a: Action, t: Token)
    requires Inv(s) && Can(s, a) && (a.Command? || a.Fault?)
    requires !ToldReplay(s, a.client, t) && ToldReplay(Step(s, a), a.client, t)
    ensures Revoked(Step(s, a), t) <==> Revoked(s, t) || Commits(s, a)
    ensures a.Command? ==> Commits(s, a)
  {
    var p := s.clients[a.client];
    assert ClientOk(s, p);
    TellsReplay(s, a, t);
    if Commits(s, a) {
      assert IssuedIn(s, t, p.family);
      hide Inv, Step, Can, Abs, Dead;
      CommitKills(s, a, p.family);
      IssuedStaysIn(s, a, t, p.family);
    } else {
      hide Inv, Step, Can, Replay, Dead;
    }
  }

  /** Such a step is one of revokeFamily's, on behalf of the call. */
  lemma TellsReplay(s: System, a: Action, t: Token)
    requires Can(s, a) && (a.Command? || a.Fault?)
    requires !ToldReplay(s, a.client, t) && ToldReplay(Step(s, a), a.client, t)
    ensures CallerOf(s.clients[a.client]) == ForRotate(t, RefreshTokenReplay)
    ensures a.Command? ==> Commits(s, a)
    ensures !Commits(s, a) ==> Step(s, a).log == s.log
  {
    hide CommitRotate, StoreToken, RevokeFamily, Version;
  }

  lemma ReplayStep(s: System, a: Action, c: ClientID, t: Token)
    requires Inv(s) && Can(s, a) && !(a.Fault? && a.client == c)
    requires ToldReplay(s, c, t) ==> Revoked(s, t)
    ensures ToldReplay(Step(s, a), c, t) ==> Revoked(Step(s, a), t)
  {
    if ToldReplay(s, c, t) {
      hide Step, Inv, Can, Revoked;
      RevokedStays(s, a, t);
    } else if (a.Command? || a.Call?) && a.client == c {
      hide Inv, Revoked;
      if a.Command? && ToldReplay(Step(s, a), c, t) {
        hide Step, Can;
        ReplayRevokesIff(s, a, t);
      }
    } else {
      hide Inv, Revoked;
      NewClients(s, a, c);
    }
  }

  lemma NewClients(s: System, a: Action, c: ClientID)
    requires Can(s, a) && !((a.Call? || a.Command? || a.Fault?) && a.client == c)
    ensures c in Step(s, a).clients <==> c in s.clients
    ensures c in s.clients ==> Step(s, a).clients[c] == s.clients[c]
  {
    hide Replay, Decide, Return, StoreToken, RevokeFamily, CallerOf;
  }

  /** A client none of whose commands failed is told of a replay only if the family is dead for good,
      whatever other clients, faults and expiries did meanwhile. */
  lemma {:induction false} ReplayMeansRevoked(s: System, c: ClientID, t: Token, run: seq<Action>)
    requires Inv(s) && CanRun(s, run) && Unfaulted(run, c) && !ToldReplay(s, c, t)
    ensures ToldReplay(Run(s, run), c, t) ==> Revoked(Run(s, run), t)
  {
    if run != [] {
      var init, a := run[..|run| - 1], run[|run| - 1];
      ReplayMeansRevoked(s, c, t, init);
      RunKeeps(s, init);
      assert Can(Run(s, init), a) && Run(s, run) == Step(Run(s, init), a);
      hide *;
      ReplayStep(Run(s, init), a, c, t);
    }
  }

  // ----------------------------------------------------------- a replay that revokes nothing

  function With(s: System, c: ClientID, p: Client): System {
    s.(clients := s.clients[c := p])
  }

  /** A read of one client moves its counter and nothing else. */
  lemma Reads(s: System, c: ClientID, p: Client, q: Client, next: Token)
    requires p.RotateGet? || p.RotateWatch? || p.RotateRead? || p.RevokeMembers? || p.DeleteGet? || p.DeleteRead?
    requires next !in s.generated && !q.RotateExec?
    requires Succeed(s, p, Command(c, next, [])).1 == q
    ensures Takes(With(s, c, p), Command(c, next, []), With(s, c, q))
  {
    assert With(s, c, p).clients[c := q] == With(s, c, q).clients;
  }

  /** The call's GET, WATCH and HGETALL, and then an error of its SMEMBERS. */
  function ReplayThenFault(c: ClientID, t: Token, until: int, next: Token): seq<Action> {
    [Call(c, RotateGet(t, until)), Command(c, next, []), Command(c, next, []), Command(c, next, []), Fault(c, false)]
  }

  lemma MembersFails(s: System, c: ClientID, f: FamilyID, owner: UserID, t: Token)
    ensures var s' := With(s, c, RevokeMembers(f, owner, ForRotate(t, RefreshTokenReplay)));
      Takes(s', Fault(c, false), With(s, c, Finished(Failed(t, RefreshTokenReplay))))
  {
    var p, q := RevokeMembers(f, owner, ForRotate(t, RefreshTokenReplay)), Finished(Failed(t, RefreshTokenReplay));
    assert With(s, c, p).clients[c := q] == With(s, c, q).clients;
  }

  /** The client's counter after its call, its GET and its WATCH. */
  function Reading(s: System, t: Token, until: int): Client
    requires t in s.db.tokenKey
  {
    RotateRead(t, until, s.db.tokenKey[t], Version(s.db, s.db.tokenKey[t]))
  }

  lemma CallReads(s: System, c: ClientID, t: Token, until: int, next: Token)
    requires t in s.db.tokenKey && next !in s.generated
    requires c !in s.clients || s.clients[c].Idle? || s.clients[c].Finished?
    ensures var a := Command(c, next, []); Leads(s, [Call(c, RotateGet(t, until)), a, a], With(s, c, Reading(s, t, until)))
  {
    var f := s.db.tokenKey[t];
    var s1, s2 := With(s, c, RotateGet(t, until)), With(s, c, RotateWatch(t, until, f));
    Reads(s, c, RotateGet(t, until), RotateWatch(t, until, f), next);
    Reads(s, c, RotateWatch(t, until, f), Reading(s, t, until), next);
    assert Takes(s, Call(c, RotateGet(t, until)), s1);
    hide Succeed, Takes, With, Reading, Leads;
    Steps3(s, s1, s2, With(s, c, Reading(s, t, until)), Call(c, RotateGet(t, until)), Command(c, next, []), Command(c, next, []));
  }

  /** With a fault that fails: whoever presents a consumed token of a live family can be told of the replay
      while nothing is revoked. */
  lemma ReplayCanSpareFamily(s: System, c: ClientID, t: Token, until: int, next: Token)
    requires t in s.db.tokenKey && s.db.tokenKey[t] in s.db.families && next !in s.generated
    requires var h := s.db.families[s.db.tokenKey[t]]; h.current != "" && h.owner != "" && h.current != t
    requires c !in s.clients || s.clients[c].Idle? || s.clients[c].Finished?
    ensures var run := ReplayThenFault(c, t, until, next);
      var s' := With(s, c, Finished(Failed(t, RefreshTokenReplay)));
      Leads(s, run, s') && ToldReplay(s', c, t) && s'.db == s.db
  {
    var f, a := s.db.tokenKey[t], Command(c, next, []);
    var owner := s.db.families[f].owner;
    var p, q, end := Reading(s, t, until), RevokeMembers(f, owner, ForRotate(t, RefreshTokenReplay)), Finished(Failed(t, RefreshTokenReplay));
    Reads(s, c, p, q, next);
    MembersFails(s, c, f, owner, t);
    assert With(s, c, end).db == s.db && With(s, c, end).clients[c] == end;
    var first := [Call(c, RotateGet(t, until)), a, a];
    assert first + [a] + [Fault(c, false)] == ReplayThenFault(c, t, until, next);
    hide Leads, Takes, With, Reading, Decide;
    CallReads(s, c, t, until, next);
    Then(s, first, With(s, c, p), a, With(s, c, q));
    Then(s, first + [a], With(s, c, q), Fault(c, false), With(s, c, end));
  }

  lemma {:induction false} LeadsOn(s: System, first: seq<Action>, s1: System, second: seq<Action>, s2: System)
    requires Leads(s, first, s1) && Leads(s1, second, s2)
    ensures Leads(s, first + second, s2)
  {
    if second == [] {
      assert first + second == first;
    } else {
      var init, a := second[..|second| - 1], second[|second| - 1];
      assert (first + init) + [a] == first + second;
      var s' := Run(s1, init);
      assert Leads(s1, init, s') && Takes(s', a, s2);
      hide Leads, Takes;
      LeadsOn(s, first, s1, init, s');
      Then(s, first + init, s', a, s2);
    }
  }

  /** The state after an undisturbed rotation of a current token. */
  function AfterRotation(s: System, c: ClientID, t: Token, until: int, next: Token): System
    requires t in s.db.tokenKey && s.db.tokenKey[t] in s.db.families
  {
    var f := s.db.tokenKey[t];
    var owner := s.db.families[f].owner;
    s.(db := StoreToken(s.db, f, owner, next, until), log := s.log + [Rotate(f, t, next, until)],
       generated := s.generated + {next}, clients := s.clients[c := Finished(Rotated(t, owner, next))])
  }

  lemma CallRotates(s: System, c: ClientID, t: Token, until: int, next: Token)
    requires t in s.db.tokenKey && s.db.tokenKey[t] in s.db.families && next !in s.generated
    requires var h := s.db.families[s.db.tokenKey[t]]; h.current == t && t != "" && h.owner != ""
    requires c !in s.clients || s.clients[c].Idle? || s.clients[c].Finished?
    ensures var a := Command(c, next, []);
      Leads(s, [Call(c, RotateGet(t, until)), a, a] + [a] + [a], AfterRotation(s, c, t, until, next))
  {
    var f, a := s.db.tokenKey[t], Command(c, next, []);
    var owner := s.db.families[f].owner;
    var first := [Call(c, RotateGet(t, until)), a, a];
    var p := RotateExec(t, until, f, Version(s.db, f), owner, next);
    var s1 := With(s, c, Reading(s, t, until));
    var s2 := With(s, c, p).(generated := s.generated + {next});
    var s3 := AfterRotation(s, c, t, until, next);
    assert s1.clients[c := p] == s2.clients && s2.clients[c := s3.clients[c]] == s3.clients;
    hide StoreToken, Replay;
    assert Takes(s1, a, s2) && Takes(s2, a, s3);
    hide *;
    CallReads(s, c, t, until, next);
    Then(s, first, s1, a, s2);
    Then(s, first + [a], s2, a, s3);
  }

  /** A login's first token "t" is rotated into "n". */
  lemma FirstRotation() returns (run: seq<Action>, s: System)
    ensures Leads(INIT, run, s) && "t" in s.db.tokenKey && s.db.tokenKey["t"] == "f"
    ensures s.db.families == map["f" := Family("u", "n", 5)] && "m" !in s.generated && 0 in s.clients && s.clients[0].Finished?
  {
    var c: ClientID, a := 0, Command(0, "n", []);
    var login, second := New("u", "f", "t", 5), [Call(c, RotateGet("t", 5)), a, a] + [a] + [a];
    var s1 := Step(INIT, login);
    s := AfterRotation(s1, c, "t", 5, "n");
    run := [] + [login] + second;
    assert Leads(INIT, [], INIT) && Takes(INIT, login, s1);
    hide Leads, Takes;
    Then(INIT, [], INIT, login, s1);
    CallRotates(s1, c, "t", 5, "n");
    LeadsOn(INIT, [] + [login], s1, second, s);
  }

  /** Such states are reachable: a caller is told of a replay of "t", and the family lives on. */
  lemma ReplayWithoutRevocation() returns (run: seq<Action>)
    ensures CanRun(INIT, run) && ToldReplay(Run(INIT, run), 0, "t") && !Revoked(Run(INIT, run), "t")
    ensures "f" in Run(INIT, run).db.families
  {
    var first, s := FirstRotation();
    var c: ClientID := 0;
    ReplayCanSpareFamily(s, c, "t", 5, "m");
    var s' := With(s, c, Finished(Failed("t", RefreshTokenReplay)));
    assert s'.db == s.db;
    run := first + ReplayThenFault(c, "t", 5, "m");
    LeadsOn(INIT, first, s, ReplayThenFault(c, "t", 5, "m"), s');
    RunKeeps(INIT, run);
    hide Replay, Legal;
    assert DbInv(s');
  }

  // ------------------------------------------------------------------------ deleted tokens

  /** Where a deletion of `t` can be once its GET found the token's key. */
  predicate Deleting(s: System, p: Client, t: Token) {
    match p
    case DeleteRead(f) => IssuedIn(s, t, f)
    case RevokeRead(f, k) => IssuedIn(s, t, f) && k == ForDelete
    case RevokeMembers(f, _, k) => IssuedIn(s, t, f) && k == ForDelete
    case RevokeExec(f, _, _, k) => IssuedIn(s, t, f) && k == ForDelete
    case Finished(r) => r == Aborted || (r == Done && Revoked(s, t))
    case _ => false
  }

  lemma DeletingWaits(s: System, a: Action, p: Client, t: Token)
    requires Inv(s) && Can(s, a) && Deleting(s, p, t)
    ensures Deleting(Step(s, a), p, t)
  {
    if Revoked(s, t) {
      RevokedStays(s, a, t);
    }
    if t in Abs(s).familyOf {
      IssuedStaysIn(s, a, t, Abs(s).familyOf[t]);
    }
    hide Step, Inv, Can, Revoked, Abs;
  }

  /** The deleting client's own command before the pipeline, or its own error. */
  lemma DeletingMoves(s: System, a: Action, t: Token, f: FamilyID)
    requires Can(s, a) && (a.Command? || a.Fault?) && Deleting(s, s.clients[a.client], t)
    requires s.clients[a.client].RevokeExec? ==> a.Fault?
    requires IssuedIn(s, t, f) && IssuedIn(Step(s, a), t, f)
    ensures var q := Step(s, a).clients[a.client];
      Deleting(Step(s, a), q, t) && (q == Finished(Aborted) ==> a.Fault?)
  {
    hide Abs, CommitRevoke, CommitRotate, Decide, Revoked, Version;
  }

  lemma DeletingCommits(s: System, a: Action, t: Token)
    requires Inv(s) && Can(s, a) && a.Command? && s.clients[a.client].RevokeExec? && Deleting(s, s.clients[a.client], t)
    ensures Step(s, a).clients[a.client] == Finished(Done) && Revoked(Step(s, a), t)
  {
    var f := s.clients[a.client].family;
    assert Step(s, a).clients[a.client] == Finished(Done);
    assert f in Abs(s).familyOf.Values;
    hide Inv, Step, Can, Abs, Dead;
    CommitKills(s, a, f);
    IssuedStaysIn(s, a, t, f);
  }

  lemma DeletingSteps(s: System, a: Action, t: Token)
    requires Inv(s) && Can(s, a) && (a.Command? || a.Fault?) && Deleting(s, s.clients[a.client], t)
    ensures var q := Step(s, a).clients[a.client];
      Deleting(Step(s, a), q, t) && (q == Finished(Aborted) ==> a.Fault?)
  {
    if s.clients[a.client].RevokeExec? && a.Command? {
      hide Inv, Step, Can, Revoked;
      DeletingCommits(s, a, t);
    } else {
      var f :| IssuedIn(s, t, f);
      hide Inv, Step, Can, Abs, Deleting;
      IssuedStaysIn(s, a, t, f);
      DeletingMoves(s, a, t, f);
    }
  }

  lemma {:induction false} DeletingRuns(s: System, c: ClientID, t: Token, run: seq<Action>)
    requires Inv(s) && CanRun(s, run) && Uncalled(run, c)
    requires c in s.clients && Deleting(s, s.clients[c], t) && s.clients[c] != Finished(Aborted)
    ensures var s' := Run(s, run); c in s'.clients && Deleting(s', s'.clients[c], t)
    ensures Unfaulted(run, c) ==> Run(s, run).clients[c] != Finished(Aborted)
  {
    if run != [] {
      var init, a := run[..|run| - 1], run[|run| - 1];
      DeletingRuns(s, c, t, init);
      RunKeeps(s, init);
      var s1 := Run(s, init);
      assert Can(s1, a) && Run(s, run) == Step(s1, a);
      assert Unfaulted(run, c) ==> Unfaulted(init, c) && !(a.Fault? && a.client == c);
      assert !(a.Call? && a.client == c);
      hide *;
      if (a.Command? || a.Fault?) && a.client == c {
        Busy(s1, a);
        DeletingSteps(s1, a, t);
      } else {
        DeletingWaits(s1, a, s1.clients[c], t);
        OthersStay(s1, a, c);
      }
    }
  }

  lemma Busy(s: System, a: Action)
    requires Can(s, a) && (a.Command? || a.Fault?)
    ensures a.client in s.clients && a.client in Step(s, a).clients && !s.clients[a.client].Finished?
  {
  }

  /** DeleteToken: a call that found the token's key and reports success has left the family dead for good,
      whatever other clients, faults and expiries did meanwhile, and only an error of one of its own commands
      makes it report anything else; a call that found no key succeeds at once and changes nothing. */
  lemma DeletionIsComplete(s: System, c: ClientID, t: Token, a: Action, run: seq<Action>)
    requires Inv(s) && Can(s, a) && a.Command? && a.client == c && s.clients[c] == DeleteGet(t)
    requires CanRun(Step(s, a), run) && Uncalled(run, c)
    ensures t in s.db.tokenKey ==>
      var s' := Run(Step(s, a), run);
      && c in s'.clients
      && (s'.clients[c].Finished? ==> (s'.clients[c].result == Done && Revoked(s', t)) || s'.clients[c].result == Aborted)
      && (s'.clients[c] == Finished(Aborted) ==> !Unfaulted(run, c))
    ensures t !in s.db.tokenKey ==> Step(s, a) == s.(clients := s.clients[c := Finished(Done)])
  {
    var s1 := Step(s, a);
    StepInv(s, a);
    if t in s.db.tokenKey {
      hide Replay;
      assert DbInv(s) && IssuedIn(s, t, s.db.tokenKey[t]) && s1.log == s.log;
      assert Deleting(s1, s1.clients[c], t);
      hide Step, Inv, Can;
      DeletingRuns(s1, c, t, run);
    }
  }

  // ------------------------------------------------------------ revoking a user's tokens

  /** The client's own command leaves alone a family that is not in its list. */
  lemma SweepSpares(s: System, a: Action, u: UserID, order: seq<FamilyID>, f: FamilyID)
    requires Can(s, a) && a.Command? && Sweeping(s, s.clients[a.client], u, order)
    requires f in s.db.families && f !in order
    ensures f in Step(s, a).db.families
  {
    StepChanges(s, a);
    assert Owners(Step(s, a).db, f) == OwnersAfter(s.db, ChangeOf(s, a), f);
    hide Step, Can, Swept;
  }

  /** Nobody but the client ends the family: no step of another client, and no expiry. */
  ghost predicate OthersSpare(s: System, run: seq<Action>, c: ClientID, f: FamilyID)
    requires CanRun(s, run)
    decreases |run|
  {
    run == [] ||
    (var init, a := run[..|run| - 1], run[|run| - 1];
      OthersSpare(s, init, c, f)
      && (f in Run(s, init).db.families && !(a.Command? && a.client == c) ==> f in Run(s, run).db.families))
  }

  lemma {:induction false} SweepPassesBy(s: System, c: ClientID, u: UserID, order: seq<FamilyID>, f: FamilyID, run: seq<Action>)
    requires Inv(s) && CanRun(s, run) && Undisturbed(run, c) && OthersSpare(s, run, c, f)
    requires c in s.clients && Sweeping(s, s.clients[c], u, order) && forall g :: g in order ==> g in Abs(s).familyOf.Values
    requires f in s.db.families && f !in order
    ensures f in Run(s, run).db.families
  {
    if run != [] {
      var init, a := run[..|run| - 1], run[|run| - 1];
      SweepPassesBy(s, c, u, order, f, init);
      hide Sweeping, Inv, Can, Step, Abs;
      SweepRuns(s, c, u, order, init);
      if a.Command? && a.client == c {
        SweepSpares(Run(s, init), a, u, order, f);
      }
    }
  }

  /** RevokeUserRefreshTokens: when a call returns whose commands all succeeded, a family that was live at its
      SMEMBERS, and that nobody else ended, is dead if and only if it was listed then. */
  lemma UserRevocationIff(s: System, c: ClientID, u: UserID, a: Action, run: seq<Action>, f: FamilyID)
    requires Inv(s) && IndexOk(s) && Can(s, a) && a.Command? && a.client == c && s.clients[c] == UserMembers(u)
    requires CanRun(Step(s, a), run) && Undisturbed(run, c)
    requires f in s.db.families && OthersSpare(Step(s, a), run, c, f)
    requires c in Run(Step(s, a), run).clients && Run(Step(s, a), run).clients[c].Finished?
    ensures f !in Run(Step(s, a), run).db.families <==> f in Members(s.db.userFamilies, u)
  {
    var s1 := Step(s, a);
    if f in Members(s.db.userFamilies, u) {
      hide Step, Inv, Can, IndexOk, Run, CanRun, Members;
      UserRevocationIsComplete(s, c, u, a, run);
    } else {
      StepInv(s, a);
      SweepStarts(s, c, u, a);
      MembersOnlyRead(s, a);
      hide Step, Inv, Can, IndexOk, Run, CanRun, Members, Sweeping;
      SweepPassesBy(s1, c, u, a.order, f, run);
    }
  }

  lemma MembersOnlyRead(s: System, a: Action)
    requires Can(s, a) && a.Command? && s.clients[a.client].UserMembers?
    ensures Step(s, a).db == s.db
  {
  }

  // ---------------------------------------------------------------- what an index leaves out

  /** What the steps of a run do to the family keys and to the users' indices, in order. */
  ghost function Changes(run: seq<Action>): (r: seq<Change>)
    requires CanRun(INIT, run)
    ensures |r| == |run|
  {
    if run == [] then []
    else var init, a := run[..|run| - 1], run[|run| - 1]; Changes(init) + [ChangeOf(Run(INIT, init), a)]
  }

  predicate StoresFamily(d: Change, f: FamilyID) { d.Stores? && d.family == f }

  /** The index of `u` was dropped as a whole, and `f` was not stored again afterwards. */
  predicate Dropped(changes: seq<Change>, u: UserID, f: FamilyID) {
    exists i :: 0 <= i < |changes| && changes[i] == Drops(u) && forall j :: i < j < |changes| ==> !StoresFamily(changes[j], f)
  }

  lemma DroppedNext(before: seq<Change>, d: Change, u: UserID, f: FamilyID)
    ensures Dropped(before + [d], u, f) <==> d == Drops(u) || (!StoresFamily(d, f) && Dropped(before, u, f))
  {
    var all := before + [d];
    if d == Drops(u) {
      assert all[|before|] == Drops(u);
    }
    if Dropped(before, u, f) && !StoresFamily(d, f) {
      var i :| 0 <= i < |before| && before[i] == Drops(u) && forall j :: i < j < |before| ==> !StoresFamily(before[j], f);
      assert all[i] == Drops(u);
    }
    if Dropped(all, u, f) && d != Drops(u) {
      var i :| 0 <= i < |all| && all[i] == Drops(u) && forall j :: i < j < |all| ==> !StoresFamily(all[j], f);
      assert !StoresFamily(all[|before|], f);
      forall j | i < j < |before| ensures !StoresFamily(before[j], f) {
        assert !StoresFamily(all[j], f);
      }
      assert before[i] == Drops(u);
    }
  }

  /** After any run, a live family is missing from its owner's index if and only if that index was dropped
      as a whole after the family was last stored. */
  lemma {:induction false} UnlistedIffDropped(run: seq<Action>, u: UserID, f: FamilyID)
    requires CanRun(INIT, run) && Owners(Run(INIT, run).db, f) == {u}
    ensures Unlisted(Run(INIT, run), f) <==> Dropped(Changes(run), u, f)
  {
    if run != [] {
      var init, a := run[..|run| - 1], run[|run| - 1];
      var s := Run(INIT, init);
      var d := ChangeOf(s, a);
      assert Changes(run) == Changes(init) + [d] && Run(INIT, run) == Step(s, a);
      StepChanges(s, a);
      UnlistedIff(s, a, f);
      DroppedNext(Changes(init), d, u, f);
      hide Run, CanRun, Step, Changes, ChangeOf, Dropped, Can, Unlisted;
      if !StoresFamily(d, f) {
        UnlistedIffDropped(init, u, f);
      }
    }
  }

  /** A revocation that drops the user's index after a login has been added to it. */
  function LateLogin(): seq<Action> {
    [Call(0, UserMembers("u")), Command(0, "", []), New("u", "f", "t", 5)] + [Command(0, "", [])]
  }

  /** Another revocation of the same user's tokens. */
  function SecondRevocation(): seq<Action> {
    [Call(0, UserMembers("u")), Command(0, "", []), Command(0, "", [])]
  }

  /** A login during a revocation can end up unlisted. */
  lemma LateLoginIsUnlisted() returns (s: System)
    ensures Leads(INIT, LateLogin(), s) && Unlisted(s, "f") && s.db.families["f"].owner == "u"
    ensures s.clients == map[0 := Finished(Done)] && s.db.userFamilies == map[]
  {
    var c: ClientID := 0;
    var call, members, login := Call(c, UserMembers("u")), Command(c, "", []), New("u", "f", "t", 5);
    var s1, s2 := With(INIT, c, UserMembers("u")), With(INIT, c, UserDel("u"));
    var s3 := Step(s2, login);
    s := With(s3, c, Finished(Done)).(db := s3.db.(userFamilies := map[]));
    assert Takes(INIT, call, s1) && Takes(s2, login, s3);
    assert Unlisted(s, "f") && s.db.families["f"].owner == "u" && s.clients == map[c := Finished(Done)];
    assert s3.db.userFamilies - {"u"} == map[] && c in s3.clients && s3.clients[c] == UserDel("u");
    hide Step, Can, With, Takes, Unlisted, Leads;
    EmptyMembers(INIT, c, "u");
    Deletes(s3, c, "u", s);
    Steps3(INIT, s1, s2, s3, call, members, login);
    Then(INIT, [call, members, login], s3, members, s);
  }

  /** And then revoking the user's tokens succeeds and leaves it live. */
  lemma RevocationPassesBy()
    ensures CanRun(INIT, LateLogin()) && Unlisted(Run(INIT, LateLogin()), "f")
    ensures var run := LateLogin() + SecondRevocation();
      && CanRun(INIT, run) && "f" in Run(INIT, run).db.families && Run(INIT, run).db.families["f"].owner == "u"
      && Run(INIT, run).clients == map[0 := Finished(Done)]
  {
    var c: ClientID := 0;
    var s := LateLoginIsUnlisted();
    var call, members := Call(c, UserMembers("u")), Command(c, "", []);
    var s1, s2 := With(s, c, UserMembers("u")), With(s, c, UserDel("u"));
    assert With(s2, c, Finished(Done)).(db := s.db.(userFamilies := map[])) == s;
    assert Takes(s, call, s1) && s.db.userFamilies - {"u"} == map[] && s2.db == s.db && c in s2.clients && s2.clients[c] == UserDel("u");
    hide Step, Can, With, Takes, Leads, CanRun, Run, LateLogin;
    EmptyMembers(s, c, "u");
    Deletes(s2, c, "u", s);
    Steps3(s, s1, s2, s, call, members, members);
    LeadsOn(INIT, LateLogin(), s, SecondRevocation(), s);
    Led(INIT, LateLogin(), s);
    Led(INIT, LateLogin() + SecondRevocation(), s);
  }

  lemma Led(s: System, run: seq<Action>, end: System)
    requires Leads(s, run, end)
    ensures CanRun(s, run) && Run(s, run) == end
  {
  }

  lemma EmptyMembers(s: System, c: ClientID, u: UserID)
    requires Members(s.db.userFamilies, u) == {}
    ensures Takes(With(s, c, UserMembers(u)), Command(c, "", []), With(s, c, UserDel(u)))
  {
    assert With(s, c, UserMembers(u)).clients[c := UserDel(u)] == With(s, c, UserDel(u)).clients;
  }

  lemma Deletes(s: System, c: ClientID, u: UserID, s': System)
    requires c in s.clients && s.clients[c] == UserDel(u)
    requires s' == With(s, c, Finished(Done)).(db := s.db.(userFamilies := s.db.userFamilies - {u}))
    ensures Takes(s, Command(c, "", []), s')
  {
  }
}
