/**
 The in-memory token store: four maps that index each other, updated in place under a mutex,
 so each method is one atomic operation.  The class refines `Apply`, the one-current-token
 family machine, and the theorems about whole runs are proved on `Apply`.
 */
module MemoryRefreshTokens {
  import opened Families
  import opened Options

  datatype Op =
    | New(owner: UserID, family: FamilyID, token: Token, expiry: int)
    | Rotation(token: Token, now: int, ttl: int, generated: Option<Token>)
    | Delete(token: Token)
    | RevokeUser(owner: UserID)

  datatype Outcome =
    | Issued(token: Token)
    | Rotated(userID: UserID, newToken: Token)
    | InvalidRefreshToken
    | RefreshTokenReplay
    | GenerateFailed
    | Done

  // -------------------------------------------------------------------- specification

  /** `t` is the unexpired current token of a live family. */
  predicate Acceptable(s: State, t: Token, now: int) {
    t in s.familyOf && s.familyOf[t] in s.live
    && s.live[s.familyOf[t]].current == t && now <= s.live[s.familyOf[t]].expiry
  }

  function FamiliesOf(s: State, u: UserID): set<FamilyID> {
    set f | f in s.live && s.live[f].owner == u
  }

  /** The family event of an operation, if it has one, and what the caller is told. */
  function Effect(s: State, op: Op): (Option<Event>, Outcome) {
    match op
    case New(u, f, t, x) => (Some(Create(f, u, t, x)), Issued(t))
    case Rotation(t, now, ttl, gen) =>
      if t !in s.familyOf || s.familyOf[t] !in s.live then (None, InvalidRefreshToken)
      else
        var f := s.familyOf[t];
        if now > s.live[f].expiry then (Some(Revoke({f})), InvalidRefreshToken)
        else if s.live[f].current != t then (Some(Revoke({f})), RefreshTokenReplay)
        else if gen.None? then (None, GenerateFailed)
        else (Some(Rotate(f, t, gen.value, now + ttl)), Rotated(s.live[f].owner, gen.value))
    case Delete(t) =>
      if t in s.familyOf && s.familyOf[t] in s.live then (Some(Revoke({s.familyOf[t]})), Done) else (None, Done)
    case RevokeUser(u) => (Some(Revoke(FamiliesOf(s, u))), Done)
  }

  function Apply(s: State, op: Op): State {
    match Effect(s, op).0
    case None => s
    case Some(e) => Next(s, e)
  }

  /** Generated tokens and family identifiers have never been used before. */
  predicate Fresh(s: State, op: Op) {
    match op
    case New(_, f, t, _) => t !in s.familyOf && f !in s.familyOf.Values
    case Rotation(_, _, _, Some(n)) => n !in s.familyOf
    case _ => true
  }

  // ----------------------------------------------------------------------------- runs

  function After(ops: seq<Op>): State {
    if ops == [] then EMPTY else Apply(After(ops[..|ops| - 1]), ops[|ops| - 1])
  }

  predicate FreshRun(ops: seq<Op>) {
    forall i :: 0 <= i < |ops| ==> Fresh(After(ops[..i]), ops[i])
  }

  function OutcomeAt(ops: seq<Op>, i: nat): Outcome
    requires i < |ops|
  {
    Effect(After(ops[..i]), ops[i]).1
  }

  /** Every run is a legal run of the family machine, so its log theorems apply. */
  lemma {:induction false} RunIsLegal(ops: seq<Op>) returns (log: seq<Event>)
    requires FreshRun(ops)
    ensures Legal(log) && Replay(log) == After(ops)
  {
    log := [];
    if ops != [] {
      var init := ops[..|ops| - 1];
      forall i | 0 <= i < |init| ensures Fresh(After(init[..i]), init[i]) {
        assert init[..i] == ops[..i];
      }
      log := RunIsLegal(init);
      match Effect(After(init), ops[|ops| - 1]).0 {
        case None =>
        case Some(e) => Extend(log, e); log := log + [e];
      }
    }
  }

  lemma ApplyKeeps(s: State, op: Op)
    requires WellFormed(s) && Fresh(s, op)
    ensures WellFormed(Apply(s, op))
    ensures forall t :: t in s.familyOf ==> t in Apply(s, op).familyOf && Apply(s, op).familyOf[t] == s.familyOf[t]
    ensures forall t :: Spent(s, t) ==> Spent(Apply(s, op), t)
    ensures forall f :: Dead(s, f) ==> Dead(Apply(s, op), f)
  {
    match Effect(s, op).0 {
      case None =>
      case Some(e) => StepKeeps(s, e);
    }
  }

  lemma RunWellFormed(ops: seq<Op>, i: nat)
    requires FreshRun(ops) && i <= |ops|
    ensures WellFormed(After(ops[..i]))
    ensures i < |ops| ==> After(ops[..i + 1]) == Apply(After(ops[..i]), ops[i])
  {
    forall k | 0 <= k < i ensures Fresh(After(ops[..i][..k]), ops[..i][k]) {
      assert ops[..i][..k] == ops[..k];
    }
    var log := RunIsLegal(ops[..i]);
    LegalWellFormed(log);
    if i < |ops| {
      assert ops[..i + 1][..i] == ops[..i];
    }
  }

  lemma {:induction false} RunMonotone(ops: seq<Op>, i: nat, j: nat)
    requires FreshRun(ops) && i <= j <= |ops|
    ensures forall t :: t in After(ops[..i]).familyOf ==>
              t in After(ops[..j]).familyOf && After(ops[..j]).familyOf[t] == After(ops[..i]).familyOf[t]
    ensures forall t :: Spent(After(ops[..i]), t) ==> Spent(After(ops[..j]), t)
    ensures forall f :: Dead(After(ops[..i]), f) ==> Dead(After(ops[..j]), f)
    decreases j - i
  {
    if i < j {
      RunWellFormed(ops, i);
      ApplyKeeps(After(ops[..i]), ops[i]);
      RunMonotone(ops, i + 1, j);
    }
  }

  lemma RotatesIffAcceptable(s: State, t: Token, now: int, ttl: int, next: Token)
    ensures Effect(s, Rotation(t, now, ttl, Some(next))).1.Rotated? <==> Acceptable(s, t, now)
  {
  }

  /** At any time the store rotates exactly one token of a family, the last one issued in it, provided that
      the family is live and has not run out. */
  lemma OnlyLastIssuedIsAcceptable(ops: seq<Op>, log: seq<Event>, t: Token, now: int, ttl: int, next: Token)
    requires Legal(log) && Replay(log) == After(ops)
    ensures Effect(After(ops), Rotation(t, now, ttl, Some(next))).1.Rotated? <==> Acceptable(After(ops), t, now)
    ensures Acceptable(After(ops), t, now) <==>
      exists f :: f in After(ops).live && now <= After(ops).live[f].expiry
                  && History(log, f) != [] && t == History(log, f)[|History(log, f)| - 1]
  {
    RotatesIffAcceptable(After(ops), t, now, ttl, next);
    hide Effect, After;
    LastIsCurrent(log);
    hide Replay, Legal, History;
  }

  lemma LastIsCurrent(log: seq<Event>)
    requires Legal(log)
    ensures WellFormed(Replay(log))
    ensures forall f :: f in Replay(log).live ==>
      History(log, f) != [] && History(log, f)[|History(log, f)| - 1] == Replay(log).live[f].current
  {
    LegalWellFormed(log);
    hide Replay, Legal, History;
    forall f | f in Replay(log).live
      ensures History(log, f) != [] && History(log, f)[|History(log, f)| - 1] == Replay(log).live[f].current
    {
      HistoryIsChain(log, f);
    }
  }

  /** Over any run, one token rotates successfully at most once. */
  lemma RotatesAtMostOnce(ops: seq<Op>, i: nat, j: nat)
    requires FreshRun(ops) && i < |ops| && j < |ops|
    requires ops[i].Rotation? && ops[j].Rotation? && ops[i].token == ops[j].token
    requires OutcomeAt(ops, i).Rotated? && OutcomeAt(ops, j).Rotated?
    ensures i == j
  {
    if i > j {
      RotatesAtMostOnce(ops, j, i);
    } else if i < j {
      RunWellFormed(ops, i);
      RotatedIsSpent(After(ops[..i]), ops[i]);
      hide After, Apply, FreshRun;
      RunMonotone(ops, i + 1, j);
    }
  }

  lemma RotatedIsSpent(s: State, op: Op)
    requires WellFormed(s) && Fresh(s, op) && op.Rotation? && Effect(s, op).1.Rotated?
    ensures Spent(Apply(s, op), op.token)
  {
  }

  /** The token was issued in this family at some time of the run. */
  predicate IssuedIn(ops: seq<Op>, t: Token, f: FamilyID) {
    t in After(ops).familyOf && After(ops).familyOf[t] == f
  }

  /** Once a family is dead, every token ever issued in it, before or after, is refused as invalid. */
  lemma DeadStaysRefused(ops: seq<Op>, i: nat, j: nat, f: FamilyID)
    requires FreshRun(ops) && i <= j < |ops| && Dead(After(ops[..i]), f)
    requires ops[j].Rotation? && IssuedIn(ops, ops[j].token, f)
    ensures OutcomeAt(ops, j).InvalidRefreshToken?
  {
    assert ops[..|ops|] == ops;
    hide After, Apply, Fresh, Effect, FreshRun, Spent;
    RunMonotone(ops, i, j);
    RunMonotone(ops, j, |ops|);
    DeadIsRefused(After(ops[..j]), ops[j], f);
  }

  /** Once a replay is reported, every token of that family is refused as invalid. */
  lemma ReplayKillsFamily(ops: seq<Op>, i: nat, j: nat)
    requires FreshRun(ops) && i < j < |ops|
    requires ops[i].Rotation? && ops[j].Rotation? && OutcomeAt(ops, i).RefreshTokenReplay?
    requires ops[i].token in After(ops).familyOf && ops[j].token in After(ops).familyOf
    requires After(ops).familyOf[ops[j].token] == After(ops).familyOf[ops[i].token]
    ensures OutcomeAt(ops, j).InvalidRefreshToken?
  {
    RefusedKillsFamily(ops, i, j);
  }

  /** So it is after any refusal of an issued token, an expired one included. */
  lemma RefusedKillsFamily(ops: seq<Op>, i: nat, j: nat)
    requires FreshRun(ops) && i < j < |ops| && ops[i].Rotation? && ops[j].Rotation?
    requires OutcomeAt(ops, i).RefreshTokenReplay? || (OutcomeAt(ops, i).InvalidRefreshToken? && ops[i].token in After(ops[..i]).familyOf)
    requires ops[i].token in After(ops).familyOf && IssuedIn(ops, ops[j].token, After(ops).familyOf[ops[i].token])
    ensures OutcomeAt(ops, j).InvalidRefreshToken?
  {
    assert ops[..|ops|] == ops;
    RunWellFormed(ops, i);
    RefusalRevokes(After(ops[..i]), ops[i]);
    hide After, Apply, Fresh, Effect, FreshRun, Spent, Dead;
    RunMonotone(ops, i, |ops|);
    DeadStaysRefused(ops, i + 1, j, After(ops).familyOf[ops[i].token]);
  }

  lemma RefusalRevokes(s: State, op: Op)
    requires op.Rotation?
    requires Effect(s, op).1.RefreshTokenReplay? || (Effect(s, op).1.InvalidRefreshToken? && op.token in s.familyOf)
    ensures op.token in s.familyOf && Dead(Apply(s, op), s.familyOf[op.token])
  {
    assert s.familyOf[op.token] in s.familyOf.Values;
  }

  /** Logout: once a token has been deleted, every token of its family is refused as invalid. */
  lemma DeletionKillsFamily(ops: seq<Op>, i: nat, j: nat)
    requires FreshRun(ops) && i < j < |ops| && ops[i].Delete? && ops[j].Rotation?
    requires ops[i].token in After(ops[..i]).familyOf && IssuedIn(ops, ops[j].token, After(ops[..i]).familyOf[ops[i].token])
    ensures OutcomeAt(ops, i).Done? && OutcomeAt(ops, j).InvalidRefreshToken?
  {
    RunWellFormed(ops, i);
    DeletionRevokes(After(ops[..i]), ops[i]);
    hide After, Apply, Fresh, Effect, FreshRun, Dead;
    DeadStaysRefused(ops, i + 1, j, After(ops[..i]).familyOf[ops[i].token]);
  }

  lemma DeletionRevokes(s: State, op: Op)
    requires op.Delete? && op.token in s.familyOf
    ensures Dead(Apply(s, op), s.familyOf[op.token]) && Effect(s, op).1.Done?
  {
    assert s.familyOf[op.token] in s.familyOf.Values;
  }

  /** Once a user's tokens have been revoked, every token of every family that the user had then is refused. */
  lemma UserRevocationKillsFamilies(ops: seq<Op>, i: nat, j: nat, f: FamilyID)
    requires FreshRun(ops) && i < j < |ops| && ops[i].RevokeUser? && ops[j].Rotation?
    requires f in After(ops[..i]).live && After(ops[..i]).live[f].owner == ops[i].owner && IssuedIn(ops, ops[j].token, f)
    ensures OutcomeAt(ops, i).Done? && OutcomeAt(ops, j).InvalidRefreshToken?
  {
    RunWellFormed(ops, i);
    UserRevocationRevokes(After(ops[..i]), ops[i], f);
    hide After, Apply, Fresh, Effect, FreshRun, Dead;
    DeadStaysRefused(ops, i + 1, j, f);
  }

  lemma UserRevocationRevokes(s: State, op: Op, f: FamilyID)
    requires WellFormed(s) && op.RevokeUser? && f in s.live && s.live[f].owner == op.owner
    ensures Dead(Apply(s, op), f) && Effect(s, op).1.Done?
  {
    assert s.familyOf[s.live[f].current] in s.familyOf.Values;
  }

  // ------------------------------------------------------------------- what is left alone

  /** The operation is about this family: it creates it, presents a token of it, or revokes its owner's. */
  predicate Concerns(s: State, op: Op, f: FamilyID) {
    match op
    case New(_, g, _, _) => g == f
    case Rotation(t, _, _, _) => t in s.familyOf && s.familyOf[t] == f
    case Delete(t) => t in s.familyOf && s.familyOf[t] == f
    case RevokeUser(u) => f in s.live && s.live[f].owner == u
  }

  function FamilyOf(s: State, f: FamilyID): Option<Family> {
    if f in s.live then Some(s.live[f]) else None
  }

  /** Every operation leaves every other family as it is. */
  lemma OthersUntouched(s: State, op: Op, f: FamilyID)
    requires WellFormed(s) && !Concerns(s, op, f)
    ensures FamilyOf(Apply(s, op), f) == FamilyOf(s, f)
  {
  }

  predicate NoneConcerns(ops: seq<Op>, i: nat, j: nat, f: FamilyID)
    requires i <= j <= |ops|
  {
    forall k :: i <= k < j ==> !Concerns(After(ops[..k]), ops[k], f)
  }

  lemma {:induction false} StaysAsItIs(ops: seq<Op>, i: nat, j: nat, f: FamilyID)
    requires FreshRun(ops) && i <= j <= |ops| && NoneConcerns(ops, i, j, f)
    ensures FamilyOf(After(ops[..j]), f) == FamilyOf(After(ops[..i]), f)
    decreases j - i
  {
    if i < j {
      RunWellFormed(ops, i);
      hide After, Concerns, FamilyOf, FreshRun;
      OthersUntouched(After(ops[..i]), ops[i], f);
      StaysAsItIs(ops, i + 1, j, f);
    }
  }

  /** What the caller of operation `i` was given: a token, its user and how long it lives. */
  predicate Gives(ops: seq<Op>, i: nat, t: Token, u: UserID, expiry: int)
    requires i < |ops|
  {
    match OutcomeAt(ops, i)
    case Issued(t') => t' == t && ops[i].New? && ops[i].owner == u && ops[i].expiry == expiry
    case Rotated(u', t') => t' == t && u' == u && ops[i].Rotation? && ops[i].now + ops[i].ttl == expiry
    case _ => false
  }

  /** A token that a caller was given works for the user it was given for until it expires, provided that
      its family has been left alone: then it rotates, for the same user. */
  lemma GivenTokenWorks(ops: seq<Op>, i: nat, j: nat, t: Token, u: UserID, expiry: int)
    requires FreshRun(ops) && i < j < |ops| && Gives(ops, i, t, u, expiry)
    requires ops[j].Rotation? && ops[j].token == t
    requires t in After(ops[..i + 1]).familyOf ==> NoneConcerns(ops, i + 1, j, After(ops[..i + 1]).familyOf[t])
    ensures OutcomeAt(ops, j) ==
      if ops[j].now > expiry then InvalidRefreshToken
      else if ops[j].generated.None? then GenerateFailed
      else Rotated(u, ops[j].generated.value)
  {
    RunWellFormed(ops, i);
    GivenIsCurrent(After(ops[..i]), ops[i], t, u, expiry);
    var f := After(ops[..i + 1]).familyOf[t];
    hide After, Apply, Fresh, Effect, FreshRun, Gives;
    StaysAsItIs(ops, i + 1, j, f);
    RunMonotone(ops, i + 1, j);
    CurrentRotates(After(ops[..j]), ops[j], f, u, expiry);
  }

  lemma GivenIsCurrent(s: State, op: Op, t: Token, u: UserID, expiry: int)
    requires Effect(s, op).1 == Issued(t) || Effect(s, op).1 == Rotated(u, t)
    requires op.New? ==> op.owner == u && op.expiry == expiry
    requires op.Rotation? ==> op.now + op.ttl == expiry
    ensures var s' := Apply(s, op);
      t in s'.familyOf && FamilyOf(s', s'.familyOf[t]) == Some(Family(u, t, expiry))
  {
  }

  lemma CurrentRotates(s: State, op: Op, f: FamilyID, u: UserID, expiry: int)
    requires op.Rotation? && op.token in s.familyOf && s.familyOf[op.token] == f && FamilyOf(s, f) == Some(Family(u, op.token, expiry))
    ensures Effect(s, op).1 ==
      if op.now > expiry then InvalidRefreshToken
      else if op.generated.None? then GenerateFailed
      else Rotated(u, op.generated.value)
  {
  }

  /** A creation gives the caller its token, and a failed generation changes nothing. */
  lemma NewGives(ops: seq<Op>, i: nat)
    requires FreshRun(ops) && i < |ops|
    ensures ops[i].New? ==> Gives(ops, i, ops[i].token, ops[i].owner, ops[i].expiry)
    ensures OutcomeAt(ops, i).GenerateFailed? ==> After(ops[..i + 1]) == After(ops[..i])
  {
    RunWellFormed(ops, i);
    hide After;
  }

  lemma DeadIsRefused(s: State, op: Op, f: FamilyID)
    requires op.Rotation? && Dead(s, f) && (op.token in s.familyOf ==> s.familyOf[op.token] == f)
    ensures Effect(s, op).1.InvalidRefreshToken?
  {
  }

  /** A replay is reported exactly for a consumed token of a live, unexpired family. */
  lemma ReplayIffConsumed(ops: seq<Op>, log: seq<Event>, t: Token, now: int, ttl: int, gen: Option<Token>)
    requires Legal(log) && Replay(log) == After(ops)
    ensures Effect(After(ops), Rotation(t, now, ttl, gen)).1.RefreshTokenReplay?
       <==> (t in After(ops).familyOf && After(ops).familyOf[t] in After(ops).live
             && now <= After(ops).live[After(ops).familyOf[t]].expiry
             && exists n :: HasRotation(log, After(ops).familyOf[t], t, n))
  {
    var s := After(ops);
    if t in s.familyOf && s.familyOf[t] in s.live {
      var f := s.familyOf[t];
      if s.live[f].current != t {
        var i := NotCurrentMeansConsumed(log, t);
        assert HasRotation(log, f, t, log[i].next);
      } else if exists n :: HasRotation(log, f, t, n) {
        var n :| HasRotation(log, f, t, n);
        var i :| 0 <= i < |log| && log[i].Rotate? && log[i].family == f && log[i].token == t && log[i].next == n;
        LegalPrefix(log, i);
        LegalWellFormed(log[..i]);
        assert Spent(Replay(log[..i + 1]), t);
        Monotone(log, i + 1, |log|);
        assert log[..|log|] == log;
      }
    }
  }

  // ---------------------------------------------------------------------- the indexes

  type Sets = map<string, set<string>>

  /** The tokens of live families. */
  function TokenFamily(s: State): map<Token, FamilyID> {
    map t | t in s.familyOf && s.familyOf[t] in s.live :: s.familyOf[t]
  }

  function TokensOf(s: State, f: FamilyID): set<Token> {
    set t | t in s.familyOf && s.familyOf[t] == f
  }

  /** The inverse of `TokenFamily`. */
  function FamilyTokens(s: State): Sets {
    map f | f in s.live :: TokensOf(s, f)
  }

  /** `uf` is the inverse of a live family's owner, without empty entries.  The entry of the
      empty user is never cleaned up, so that one may also hold dead families. */
  ghost predicate UserIndex(s: State, uf: Sets) {
    && (forall u :: u != "" ==> ExactEntry(s, uf, u))
    && (FamiliesOf(s, "") != {} ==> "" in uf)
    && ("" in uf ==> FamiliesOf(s, "") <= uf[""] <= s.familyOf.Values)
    && ("" in uf ==> uf[""] * s.live.Keys <= FamiliesOf(s, ""))
  }

  predicate ExactEntry(s: State, uf: Sets, u: UserID) {
    if FamiliesOf(s, u) == {} then u !in uf else u in uf && uf[u] == FamiliesOf(s, u)
  }

  lemma IndexLookup(s: State, t: Token)
    ensures t in TokenFamily(s) <==> t in s.familyOf && s.familyOf[t] in s.live
    ensures t in TokenFamily(s) ==> TokenFamily(s)[t] == s.familyOf[t]
    ensures forall f :: f in s.live ==> f in FamilyTokens(s) && FamilyTokens(s)[f] == TokensOf(s, f)
  {
  }

  function Without(uf: Sets, u: UserID, f: FamilyID): Sets {
    if u == "" || u !in uf then uf
    else if uf[u] - {f} == {} then uf - {u}
    else uf[u := uf[u] - {f}]
  }

  lemma CreateTokenIndex(s: State, f: FamilyID, u: UserID, t: Token, x: int)
    requires WellFormed(s) && Enabled(s, Create(f, u, t, x))
    ensures var s' := Next(s, Create(f, u, t, x));
      TokenFamily(s') == TokenFamily(s)[t := f] && FamilyTokens(s') == FamilyTokens(s)[f := {t}]
  {
    var s' := Next(s, Create(f, u, t, x));
    forall t' | t' in s.familyOf ensures s.familyOf[t'] != f {
      assert s.familyOf[t'] in s.familyOf.Values;
    }
    assert TokensOf(s', f) == {t};
    forall g | g in s.live && g != f ensures TokensOf(s', g) == TokensOf(s, g) {
    }
  }

  lemma CreateUserIndex(s: State, uf: Sets, f: FamilyID, u: UserID, t: Token, x: int)
    requires WellFormed(s) && UserIndex(s, uf) && Enabled(s, Create(f, u, t, x))
    ensures UserIndex(Next(s, Create(f, u, t, x)), uf[u := (if u in uf then uf[u] else {}) + {f}])
  {
    var s' := Next(s, Create(f, u, t, x));
    LiveIsIssued(s);
    IssuedGrows(s.familyOf, t, f);
    forall v ensures FamiliesOf(s', v) == if v == u then FamiliesOf(s, v) + {f} else FamiliesOf(s, v) {
    }
    hide FamiliesOf;
    var uf' := uf[u := (if u in uf then uf[u] else {}) + {f}];
    forall v | v != "" ensures ExactEntry(s', uf', v) {
      assert ExactEntry(s, uf, v);
    }
  }

  lemma RotateTokenIndex(s: State, f: FamilyID, t: Token, n: Token, x: int)
    requires Enabled(s, Rotate(f, t, n, x))
    ensures var s' := Next(s, Rotate(f, t, n, x));
      TokenFamily(s') == TokenFamily(s)[n := f] && FamilyTokens(s') == FamilyTokens(s)[f := TokensOf(s, f) + {n}]
  {
    var s' := Next(s, Rotate(f, t, n, x));
    forall g | g in s.live ensures TokensOf(s', g) == if g == f then TokensOf(s, f) + {n} else TokensOf(s, g) {
    }
  }

  lemma RotateUserIndex(s: State, uf: Sets, f: FamilyID, t: Token, n: Token, x: int)
    requires UserIndex(s, uf) && Enabled(s, Rotate(f, t, n, x))
    ensures UserIndex(Next(s, Rotate(f, t, n, x)), uf)
  {
    IssuedGrows(s.familyOf, n, f);
    var s' := Next(s, Rotate(f, t, n, x));
    forall u ensures FamiliesOf(s', u) == FamiliesOf(s, u) {
    }
    forall u | u != "" ensures ExactEntry(s', uf, u) {
      assert ExactEntry(s, uf, u);
    }
  }

  lemma RevokeTokenIndex(s: State, f: FamilyID)
    ensures var s' := Next(s, Revoke({f}));
      TokenFamily(s') == (if f in s.live then TokenFamily(s) - TokensOf(s, f) else TokenFamily(s))
      && FamilyTokens(s') == FamilyTokens(s) - {f}
  {
    var s' := Next(s, Revoke({f}));
    forall g | g in s'.live ensures TokensOf(s', g) == TokensOf(s, g) {
    }
  }

  /** A live family's owner; a dead one's reads as the empty user. */
  function Owner(s: State, f: FamilyID): UserID { if f in s.live then s.live[f].owner else "" }

  lemma RevokeUserIndex(s: State, uf: Sets, f: FamilyID)
    requires UserIndex(s, uf)
    ensures UserIndex(Next(s, Revoke({f})), Without(uf, Owner(s, f), f))
  {
    var u := if f in s.live then s.live[f].owner else "";
    var s', uf' := Next(s, Revoke({f})), Without(uf, u, f);
    forall v ensures FamiliesOf(s', v) == if v == u then FamiliesOf(s, v) - {f} else FamiliesOf(s, v) {
    }
    hide FamiliesOf;
    forall v | v != "" ensures ExactEntry(s', uf', v) {
      assert ExactEntry(s, uf, v);
    }
  }

  /** Some user's entry lists the family. */
  predicate Listed(uf: Sets, f: FamilyID) { exists u :: u in uf && f in uf[u] }

  /** The clean-up that skips the empty user really leaves a dead family behind: the exact
      inverse, which `UserIndex` gives every other user, fails for it. */
  lemma EmptyUserKeepsDeadFamilies(s: State, uf: Sets, f: FamilyID)
    requires UserIndex(s, uf) && f in s.live
    ensures Listed(Without(uf, s.live[f].owner, f), f) <==> s.live[f].owner == ""
  {
    var u, uf' := s.live[f].owner, Without(uf, s.live[f].owner, f);
    assert f in FamiliesOf(s, u);
    if u == "" {
      assert u in uf' && f in uf'[u];
    } else {
      assert ExactEntry(s, uf, u);
      forall v | v in uf' ensures f !in uf'[v] {
        assert v != "" ==> ExactEntry(s, uf, v);
        assert v != u ==> f !in FamiliesOf(s, v);
      }
    }
  }

  lemma LiveIsIssued(s: State)
    requires WellFormed(s)
    ensures forall f :: f in s.live ==> f in s.familyOf.Values
  {
    forall f | f in s.live ensures f in s.familyOf.Values {
      assert s.familyOf[s.live[f].current] == f;
    }
  }

  lemma IssuedGrows(m: map<Token, FamilyID>, t: Token, f: FamilyID)
    requires t !in m
    ensures m[t := f].Values == m.Values + {f}
  {
    forall g | g in m.Values ensures g in m[t := f].Values {
      var t' :| t' in m && m[t'] == g;
      assert m[t := f][t'] == g;
    }
    assert m[t := f][t] == f;
  }

  // ------------------------------------------------------------------------ the store

  class MemoryRefreshTokenStore {
    var families: map<FamilyID, Family>
    var tokenFamily: map<Token, FamilyID>
    var familyTokens: Sets
    var userFamilies: Sets
    ghost var familyOf: map<Token, FamilyID>

    ghost function Abs(): State
      reads this
    {
      State(families, familyOf)
    }

    ghost predicate Valid()
      reads this
    {
      && WellFormed(Abs())
      && tokenFamily == TokenFamily(Abs())
      && familyTokens == FamilyTokens(Abs())
      && UserIndex(Abs(), userFamilies)
    }

    constructor ()
      ensures Valid() && Abs() == EMPTY
    {
      families, tokenFamily, familyTokens, userFamilies := map[], map[], map[], map[];
      familyOf := map[];
    }

    method NewToken(userID: UserID, ttl: int, now: int, token: Token, familyID: FamilyID) returns (r: Outcome)
      requires Valid() && Fresh(Abs(), New(userID, familyID, token, now + ttl))
      modifies this
      ensures Valid()
      ensures Abs() == Apply(old(Abs()), New(userID, familyID, token, now + ttl)) && r == Issued(token)
    {
      hide WellFormed, TokenFamily, FamilyTokens, UserIndex;
      ghost var s, e := Abs(), Create(familyID, userID, token, now + ttl);
      ghost var s' := Next(s, e);
      assert Enabled(s, e) && Apply(s, New(userID, familyID, token, now + ttl)) == s';
      assert s' == State(s.live[familyID := Family(userID, token, now + ttl)], s.familyOf[token := familyID]);
      hide Next, Apply, Fresh, Enabled;
      StepKeeps(s, e);
      CreateTokenIndex(s, familyID, userID, token, now + ttl);
      CreateUserIndex(s, userFamilies, familyID, userID, token, now + ttl);
      families := families[familyID := Family(userID, token, now + ttl)];
      tokenFamily := tokenFamily[token := familyID];
      familyTokens := familyTokens[familyID := {token}];
      var known := if userID in userFamilies then userFamilies[userID] else {};
      userFamilies := userFamilies[userID := known + {familyID}];
      familyOf := familyOf[token := familyID];
      assert Abs() == s';
      r := Issued(token);
    }

    method RotateToken(tokenHash: Token, ttl: int, now: int, generated: Option<Token>) returns (r: Outcome)
      requires Valid() && Fresh(Abs(), Rotation(tokenHash, now, ttl, generated))
      modifies this
      ensures Valid()
      ensures Abs() == Apply(old(Abs()), Rotation(tokenHash, now, ttl, generated))
      ensures r == Effect(old(Abs()), Rotation(tokenHash, now, ttl, generated)).1
    {
      ghost var s, op := Abs(), Rotation(tokenHash, now, ttl, generated);
      IndexLookup(s, tokenHash);
      hide WellFormed, TokenFamily, FamilyTokens, UserIndex;
      if tokenHash !in tokenFamily {
        return InvalidRefreshToken;
      }
      var familyID := tokenFamily[tokenHash];
      if familyID !in families || now > families[familyID].expiry {
        RevokeFamilyLocked(familyID);
        return InvalidRefreshToken;
      }
      var family := families[familyID];
      if family.current != tokenHash {
        RevokeFamilyLocked(familyID);
        return RefreshTokenReplay;
      }
      if generated.None? {
        return GenerateFailed;
      }
      var newHash := generated.value;
      StepKeeps(Abs(), Rotate(familyID, tokenHash, newHash, now + ttl));
      RotateTokenIndex(Abs(), familyID, tokenHash, newHash, now + ttl);
      RotateUserIndex(Abs(), userFamilies, familyID, tokenHash, newHash, now + ttl);
      families := families[familyID := family.(current := newHash, expiry := now + ttl)];
      tokenFamily := tokenFamily[newHash := familyID];
      var known := if familyID in familyTokens then familyTokens[familyID] else {};
      familyTokens := familyTokens[familyID := known + {newHash}];
      familyOf := familyOf[newHash := familyID];
      assert Abs() == Next(s, Rotate(familyID, tokenHash, newHash, now + ttl));
      return Rotated(family.owner, newHash);
    }

    method DeleteToken(tokenHash: Token)
      requires Valid()
      modifies this
      ensures Valid()
      ensures Abs() == Apply(old(Abs()), Delete(tokenHash))
    {
      if tokenHash in tokenFamily {
        RevokeFamilyLocked(tokenFamily[tokenHash]);
      }
    }

    method RevokeFamilyLocked(familyID: FamilyID)
      requires Valid()
      modifies this
      ensures Valid()
      ensures Abs() == Next(old(Abs()), Revoke({familyID}))
      ensures userFamilies == Without(old(userFamilies), Owner(old(Abs()), familyID), familyID)
      ensures familyID in old(families) ==> (Listed(userFamilies, familyID) <==> old(families)[familyID].owner == "")
    {
      ghost var s, uf := Abs(), userFamilies;
      assert familyID in families ==> familyTokens[familyID] == TokensOf(s, familyID);
      assert familyTokens.Keys == families.Keys;
      ghost var e := Revoke({familyID});
      assert Next(s, e) == State(s.live - {familyID}, s.familyOf) && Enabled(s, e);
      hide WellFormed, TokenFamily, FamilyTokens, UserIndex, Next, Enabled, Without;
      StepKeeps(s, e);
      RevokeTokenIndex(s, familyID);
      RevokeUserIndex(s, uf, familyID);
      if familyID in families {
        EmptyUserKeepsDeadFamilies(s, uf, familyID);
      }
      hide Listed;
      var userID := if familyID in families then families[familyID].owner else "";
      if familyID in familyTokens {
        ForgetTokens(familyTokens[familyID]);
      }
      familyTokens := familyTokens - {familyID};
      families := families - {familyID};
      ForgetFamily(userID, familyID);
    }

    /** Its first part: drop the family's tokens. */
    method ForgetTokens(hashes: set<Token>)
      modifies `tokenFamily
      ensures tokenFamily == old(tokenFamily) - hashes
    {
      var rest := hashes;
      while rest != {}
        invariant rest <= hashes && tokenFamily == old(tokenFamily) - (hashes - rest)
        decreases rest
      {
        var h :| h in rest;
        tokenFamily := tokenFamily - {h};
        rest := rest - {h};
      }
      assert hashes - rest == hashes;
    }

    /** The last part of the revocation: drop the family from its owner's entry. */
    method ForgetFamily(userID: UserID, familyID: FamilyID)
      modifies `userFamilies
      ensures userFamilies == Without(old(userFamilies), userID, familyID)
    {
      if userID != "" {
        if userID in userFamilies {
          userFamilies := userFamilies[userID := userFamilies[userID] - {familyID}];
          if |userFamilies[userID]| == 0 {
            userFamilies := userFamilies - {userID};
            assert userFamilies == old(userFamilies) - {userID};
          }
        }
      }
    }

    method RevokeUserRefreshTokens(userID: UserID)
      requires Valid()
      modifies this
      ensures Valid()
      ensures Abs() == Apply(old(Abs()), RevokeUser(userID))
    {
      var familyIDs := if userID in userFamilies then userFamilies[userID] else {};
      ghost var s := Abs();
      assert userID != "" ==> ExactEntry(s, userFamilies, userID);
      assert s.live - familyIDs == s.live - FamiliesOf(s, userID) by {
        assert familyIDs * s.live.Keys == FamiliesOf(s, userID);
      }
      var rest := familyIDs;
      assert s.live - (familyIDs - rest) == s.live;
      while rest != {}
        invariant Valid() && rest <= familyIDs
        invariant Abs() == s.(live := s.live - (familyIDs - rest))
        decreases rest
      {
        var familyID :| familyID in rest;
        assert s.live - (familyIDs - rest) - {familyID} == s.live - (familyIDs - (rest - {familyID}));
        RevokeFamilyLocked(familyID);
        rest := rest - {familyID};
      }
      assert familyIDs - rest == familyIDs;
    }
  }
}
