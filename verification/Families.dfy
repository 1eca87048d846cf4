/**
 The refresh-token family machine that both token stores implement.

 A family is one login: it has an owner, one current token and an expiry.  Creating a
 family issues its first token, rotating it replaces the current token by a fresh one, and
 revoking it kills it for good.  `familyOf` remembers every token ever issued, also those
 of dead families; it is history and no store keeps it.

 A token stands for its SHA-256 hash (an injective function of it), and newly generated
 tokens and family identifiers are fresh.
 */
module Families {

  type Token = string
  type FamilyID = string
  type UserID = string

  datatype Family = Family(owner: UserID, current: Token, expiry: int)

  datatype State = State(live: map<FamilyID, Family>, familyOf: map<Token, FamilyID>)

  datatype Event =
    | Create(family: FamilyID, owner: UserID, token: Token, expiry: int)
    | Rotate(family: FamilyID, token: Token, next: Token, expiry: int)
    | Revoke(families: set<FamilyID>)

  const EMPTY := State(map[], map[])

  /** Fresh tokens and families for the first two; only a family's current token rotates. */
  predicate Enabled(s: State, e: Event) {
    match e
    case Create(f, u, t, x) => t !in s.familyOf && f !in s.familyOf.Values
    case Rotate(f, t, n, x) => f in s.live && s.live[f].current == t && n !in s.familyOf
    case Revoke(fs) => true
  }

  function Next(s: State, e: Event): State {
    match e
    case Create(f, u, t, x) => State(s.live[f := Family(u, t, x)], s.familyOf[t := f])
    case Rotate(f, t, n, x) =>
      var owner := if f in s.live then s.live[f].owner else "";
      State(s.live[f := Family(owner, n, x)], s.familyOf[n := f])
    case Revoke(fs) => s.(live := s.live - fs)
  }

  /** The state after all events of a log, oldest first. */
  function Replay(log: seq<Event>): State {
    if log == [] then EMPTY else Next(Replay(log[..|log| - 1]), log[|log| - 1])
  }

  predicate Legal(log: seq<Event>) {
    log == [] || (Legal(log[..|log| - 1]) && Enabled(Replay(log[..|log| - 1]), log[|log| - 1]))
  }

  lemma Extend(log: seq<Event>, e: Event)
    requires Legal(log) && Enabled(Replay(log), e)
    ensures Legal(log + [e]) && Replay(log + [e]) == Next(Replay(log), e)
  {
    assert (log + [e])[..|log|] == log;
  }

  lemma {:induction false} LegalPrefix(log: seq<Event>, n: nat)
    requires Legal(log) && n <= |log|
    ensures Legal(log[..n])
    ensures n < |log| ==> Enabled(Replay(log[..n]), log[n]) && Replay(log[..n + 1]) == Next(Replay(log[..n]), log[n])
  {
    if n == |log| {
      assert log[..n] == log;
    } else {
      var m := |log| - 1;
      if n == m {
        assert log[..n + 1] == log;
      } else {
        LegalPrefix(log[..m], n);
        assert log[..m][..n] == log[..n] && log[..m][..n + 1] == log[..n + 1];
      }
    }
  }

  // ---------------------------------------------------------------- state invariants

  /** Every live family's current token was issued in that very family. */
  predicate WellFormed(s: State) {
    forall f :: f in s.live ==> s.live[f].current in s.familyOf && s.familyOf[s.live[f].current] == f
  }

  /** `t` was issued and can never again be a current token. */
  predicate Spent(s: State, t: Token) {
    t in s.familyOf && (s.familyOf[t] in s.live ==> s.live[s.familyOf[t]].current != t)
  }

  /** `f` existed and is dead. */
  predicate Dead(s: State, f: FamilyID) {
    f in s.familyOf.Values && f !in s.live
  }

  lemma StepKeeps(s: State, e: Event)
    requires WellFormed(s) && Enabled(s, e)
    ensures WellFormed(Next(s, e))
    ensures forall t :: t in s.familyOf ==> t in Next(s, e).familyOf && Next(s, e).familyOf[t] == s.familyOf[t]
    ensures forall t :: Spent(s, t) ==> Spent(Next(s, e), t)
    ensures forall f :: Dead(s, f) ==> Dead(Next(s, e), f)
  {
    var s' := Next(s, e);
    forall f | f in s.live ensures f in s.familyOf.Values {
      assert s.familyOf[s.live[f].current] == f;
    }
    forall f | f in s.familyOf.Values ensures f in s'.familyOf.Values {
      var t :| t in s.familyOf && s.familyOf[t] == f;
      assert s'.familyOf[t] == f;
    }
    forall t | t in s.familyOf ensures s.familyOf[t] in s.familyOf.Values && s'.familyOf[t] == s.familyOf[t] {
    }
  }

  lemma {:induction false} LegalWellFormed(log: seq<Event>)
    requires Legal(log)
    ensures WellFormed(Replay(log))
  {
    if log != [] {
      LegalWellFormed(log[..|log| - 1]);
      StepKeeps(Replay(log[..|log| - 1]), log[|log| - 1]);
    }
  }

  /** What is spent or dead after `i` events is spent or dead after any later `j`. */
  lemma {:induction false} Monotone(log: seq<Event>, i: nat, j: nat)
    requires Legal(log) && i <= j <= |log|
    ensures forall t :: t in Replay(log[..i]).familyOf ==>
              t in Replay(log[..j]).familyOf && Replay(log[..j]).familyOf[t] == Replay(log[..i]).familyOf[t]
    ensures forall t :: Spent(Replay(log[..i]), t) ==> Spent(Replay(log[..j]), t)
    ensures forall f :: Dead(Replay(log[..i]), f) ==> Dead(Replay(log[..j]), f)
    decreases j - i
  {
    if i < j {
      LegalPrefix(log, i);
      LegalWellFormed(log[..i]);
      StepKeeps(Replay(log[..i]), log[i]);
      Monotone(log, i + 1, j);
    }
  }

  // ------------------------------------------------------------------- safety over logs

  /** A token is consumed by at most one rotation, whatever families the two events name. */
  lemma ConsumedOnce(log: seq<Event>, i: nat, j: nat)
    requires Legal(log) && i < |log| && j < |log|
    requires log[i].Rotate? && log[j].Rotate? && log[i].token == log[j].token
    ensures i == j
  {
    if i > j {
      ConsumedOnce(log, j, i);
    } else if i < j {
      LegalPrefix(log, i);
      LegalWellFormed(log[..i]);
      assert Spent(Replay(log[..i + 1]), log[i].token);
      Monotone(log, i + 1, j);
      LegalPrefix(log, j);
      LegalWellFormed(log[..j]);
    }
  }

  /** A dead family is named by no later creation or rotation. */
  lemma DeadForever(log: seq<Event>, f: FamilyID, i: nat, j: nat)
    requires Legal(log) && i <= j < |log| && Dead(Replay(log[..i]), f)
    ensures (log[j].Create? || log[j].Rotate?) ==> log[j].family != f
    ensures f !in Replay(log).live
  {
    Monotone(log, i, j);
    LegalPrefix(log, j);
    Monotone(log, i, |log|);
    assert log[..|log|] == log;
  }

  /** The tokens issued in a family, oldest first. */
  function History(log: seq<Event>, f: FamilyID): seq<Token> {
    if log == [] then []
    else
      var e := log[|log| - 1];
      var before := History(log[..|log| - 1], f);
      match e
      case Create(g, _, t, _) => if g == f then before + [t] else before
      case Rotate(g, _, n, _) => if g == f then before + [n] else before
      case Revoke(_) => before
  }

  /** `log` holds a rotation that consumes `t` and yields `n` in family `f`. */
  predicate HasRotation(log: seq<Event>, f: FamilyID, t: Token, n: Token) {
    exists i :: 0 <= i < |log| && log[i].Rotate? && log[i].family == f && log[i].token == t && log[i].next == n
  }

  lemma HasRotationExtends(log: seq<Event>, e: Event, f: FamilyID, t: Token, n: Token)
    requires HasRotation(log, f, t, n)
    ensures HasRotation(log + [e], f, t, n)
  {
    var i :| 0 <= i < |log| && log[i].Rotate? && log[i].family == f && log[i].token == t && log[i].next == n;
    assert (log + [e])[i] == log[i];
  }

  /** A family's history is a chain of rotations without repetition that ends in its current
      token, and it holds exactly the tokens ever issued in that family. */
  lemma {:induction false} HistoryIsChain(log: seq<Event>, f: FamilyID)
    requires Legal(log)
    ensures forall t :: t in History(log, f) <==> t in Replay(log).familyOf && Replay(log).familyOf[t] == f
    ensures forall i, j :: 0 <= i < j < |History(log, f)| ==> History(log, f)[i] != History(log, f)[j]
    ensures forall i :: 0 <= i < |History(log, f)| - 1 ==> HasRotation(log, f, History(log, f)[i], History(log, f)[i + 1])
    ensures f in Replay(log).live ==>
              History(log, f) != [] && History(log, f)[|History(log, f)| - 1] == Replay(log).live[f].current
  {
    if log != [] {
      var init, e := log[..|log| - 1], log[|log| - 1];
      assert init + [e] == log;
      HistoryIsChain(init, f);
      LegalWellFormed(init);
      var h, h' := History(init, f), History(log, f);
      if f in Replay(init).live {
        assert Replay(init).familyOf[Replay(init).live[f].current] == f;
      }
      if h != [] {
        assert h[0] in h && Replay(init).familyOf[h[0]] == f;
      }
      forall i | 0 <= i < |h'| - 1 ensures HasRotation(log, f, h'[i], h'[i + 1]) {
        if i < |h| - 1 {
          HasRotationExtends(init, e, f, h[i], h[i + 1]);
        } else {
          assert log[|log| - 1] == e && e.Rotate? && e.token == h[i];
        }
      }
    }
  }

  /** A live family's issued token that is no longer current has really been consumed. */
  lemma NotCurrentMeansConsumed(log: seq<Event>, t: Token) returns (i: nat)
    requires Legal(log)
    requires t in Replay(log).familyOf
    requires var f := Replay(log).familyOf[t]; f in Replay(log).live && Replay(log).live[f].current != t
    ensures i < |log| && log[i].Rotate? && log[i].token == t && log[i].family == Replay(log).familyOf[t]
  {
    var f := Replay(log).familyOf[t];
    HistoryIsChain(log, f);
    var h := History(log, f);
    var k :| 0 <= k < |h| && h[k] == t;
    assert HasRotation(log, f, h[k], h[k + 1]);
    i :| 0 <= i < |log| && log[i].Rotate? && log[i].family == f && log[i].token == t && log[i].next == h[k + 1];
  }
}
