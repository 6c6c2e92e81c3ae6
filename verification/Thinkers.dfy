/** The ten vectors that share out the creatures' thinking, with lazy deletion. */
module Thinkers {
  import Forests

  const EVENT_CREATURECOUNT: int := 10

  class Creature {
    var removed: bool
    /** The creature is to be checked; when it is not, its vector drops it at its next turn. */
    var creatureCheck: bool
    var checkCreatureVectorIndex: int
    var health: int
    /** The references the vectors hold. */
    var useCount: int

    constructor (health: int)
      ensures !removed && !creatureCheck && checkCreatureVectorIndex == -1 && useCount == 0 && this.health == health
    {
      removed, creatureCheck, checkCreatureVectorIndex, useCount := false, false, -1, 0;
      this.health := health;
    }
  }

  /** What the code behind a creature's turn may do, to any creature; `slot` is the random number drawn. */
  datatype Action =
    | AddCheck(creature: Creature, slot: int)
    | RemoveCheck(creature: Creature)
    | SetHealth(creature: Creature, health: int)
    | SetRemoved(creature: Creature)

  /** Nothing in the turn takes the creature off the checks, kills it if it is alive or wakes it if it is dead. */
  predicate Spares(actions: seq<Action>, c: Creature, alive: bool) {
    forall i :: 0 <= i < |actions| && actions[i].creature == c ==>
      !actions[i].RemoveCheck? && (actions[i].SetHealth? ==> (actions[i].health > 0) == alive)
  }

  /** Nothing in the turn puts the creature on the checks. */
  predicate Ignores(actions: seq<Action>, c: Creature) {
    forall i :: 0 <= i < |actions| ==> (actions[i].AddCheck? ==> actions[i].creature != c)
  }

  predicate IgnoresAll(turns: seq<seq<Action>>, c: Creature) {
    forall t :: 0 <= t < |turns| ==> Ignores(turns[t], c)
  }

  predicate SparesAll(turns: seq<seq<Action>>, c: Creature, alive: bool) {
    forall t :: 0 <= t < |turns| ==> Spares(turns[t], c, alive)
  }

  /** What happens in a turn; in most turns, nothing does. */
  function TurnAt(turns: seq<seq<Action>>, k: nat): seq<Action> {
    if k < |turns| then turns[k] else []
  }

  lemma TurnFacts(turns: seq<seq<Action>>, k: nat, world: set<Creature>)
    requires AllAmong(turns, world)
    ensures Among(TurnAt(turns, k), world)
    ensures forall c, alive {:trigger Spares(TurnAt(turns, k), c, alive)} :: SparesAll(turns, c, alive) ==> Spares(TurnAt(turns, k), c, alive)
    ensures forall c {:trigger Ignores(TurnAt(turns, k), c)} :: IgnoresAll(turns, c) ==> Ignores(TurnAt(turns, k), c)
  {
  }

  predicate SparedThroughout(checks: seq<seq<seq<Action>>>, c: Creature, alive: bool) {
    forall k :: 0 <= k < |checks| ==> SparesAll(checks[k], c, alive)
  }

  lemma SparedEach(checks: seq<seq<seq<Action>>>, k: int)
    requires 0 <= k < |checks|
    ensures forall c, alive {:trigger SparesAll(checks[k], c, alive)} :: SparedThroughout(checks, c, alive) ==> SparesAll(checks[k], c, alive)
  {
  }

  /** The creature is in one of the lists, and in no other. */
  predicate OnlyOnce(thoughts: seq<seq<Creature>>, k: int, c: Creature) {
    0 <= k < |thoughts| && c in thoughts[k] && forall j :: 0 <= j < |thoughts| && j != k ==> c !in thoughts[j]
  }

  predicate Among(actions: seq<Action>, world: set<Creature>) {
    forall i :: 0 <= i < |actions| ==>
      && actions[i].creature in world
      && (actions[i].AddCheck? ==> 0 <= actions[i].slot < EVENT_CREATURECOUNT)
  }

  predicate AllAmong(turns: seq<seq<Action>>, world: set<Creature>) {
    forall t :: 0 <= t < |turns| ==> Among(turns[t], world)
  }

  /** A creature has an index exactly if it lies once in the pending list or the vector of that index. */
  predicate Filed(vectors: seq<seq<Creature>>, pending: seq<Creature>, index: map<Creature, int>) {
    && |vectors| == EVENT_CREATURECOUNT
    && Forests.NoDup(pending) && (forall b :: 0 <= b < |vectors| ==> Forests.NoDup(vectors[b]))
    && (forall c :: c in index ==> -1 <= index[c] < EVENT_CREATURECOUNT)
    && (forall c :: c in index && index[c] >= 0 ==> c in pending || c in vectors[index[c]])
    && (forall c :: c in pending ==> c in index && index[c] >= 0 && c !in vectors[index[c]])
    && (forall b, i :: 0 <= b < |vectors| && 0 <= i < |vectors[b]| ==> vectors[b][i] in index && index[vectors[b][i]] == b)
  }

  function Occurrences(c: Creature, vectors: seq<seq<Creature>>): nat {
    if vectors == [] then 0 else multiset(vectors[0])[c] + Occurrences(c, vectors[1..])
  }

  lemma {:induction false} CountNoDup(s: seq<Creature>, c: Creature)
    requires Forests.NoDup(s)
    ensures multiset(s)[c] == if c in s then 1 else 0
  {
    if s != [] {
      assert s == [s[0]] + s[1..];
      CountNoDup(s[1..], c);
    }
  }

  lemma {:induction false} CountVectors(c: Creature, vectors: seq<seq<Creature>>, b: int)
    requires forall k :: 0 <= k < |vectors| ==> Forests.NoDup(vectors[k])
    requires forall k :: 0 <= k < |vectors| && k != b ==> c !in vectors[k]
    ensures Occurrences(c, vectors) == if 0 <= b < |vectors| && c in vectors[b] then 1 else 0
  {
    if vectors != [] {
      CountNoDup(vectors[0], c);
      CountVectors(c, vectors[1..], b - 1);
    }
  }

  /** A creature occurs once in all the lists together if it has an index, and not at all otherwise. */
  lemma IndexIffOnce(vectors: seq<seq<Creature>>, pending: seq<Creature>, index: map<Creature, int>, c: Creature)
    requires Filed(vectors, pending, index) && c in index
    ensures multiset(pending)[c] + Occurrences(c, vectors) == if index[c] >= 0 then 1 else 0
  {
    CountNoDup(pending, c);
    CountVectors(c, vectors, index[c]);
  }

  lemma IndexRange(vectors: seq<seq<Creature>>, pending: seq<Creature>, index: map<Creature, int>, c: Creature)
    requires Filed(vectors, pending, index) && c in index
    ensures -1 <= index[c] < EVENT_CREATURECOUNT
  {
  }

  lemma Pended(vectors: seq<seq<Creature>>, pending: seq<Creature>, index: map<Creature, int>, c: Creature, slot: int)
    requires Filed(vectors, pending, index) && c in index && index[c] == -1 && 0 <= slot < EVENT_CREATURECOUNT
    ensures Filed(vectors, pending + [c], index[c := slot])
  {
    assert c !in pending;
    assert c !in vectors[slot];
  }

  lemma FirstPending(vectors: seq<seq<Creature>>, pending: seq<Creature>, index: map<Creature, int>)
    requires Filed(vectors, pending, index) && pending != []
    ensures pending[0] in index && 0 <= index[pending[0]] < |vectors|
    ensures var b := index[pending[0]];
      Filed(vectors[b := vectors[b] + [pending[0]]], pending[1..], index)
  {
    var c, b := pending[0], index[pending[0]];
    assert pending == [c] + pending[1..];
    assert c !in pending[1..];
  }

  lemma VectorFacts(vectors: seq<seq<Creature>>, pending: seq<Creature>, index: map<Creature, int>, b: int)
    requires Filed(vectors, pending, index) && 0 <= b < |vectors|
    ensures Forests.NoDup(vectors[b])
    ensures forall i :: 0 <= i < |vectors[b]| ==> vectors[b][i] in index && index[vectors[b][i]] == b && vectors[b][i] !in pending
    ensures pending == [] ==> forall c :: c in index && index[c] == b ==> c in vectors[b]
  {
  }

  lemma Erased(vectors: seq<seq<Creature>>, pending: seq<Creature>, index: map<Creature, int>, b: int, i: int)
    requires Filed(vectors, pending, index) && 0 <= b < |vectors| && 0 <= i < |vectors[b]|
    ensures vectors[b][i] in index
    ensures Filed(vectors[b := vectors[b][..i] + vectors[b][i + 1..]], pending, index[vectors[b][i] := -1])
  {
    var s, c := vectors[b], vectors[b][i];
    assert s == s[..i] + [c] + s[i + 1..];
    assert c !in s[..i] && c !in s[i + 1..];
    assert c !in pending;
  }

  lemma InPrefix(s: seq<Creature>, k: int)
    requires Forests.NoDup(s) && 0 <= k < |s|
    ensures s[k] !in s[..k] && s[..k + 1] == s[..k] + [s[k]]
  {
  }

  /** What there is to know of a creature. */
  datatype Status = Status(removed: bool, check: bool, index: int, health: int)

  function Acted(w: map<Creature, Status>, action: Action): map<Creature, Status> {
    var c := action.creature;
    if c !in w then w
    else
      match action
      case AddCheck(_, slot) =>
        if w[c].removed then w else w[c := w[c].(check := true, index := if w[c].index >= 0 then w[c].index else slot)]
      case RemoveCheck(_) => if w[c].index == -1 then w else w[c := w[c].(check := false)]
      case SetHealth(_, health) => w[c := w[c].(health := health)]
      case SetRemoved(_) => w[c := w[c].(removed := true)]
  }

  /** What a turn does, one action after the other. */
  function AllActed(w: map<Creature, Status>, actions: seq<Action>): map<Creature, Status> {
    if actions == [] then w else Acted(AllActed(w, actions[..|actions| - 1]), actions[|actions| - 1])
  }

  lemma ActedNext(w: map<Creature, Status>, actions: seq<Action>, i: nat)
    requires i < |actions|
    ensures AllActed(w, actions[..i + 1]) == Acted(AllActed(w, actions[..i]), actions[i])
  {
    assert actions[..i + 1][..i] == actions[..i];
  }

  /** What a turn cannot do to a creature. */
  lemma {:induction false} ActedFacts(w: map<Creature, Status>, actions: seq<Action>, c: Creature)
    requires c in w
    ensures var after := AllActed(w, actions);
      && c in after
      && (w[c].index >= 0 ==> after[c].index == w[c].index)
      && (w[c].check && w[c].index >= 0 && Spares(actions, c, w[c].health > 0) ==>
            after[c].check && (after[c].health > 0) == (w[c].health > 0))
      && (Ignores(actions, c) ==> after[c].index == w[c].index && (!w[c].check ==> !after[c].check))
    decreases |actions|
  {
    if actions != [] {
      var before := actions[..|actions| - 1];
      assert forall i :: 0 <= i < |before| ==> before[i] == actions[i];
      ActedFacts(w, before, c);
    }
  }

  lemma ActedNone(w: map<Creature, Status>)
    ensures AllActed(w, []) == w
  {
  }

  /** A creature's turn: it does something, or loses its place. */
  function TurnTaken(w: map<Creature, Status>, c: Creature, actions: seq<Action>): map<Creature, Status> {
    if c !in w then w else if w[c].check then AllActed(w, actions) else w[c := w[c].(index := -1)]
  }

  predicate Thinks(w: map<Creature, Status>, c: Creature) {
    c in w && w[c].check && w[c].health > 0
  }

  /** The first k turns of a vector, and who thinks in them. */
  function TurnsTaken(w: map<Creature, Status>, vector: seq<Creature>, turns: seq<seq<Action>>, k: nat)
    : (map<Creature, Status>, seq<Creature>)
    requires k <= |vector|
  {
    if k == 0 then (w, [])
    else
      var (now, thought) := TurnsTaken(w, vector, turns, k - 1);
      (TurnTaken(now, vector[k - 1], TurnAt(turns, k - 1)), if Thinks(now, vector[k - 1]) then thought + [vector[k - 1]] else thought)
  }

  /** What a creature that is spared, or left alone, comes to in the turns of a vector. */
  lemma {:induction false} TurnsFacts(w: map<Creature, Status>, vector: seq<Creature>, turns: seq<seq<Action>>, k: nat, c: Creature)
    requires k <= |vector| && Forests.NoDup(vector) && c in w && forall x :: x in vector ==> x in w
    ensures var (now, thought) := TurnsTaken(w, vector, turns, k);
      && c in now
      && (w[c].check && w[c].index >= 0 && SparesAll(turns, c, w[c].health > 0) ==>
            && now[c].check && now[c].index == w[c].index && (now[c].health > 0) == (w[c].health > 0)
            && (c in thought <==> c in vector[..k] && now[c].health > 0))
      && (c in vector && !w[c].check && IgnoresAll(turns, c) ==>
            !now[c].check && c !in thought && (c in vector[..k] ==> now[c].index == -1))
      && (c in thought ==> c in vector[..k])
    decreases k
  {
    hide AllActed, Spares, Ignores;
    if k > 0 {
      InPrefix(vector, k - 1);
      TurnsFacts(w, vector, turns, k - 1, c);
      TurnsFacts(w, vector, turns, k - 1, vector[k - 1]);
      var (now, thought) := TurnsTaken(w, vector, turns, k - 1);
      if now[vector[k - 1]].check {
        SparedTurn(turns, k - 1, c);
        ActedFacts(now, TurnAt(turns, k - 1), c);
      }
    }
  }

  lemma SparedTurn(turns: seq<seq<Action>>, k: nat, c: Creature)
    ensures IgnoresAll(turns, c) ==> Ignores(TurnAt(turns, k), c)
    ensures SparesAll(turns, c, true) ==> Spares(TurnAt(turns, k), c, true)
    ensures SparesAll(turns, c, false) ==> Spares(TurnAt(turns, k), c, false)
  {
  }

  lemma {:induction false} ThoughtOnce(w: map<Creature, Status>, vector: seq<Creature>, turns: seq<seq<Action>>, k: nat)
    requires k <= |vector| && Forests.NoDup(vector)
    ensures var thought := TurnsTaken(w, vector, turns, k).1; Forests.NoDup(thought) && forall c :: c in thought ==> c in vector[..k]
    decreases k
  {
    hide TurnTaken, Thinks, TurnAt;
    if k > 0 {
      InPrefix(vector, k - 1);
      ThoughtOnce(w, vector, turns, k - 1);
    }
  }

  /** Those of a list who have the index. */
  function WithIndex(list: seq<Creature>, index: map<Creature, int>, b: int): seq<Creature> {
    if list == [] then []
    else
      var c, rest := list[|list| - 1], WithIndex(list[..|list| - 1], index, b);
      if c in index && index[c] == b then rest + [c] else rest
  }

  lemma WithIndexNext(list: seq<Creature>, index: map<Creature, int>, i: nat)
    requires i < |list|
    ensures forall b :: WithIndex(list[..i + 1], index, b)
                        == WithIndex(list[..i], index, b) + if list[i] in index && index[list[i]] == b then [list[i]] else []
  {
    assert list[..i + 1][..i] == list[..i];
  }

  lemma NoneWithIndex(index: map<Creature, int>)
    ensures forall b :: WithIndex([], index, b) == []
  {
  }

  /** The vector that is checked so many checks later. */
  function IndexAfter(last: int, checks: int): int {
    (last + checks) % EVENT_CREATURECOUNT
  }

  lemma NextIndex(start: int, k: int)
    ensures IndexAfter(IndexAfter(start, k), 1) == IndexAfter(start, k + 1)
    ensures 0 <= start < EVENT_CREATURECOUNT ==>
      IndexAfter(start, 0) == start && IndexAfter(start, 1) == if start + 1 == EVENT_CREATURECOUNT then 0 else start + 1
  {
  }

  /** Ten checks in a row meet every vector once. */
  lemma TurnOf(index: int, start: int) returns (k: int)
    requires 0 <= index < EVENT_CREATURECOUNT && 0 <= start < EVENT_CREATURECOUNT
    ensures 0 <= k < EVENT_CREATURECOUNT
    ensures forall n :: 1 <= n <= EVENT_CREATURECOUNT ==> (n == k + 1 <==> IndexAfter(start, n) == index)
  {
    k := if index > start then index - start - 1 else index - start - 1 + EVENT_CREATURECOUNT;
    forall n | 1 <= n <= EVENT_CREATURECOUNT
      ensures IndexAfter(start, n) == if start + n < EVENT_CREATURECOUNT then start + n else start + n - EVENT_CREATURECOUNT
    {
      var s: int := start + n;
      assert s % EVENT_CREATURECOUNT == if s < 10 then s else s - 10;
    }
  }

  class Game {
    const checkCreatureVectors: array<seq<Creature>>
    var toAddCheckCreatureVector: seq<Creature>
    var checkCreatureLastIndex: int
    ghost const world: set<Creature>

    constructor (ghost world: set<Creature>)
      requires forall c :: c in world ==> c.checkCreatureVectorIndex == -1 && c.useCount == 0
      ensures Valid() && this.world == world && fresh(checkCreatureVectors)
      ensures toAddCheckCreatureVector == [] && checkCreatureLastIndex == 0
    {
      this.world := world;
      checkCreatureVectors := new seq<Creature>[EVENT_CREATURECOUNT](_ => []);
      toAddCheckCreatureVector, checkCreatureLastIndex := [], 0;
    }

    ghost function Index(): map<Creature, int>
      reads world`checkCreatureVectorIndex
    {
      map c | c in world :: c.checkCreatureVectorIndex
    }

    ghost function Statuses(): map<Creature, Status>
      reads world
    {
      map c | c in world :: Status(c.removed, c.creatureCheck, c.checkCreatureVectorIndex, c.health)
    }

    lemma StatusesAre()
      ensures Statuses().Keys == world
      ensures forall c :: c in world ==> Statuses()[c] == Status(c.removed, c.creatureCheck, c.checkCreatureVectorIndex, c.health)
    {
    }

    ghost predicate Valid()
      reads this, checkCreatureVectors, world`checkCreatureVectorIndex, world`useCount
    {
      && 0 <= checkCreatureLastIndex < EVENT_CREATURECOUNT == checkCreatureVectors.Length
      && Filed(checkCreatureVectors[..], toAddCheckCreatureVector, Index())
      && (forall c :: c in world ==> c.useCount == if c.checkCreatureVectorIndex >= 0 then 1 else 0)
    }

    method AddCreatureCheck(creature: Creature, slot: int)
      requires Valid() && creature in world && 0 <= slot < EVENT_CREATURECOUNT
      modifies this`toAddCheckCreatureVector, creature`creatureCheck, creature`checkCreatureVectorIndex, creature`useCount
      ensures Valid()
      ensures creature.creatureCheck == (!creature.removed || old(creature.creatureCheck))
      ensures creature.checkCreatureVectorIndex
              == if creature.removed || old(creature.checkCreatureVectorIndex) >= 0 then old(creature.checkCreatureVectorIndex) else slot
      ensures toAddCheckCreatureVector
              == old(toAddCheckCreatureVector) + if creature.removed || old(creature.checkCreatureVectorIndex) >= 0 then [] else [creature]
      ensures Statuses() == Acted(old(Statuses()), AddCheck(creature, slot))
    {
      hide Filed;
      if creature.removed { return; }
      creature.creatureCheck := true;
      if creature.checkCreatureVectorIndex >= 0 { return; }
      IndexRange(checkCreatureVectors[..], toAddCheckCreatureVector, Index(), creature);
      Pended(checkCreatureVectors[..], toAddCheckCreatureVector, Index(), creature, slot);
      ghost var index := Index();
      toAddCheckCreatureVector := toAddCheckCreatureVector + [creature];
      creature.checkCreatureVectorIndex := slot;
      creature.useCount := creature.useCount + 1;
      assert Index() == index[creature := slot];
    }

    method RemoveCreatureCheck(creature: Creature)
      requires Valid() && creature in world
      modifies creature`creatureCheck
      ensures creature.creatureCheck == (creature.checkCreatureVectorIndex == -1 && old(creature.creatureCheck))
      ensures Statuses() == Acted(old(Statuses()), RemoveCheck(creature))
    {
      if creature.checkCreatureVectorIndex == -1 { return; }
      creature.creatureCheck := false;
    }

    /** The creature is to be checked and has a place. */
    ghost predicate Registered(c: Creature)
      reads c
    {
      c.creatureCheck && c.checkCreatureVectorIndex >= 0
    }

    /** What a turn does to all creatures. */
    method Perform(actions: seq<Action>)
      requires Valid() && Among(actions, world)
      modifies this`toAddCheckCreatureVector, world
      ensures Valid()
      ensures forall c :: c in world && old(c.checkCreatureVectorIndex) >= 0 ==>
        c.checkCreatureVectorIndex == old(c.checkCreatureVectorIndex)
      ensures forall c :: c in world && old(Registered(c)) && Spares(actions, c, old(c.health) > 0) ==>
        c.creatureCheck && (c.health > 0) == (old(c.health) > 0)
      ensures forall c :: c in world && Ignores(actions, c) ==>
        c.checkCreatureVectorIndex == old(c.checkCreatureVectorIndex) && (!old(c.creatureCheck) ==> !c.creatureCheck)
      ensures Statuses() == AllActed(old(Statuses()), actions)
    {
      hide Filed, AllActed, Spares, Ignores;
      ghost var was := Statuses();
      ActedNone(was);
      for i := 0 to |actions|
        invariant Valid() && Statuses() == AllActed(was, actions[..i])
      {
        ActedNext(was, actions, i);
        Act(actions[i]);
      }
      assert actions[..|actions|] == actions;
      forall c | c in world
        ensures was[c].index >= 0 ==> c.checkCreatureVectorIndex == was[c].index
        ensures was[c].check && was[c].index >= 0 && Spares(actions, c, was[c].health > 0) ==>
          c.creatureCheck && (c.health > 0) == (was[c].health > 0)
        ensures Ignores(actions, c) ==> c.checkCreatureVectorIndex == was[c].index && (!was[c].check ==> !c.creatureCheck)
      {
        ActedFacts(was, actions, c);
        assert Statuses()[c] == AllActed(was, actions)[c];
      }
    }

    method Act(action: Action)
      requires Valid() && action.creature in world && (action.AddCheck? ==> 0 <= action.slot < EVENT_CREATURECOUNT)
      modifies this`toAddCheckCreatureVector, world
      ensures Valid() && Statuses() == Acted(old(Statuses()), action)
    {
      hide Filed;
      match action
      case AddCheck(c, slot) => AddCreatureCheck(c, slot);
      case RemoveCheck(c) => RemoveCreatureCheck(c);
      case SetHealth(c, health) => c.health := health;
      case SetRemoved(c) => c.removed := true;
    }

    /** Moves the pending creatures to their vectors. */
    method AddPending()
      requires Valid()
      modifies this`toAddCheckCreatureVector, checkCreatureVectors
      ensures Valid() && toAddCheckCreatureVector == []
      ensures forall b :: 0 <= b < EVENT_CREATURECOUNT ==>
        checkCreatureVectors[b] == old(checkCreatureVectors[b]) + WithIndex(old(toAddCheckCreatureVector), Index(), b)
    {
      hide Filed, WithIndex;
      var i := 0;
      assert toAddCheckCreatureVector[0..] == toAddCheckCreatureVector;
      NoneWithIndex(Index());
      while i < |toAddCheckCreatureVector|
        invariant 0 <= i <= |toAddCheckCreatureVector| && toAddCheckCreatureVector == old(toAddCheckCreatureVector)
        invariant Filed(checkCreatureVectors[..], toAddCheckCreatureVector[i..], Index())
        invariant forall b :: 0 <= b < EVENT_CREATURECOUNT ==>
          checkCreatureVectors[b] == old(checkCreatureVectors[b]) + WithIndex(toAddCheckCreatureVector[..i], Index(), b)
      {
        WithIndexNext(toAddCheckCreatureVector, Index(), i);
        var creature := toAddCheckCreatureVector[i];
        FirstPending(checkCreatureVectors[..], toAddCheckCreatureVector[i..], Index());
        var b := creature.checkCreatureVectorIndex;
        checkCreatureVectors[b] := checkCreatureVectors[b] + [creature];
        i := i + 1;
      }
      assert toAddCheckCreatureVector[i..] == [] && toAddCheckCreatureVector[..i] == old(toAddCheckCreatureVector);
      toAddCheckCreatureVector := [];
    }

    /** Drops a creature from its vector. */
    method Drop(b: int, i: nat, creature: Creature)
      requires Valid() && 0 <= b < EVENT_CREATURECOUNT && i < |checkCreatureVectors[b]|
      requires creature == checkCreatureVectors[b][i] && creature in world && creature.checkCreatureVectorIndex == b
      modifies checkCreatureVectors, creature`checkCreatureVectorIndex, creature`useCount
      ensures Valid() && creature.checkCreatureVectorIndex == -1
      ensures Statuses() == old(Statuses())[creature := old(Statuses()[creature]).(index := -1)]
      ensures |checkCreatureVectors[b]| == |old(checkCreatureVectors[b])| - 1
      ensures checkCreatureVectors[b][i..] == old(checkCreatureVectors[b][i + 1..])
    {
      hide Filed;
      ghost var index := Index();
      Erased(checkCreatureVectors[..], toAddCheckCreatureVector, index, b, i);
      creature.checkCreatureVectorIndex := -1;
      checkCreatureVectors[b] := checkCreatureVectors[b][..i] + checkCreatureVectors[b][i + 1..];
      creature.useCount := creature.useCount - 1;
      assert Index() == index[creature := -1];
    }

    /** The turn of the creature at a position; the position of the next one is returned. */
    method TakeTurn(b: int, i: nat, creature: Creature, actions: seq<Action>) returns (next: nat, thinks: bool)
      requires Valid() && Among(actions, world)
      requires 0 <= b < EVENT_CREATURECOUNT && i < |checkCreatureVectors[b]| && creature == checkCreatureVectors[b][i]
      modifies this`toAddCheckCreatureVector, checkCreatureVectors, world
      ensures Valid() && creature in world && old(creature.checkCreatureVectorIndex) == b
      ensures next <= |checkCreatureVectors[b]| && checkCreatureVectors[b][next..] == old(checkCreatureVectors[b][i + 1..])
      ensures thinks == old(creature.creatureCheck && creature.health > 0)
      ensures forall c :: c in world && old(Registered(c)) && Spares(actions, c, old(c.health) > 0) ==>
        Registered(c) && c.checkCreatureVectorIndex == old(c.checkCreatureVectorIndex) && (c.health > 0) == (old(c.health) > 0)
      ensures forall c :: c in world && !old(c.creatureCheck) && Ignores(actions, c) ==>
        !c.creatureCheck && c.checkCreatureVectorIndex == if c == creature then -1 else old(c.checkCreatureVectorIndex)
      ensures Statuses() == TurnTaken(old(Statuses()), creature, actions) && thinks == Thinks(old(Statuses()), creature)
    {
      hide Filed, AllActed;
      VectorFacts(checkCreatureVectors[..], toAddCheckCreatureVector, Index(), b);
      thinks := false;
      if creature.creatureCheck {
        thinks := creature.health > 0;
        Perform(actions);
        next := i + 1;
      } else {
        Drop(b, i, creature);
        next := i;
      }
    }

    /** The turns of all creatures of a vector. */
    method TakeTurns(b: int, turns: seq<seq<Action>>) returns (thought: seq<Creature>)
      requires Valid() && AllAmong(turns, world) && 0 <= b < EVENT_CREATURECOUNT
      modifies this`toAddCheckCreatureVector, checkCreatureVectors, world
      ensures Valid() && Forests.NoDup(thought) && forall c :: c in thought ==> c in old(checkCreatureVectors[b])
      ensures forall c :: c in world && old(Registered(c)) && SparesAll(turns, c, old(c.health) > 0) ==>
        && Registered(c) && c.checkCreatureVectorIndex == old(c.checkCreatureVectorIndex) && (c.health > 0) == (old(c.health) > 0)
        && (c in thought <==> c in old(checkCreatureVectors[b]) && c.health > 0)
      ensures forall c :: c in old(checkCreatureVectors[b]) && !old(c.creatureCheck) && IgnoresAll(turns, c) ==>
        c !in thought && c.checkCreatureVectorIndex == -1
      ensures var vector := old(checkCreatureVectors[b]); (Statuses(), thought) == TurnsTaken(old(Statuses()), vector, turns, |vector|)
    {
      hide Filed, Among, AllAmong, Spares, SparesAll, Ignores, IgnoresAll, TurnTaken, TurnAt, Thinks, Statuses;
      StatusesAre();
      VectorFacts(checkCreatureVectors[..], toAddCheckCreatureVector, Index(), b);
      thought := [];
      var i, turn := 0, 0;
      var vector := checkCreatureVectors[b];
      ghost var was := Statuses();
      while i < |checkCreatureVectors[b]|
        invariant 0 <= i <= |checkCreatureVectors[b]| && 0 <= turn <= |vector|
        invariant Valid() && checkCreatureVectors[b][i..] == vector[turn..]
        invariant (Statuses(), thought) == TurnsTaken(was, vector, turns, turn)
        decreases |vector| - turn
      {
        assert checkCreatureVectors[b][i] == vector[turn];
        TurnFacts(turns, turn, world);
        var thinks;
        i, thinks := TakeTurn(b, i, vector[turn], TurnAt(turns, turn));
        if thinks {
          thought := thought + [vector[turn]];
        }
        turn := turn + 1;
      }
      assert vector[..turn] == vector;
      ThoughtOnce(was, vector, turns, turn);
      StatusesAre();
      ghost var now := Statuses();
      forall c | c in world
        ensures c in was && c in now && now == TurnsTaken(was, vector, turns, |vector|).0
        ensures was[c].check && was[c].index >= 0 && SparesAll(turns, c, was[c].health > 0) ==>
          && now[c].check && now[c].index == was[c].index && (now[c].health > 0) == (was[c].health > 0)
          && (c in thought <==> c in vector && now[c].health > 0)
        ensures c in vector && !was[c].check && IgnoresAll(turns, c) ==> c !in thought && now[c].index == -1
      {
        TurnsFacts(was, vector, turns, |vector|, c);
      }
    }

    /** One check: the creatures that think are returned in order. The k-th turn may do what `turns` says. */
    method CheckCreatures(turns: seq<seq<Action>>) returns (thought: seq<Creature>)
      requires Valid() && AllAmong(turns, world)
      modifies this`toAddCheckCreatureVector, this`checkCreatureLastIndex, checkCreatureVectors, world
      ensures Valid() && checkCreatureLastIndex == IndexAfter(old(checkCreatureLastIndex), 1)
      ensures Forests.NoDup(thought) && forall c :: c in thought ==> c in world && old(c.checkCreatureVectorIndex) == checkCreatureLastIndex
      ensures forall c :: c in world && old(Registered(c)) && SparesAll(turns, c, old(c.health) > 0) ==>
        && Registered(c) && c.checkCreatureVectorIndex == old(c.checkCreatureVectorIndex) && (c.health > 0) == (old(c.health) > 0)
        && (c in thought <==> c.checkCreatureVectorIndex == checkCreatureLastIndex && c.health > 0)
      ensures forall c :: c in world && !old(c.creatureCheck) && old(c.checkCreatureVectorIndex) == checkCreatureLastIndex && IgnoresAll(turns, c) ==>
        c !in thought && c.checkCreatureVectorIndex == -1
      ensures 0 <= checkCreatureLastIndex < EVENT_CREATURECOUNT
      ensures var b := checkCreatureLastIndex;
        var vector := old(checkCreatureVectors[..])[b] + WithIndex(old(toAddCheckCreatureVector), old(Index()), b);
        (Statuses(), thought) == TurnsTaken(old(Statuses()), vector, turns, |vector|)
    {
      hide Filed, IndexAfter, AllAmong, SparesAll, IgnoresAll, TurnsTaken, WithIndex, Statuses;
      NextVector();
      VectorFacts(checkCreatureVectors[..], toAddCheckCreatureVector, Index(), checkCreatureLastIndex);
      thought := TakeTurns(checkCreatureLastIndex, turns);
    }

    /** Files what is pending and goes on to the next vector. */
    method NextVector()
      requires Valid()
      modifies this`toAddCheckCreatureVector, this`checkCreatureLastIndex, checkCreatureVectors
      ensures Valid() && toAddCheckCreatureVector == [] && checkCreatureLastIndex == IndexAfter(old(checkCreatureLastIndex), 1)
      ensures 0 <= checkCreatureLastIndex < EVENT_CREATURECOUNT
      ensures checkCreatureVectors[checkCreatureLastIndex]
              == old(checkCreatureVectors[..])[checkCreatureLastIndex]
                 + WithIndex(old(toAddCheckCreatureVector), Index(), checkCreatureLastIndex)
    {
      hide Filed, IndexAfter, WithIndex;
      AddPending();
      NextIndex(checkCreatureLastIndex, 0);
      checkCreatureLastIndex := checkCreatureLastIndex + 1;
      if checkCreatureLastIndex == EVENT_CREATURECOUNT {
        checkCreatureLastIndex := 0;
      }
    }

    /** Ten checks in a row: a creature that has a place, lives and stays registered thinks exactly once. */
    method TenChecks(turns: seq<seq<seq<Action>>>) returns (thoughts: seq<seq<Creature>>)
      requires Valid() && |turns| == EVENT_CREATURECOUNT
      requires forall k :: 0 <= k < |turns| ==> AllAmong(turns[k], world)
      modifies this`toAddCheckCreatureVector, this`checkCreatureLastIndex, checkCreatureVectors, world
      ensures Valid() && |thoughts| == EVENT_CREATURECOUNT && forall k :: 0 <= k < |thoughts| ==> Forests.NoDup(thoughts[k])
      ensures forall c :: c in world && old(Registered(c)) && old(c.health) > 0 && SparedThroughout(turns, c, old(c.health) > 0) ==>
        exists k :: OnlyOnce(thoughts, k, c)
    {
      hide Filed, SparedThroughout, SparesAll, IndexAfter, TurnsTaken, WithIndex, Statuses, AllAmong;
      NextIndex(checkCreatureLastIndex, 0);
      thoughts := [];
      ghost var start := checkCreatureLastIndex;
      for k := 0 to EVENT_CREATURECOUNT
        invariant Valid() && |thoughts| == k && checkCreatureLastIndex == IndexAfter(start, k)
        invariant forall j :: 0 <= j < k ==> Forests.NoDup(thoughts[j])
        invariant forall c :: c in world && old(Registered(c)) && SparedThroughout(turns, c, old(c.health) > 0) ==>
          && Registered(c) && c.checkCreatureVectorIndex == old(c.checkCreatureVectorIndex) && (c.health > 0) == (old(c.health) > 0)
          && (forall j :: 0 <= j < k ==>
                (c in thoughts[j] <==> c.checkCreatureVectorIndex == IndexAfter(start, j + 1) && c.health > 0))
      {
        NextIndex(start, k);
        SparedEach(turns, k);
        var thought := CheckCreatures(turns[k]);
        thoughts := thoughts + [thought];
      }
      forall c | c in world && old(Registered(c)) && old(c.health) > 0 && SparedThroughout(turns, c, old(c.health) > 0)
        ensures exists k :: OnlyOnce(thoughts, k, c)
      {
        IndexRange(checkCreatureVectors[..], toAddCheckCreatureVector, Index(), c);
        var k := TurnOf(c.checkCreatureVectorIndex, start);
        assert OnlyOnce(thoughts, k, c);
      }
    }
  }

}
