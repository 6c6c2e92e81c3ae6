/** The conditions of a creature, and what they add to its speed, skills and stats. */
module Conditions {

  datatype ConditionType = Haste | Paralyze | Attributes | Invisible | OtherType(number: int)

  const SKILLS: int := 7
  const STATS: int := 4

  predicate ChangesSpeed(t: ConditionType) {
    t.Haste? || t.Paralyze?
  }

  /** What identifies a condition, and what it adds. */
  datatype Entry = Entry(ctype: ConditionType, id: int, subId: int, speed: int, skills: seq<int>, stats: seq<int>)

  datatype Measure = Speed | Skill(k: int) | Stat(k: int)

  function At(s: seq<int>, k: int): int {
    if 0 <= k < |s| then s[k] else 0
  }

  function Amount(e: Entry, m: Measure): int {
    match m
    case Speed => if e.ctype.Haste? || e.ctype.Paralyze? then e.speed else 0
    case Skill(k) => if e.ctype.Attributes? then At(e.skills, k) else 0
    case Stat(k) => if e.ctype.Attributes? then At(e.stats, k) else 0
  }

  function Sum(entries: seq<Entry>, m: Measure): int {
    if entries == [] then 0 else Amount(entries[0], m) + Sum(entries[1..], m)
  }

  lemma {:induction false} SumJoin(a: seq<Entry>, b: seq<Entry>, m: Measure)
    ensures Sum(a + b, m) == Sum(a, m) + Sum(b, m)
  {
    if a == [] {
      assert a + b == b;
    } else {
      assert (a + b)[1..] == a[1..] + b;
      SumJoin(a[1..], b, m);
    }
  }

  lemma SumSplit(s: seq<Entry>, i: int, m: Measure)
    requires 0 <= i < |s|
    ensures Sum(s, m) == Sum(s[..i], m) + Amount(s[i], m) + Sum(s[i + 1..], m)
  {
    assert s == s[..i] + ([s[i]] + s[i + 1..]);
    SumJoin(s[..i], [s[i]] + s[i + 1..], m);
    assert ([s[i]] + s[i + 1..])[1..] == s[i + 1..];
  }

  lemma SumErased(s: seq<Entry>, i: int, m: Measure)
    requires 0 <= i < |s|
    ensures Sum(s[..i] + s[i + 1..], m) == Sum(s, m) - Amount(s[i], m)
  {
    SumSplit(s, i, m);
    SumJoin(s[..i], s[i + 1..], m);
  }

  lemma SumChanged(s: seq<Entry>, i: int, e: Entry, m: Measure)
    requires 0 <= i < |s|
    ensures Sum(s[i := e], m) == Sum(s, m) - Amount(s[i], m) + Amount(e, m)
  {
    SumSplit(s, i, m);
    SumSplit(s[i := e], i, m);
    assert s[i := e][..i] == s[..i] && s[i := e][i + 1..] == s[i + 1..];
  }

  lemma SumAppended(s: seq<Entry>, e: Entry, m: Measure)
    ensures Sum(s + [e], m) == Sum(s, m) + Amount(e, m)
  {
    SumJoin(s, [e], m);
  }

  /** What a creature has been given: its speed, skills and stats over the plain ones. */
  datatype Totals = Totals(speed: int, skills: seq<int>, stats: seq<int>) {
    function Of(m: Measure): int {
      match m
      case Speed => speed
      case Skill(k) => At(skills, k)
      case Stat(k) => At(stats, k)
    }
  }

  predicate MeasureOf(m: Measure, isPlayer: bool) {
    match m
    case Speed => true
    case Skill(k) => isPlayer && 0 <= k < SKILLS
    case Stat(k) => isPlayer && 0 <= k < STATS
  }

  /** The totals are what the conditions add together, over what others gave to the speed. */
  ghost predicate Balanced(entries: seq<Entry>, others: int, isPlayer: bool, totals: Totals) {
    forall m {:trigger Sum(entries, m)} :: MeasureOf(m, isPlayer) ==>
      totals.Of(m) == Sum(entries, m) + if m.Speed? then others else 0
  }

  class Condition {
    const ctype: ConditionType
    const id: int
    const subId: int
    var ticks: int
    var endTime: int
    var speedDelta: int
    var skills: seq<int>
    var skillsPercent: seq<int>
    var stats: seq<int>
    var statsPercent: seq<int>

    constructor (ctype: ConditionType, id: int, subId: int, ticks: int, speedDelta: int,
                 skills: seq<int>, skillsPercent: seq<int>, stats: seq<int>, statsPercent: seq<int>)
      requires |skills| == |skillsPercent| == SKILLS && |stats| == |statsPercent| == STATS
      ensures Sized() && View() == Entry(ctype, id, subId, speedDelta, skills, stats) && this.ticks == ticks && endTime == 0
    {
      this.ctype, this.id, this.subId, this.ticks, endTime, this.speedDelta := ctype, id, subId, ticks, 0, speedDelta;
      this.skills, this.skillsPercent, this.stats, this.statsPercent := skills, skillsPercent, stats, statsPercent;
    }

    ghost predicate Sized()
      reads this
    {
      |skills| == |skillsPercent| == SKILLS && |stats| == |statsPercent| == STATS
    }

    ghost function View(): Entry
      reads this
    {
      Entry(ctype, id, subId, speedDelta, skills, stats)
    }

    function EndTime(): int
      reads this
    {
      if ticks == -1 then 0 else endTime
    }

    /** Still to be kept at a time. */
    predicate Live(now: int)
      reads this
    {
      ticks == -1 || endTime >= now
    }

    predicate Persistent()
      reads this
    {
      ticks != -1 && id <= 0
    }

    method SetTicks(newTicks: int, now: int)
      modifies this`ticks, this`endTime
      ensures ticks == newTicks && endTime == newTicks + now
    {
      ticks := newTicks;
      endTime := ticks + now;
    }

    /** Whether another condition of the same kind takes the place of this one. */
    predicate UpdateCondition(other: Condition, now: int)
      reads this, other
    {
      && ctype == other.ctype
      && !(ticks == -1 && other.ticks > 0)
      && !(other.ticks >= 0 && EndTime() > now + other.ticks)
    }
  }

  predicate SameKey(a: Condition, b: Condition) {
    a.ctype == b.ctype && a.id == b.id && a.subId == b.subId
  }

  predicate DistinctKeys(s: seq<Condition>) {
    forall i, j :: 0 <= i < j < |s| ==> !SameKey(s[i], s[j])
  }

  ghost function Entries(s: seq<Condition>): (es: seq<Entry>)
    reads s
    ensures |es| == |s|
  {
    seq(|s|, i requires 0 <= i < |s| reads s => s[i].View())
  }

  /** What a formula or a percentage comes to at the moment a condition starts. */
  datatype Rolled = Rolled(speed: int, skills: seq<int>, stats: seq<int>)

  /** Where a percentage is given, what it comes to takes the place of the plain number. */
  function Rated(plain: seq<int>, percent: seq<int>, rolled: seq<int>): (r: seq<int>)
    ensures |r| == |plain|
    ensures forall i :: 0 <= i < |plain| ==> r[i] == if At(percent, i) != 0 then At(rolled, i) else plain[i]
  {
    seq(|plain|, i requires 0 <= i < |plain| => if At(percent, i) == 0 then plain[i] else At(rolled, i))
  }

  class Creature {
    const isPlayer: bool
    var conditions: seq<Condition>
    var varSpeed: int
    var varSkills: seq<int>
    var varStats: seq<int>
    /** What equipment and scripts have given to the speed. */
    ghost var others: int

    constructor (isPlayer: bool)
      ensures Valid() && conditions == [] && others == 0 && this.isPlayer == isPlayer
    {
      this.isPlayer := isPlayer;
      conditions, varSpeed, others := [], 0, 0;
      varSkills, varStats := seq(SKILLS, _ => 0), seq(STATS, _ => 0);
    }

    ghost function Given(): Totals
      reads this
    {
      Totals(varSpeed, varSkills, varStats)
    }

    ghost predicate Valid()
      reads this, conditions
    {
      && |varSkills| == SKILLS && |varStats| == STATS
      && (forall c :: c in conditions ==> c.Sized())
      && DistinctKeys(conditions)
      && Balanced(Entries(conditions), others, isPlayer, Given())
    }

    /** The totals have changed by what one entry adds and another no longer does. */
    ghost predicate Shifted(before: Totals, lost: Entry, gained: Entry)
      reads this
    {
      && |varSkills| == SKILLS && |varStats| == STATS
      && forall m {:trigger Given().Of(m)} :: MeasureOf(m, isPlayer) ==>
           Given().Of(m) == before.Of(m) - Amount(lost, m) + Amount(gained, m)
    }

    method ChangeSpeed(delta: int)
      modifies this`varSpeed
      ensures varSpeed == old(varSpeed) + delta
    {
      varSpeed := varSpeed + delta;
    }

    /** Equipment and scripts change the speed on their own account. */
    method ChangeSpeedByOther(delta: int)
      requires Valid()
      modifies this`varSpeed, this`others
      ensures Valid() && others == old(others) + delta && varSpeed == old(varSpeed) + delta
    {
      ChangeSpeed(delta);
      others := others + delta;
    }

    /** Adds to the skills, or takes off them, whatever is not zero. */
    method ChangeSkills(deltas: seq<int>, add: bool)
      requires |deltas| == |varSkills| == SKILLS
      modifies this`varSkills
      ensures |varSkills| == SKILLS
      ensures forall k :: 0 <= k < SKILLS ==> varSkills[k] == old(varSkills)[k] + if add then deltas[k] else -deltas[k]
    {
      for i := 0 to SKILLS
        invariant |varSkills| == SKILLS
        invariant forall k :: 0 <= k < SKILLS ==>
          varSkills[k] == old(varSkills)[k] + if k >= i then 0 else if add then deltas[k] else -deltas[k]
      {
        if deltas[i] != 0 {
          varSkills := varSkills[i := varSkills[i] + if add then deltas[i] else -deltas[i]];
        }
      }
    }

    method ChangeStats(deltas: seq<int>, add: bool)
      requires |deltas| == |varStats| == STATS
      modifies this`varStats
      ensures |varStats| == STATS
      ensures forall k :: 0 <= k < STATS ==> varStats[k] == old(varStats)[k] + if add then deltas[k] else -deltas[k]
    {
      for i := 0 to STATS
        invariant |varStats| == STATS
        invariant forall k :: 0 <= k < STATS ==>
          varStats[k] == old(varStats)[k] + if k >= i then 0 else if add then deltas[k] else -deltas[k]
      {
        if deltas[i] != 0 {
          varStats := varStats[i := varStats[i] + if add then deltas[i] else -deltas[i]];
        }
      }
    }

    /** Works out the percentages of a condition and gives what it adds to a player. */
    method UpdateAttributes(c: Condition, rolled: Rolled)
      requires c.Sized() && |varSkills| == |rolled.skills| == SKILLS && |varStats| == |rolled.stats| == STATS && c.ctype.Attributes?
      modifies this`varSkills, this`varStats, c`skills, c`stats
      ensures c.Sized() && Shifted(old(Given()), NOTHING, c.View())
      ensures c.skills == if isPlayer then Rated(old(c.skills), c.skillsPercent, rolled.skills) else old(c.skills)
      ensures c.stats == if isPlayer then Rated(old(c.stats), c.statsPercent, rolled.stats) else old(c.stats)
    {
      if isPlayer {
        c.skills := Rated(c.skills, c.skillsPercent, rolled.skills);
        ChangeSkills(c.skills, true);
        c.stats := Rated(c.stats, c.statsPercent, rolled.stats);
        ChangeStats(c.stats, true);
      }
    }

    /** A condition has come to amounts: the drawn ones where it leaves them open, and its own elsewhere. */
    ghost predicate Drawn(c: Condition, before: Entry, rolled: Rolled)
      requires |c.skills| == |before.skills| == SKILLS && |c.stats| == |before.stats| == STATS
      reads c
    {
      var rates := c.ctype.Attributes? && isPlayer;
      && c.speedDelta == (if ChangesSpeed(c.ctype) && before.speed == 0 then rolled.speed else before.speed)
      && (forall k :: 0 <= k < SKILLS ==>
            c.skills[k] == if rates && At(c.skillsPercent, k) != 0 then At(rolled.skills, k) else before.skills[k])
      && (forall k :: 0 <= k < STATS ==>
            c.stats[k] == if rates && At(c.statsPercent, k) != 0 then At(rolled.stats, k) else before.stats[k])
    }

    method StartCondition(c: Condition, now: int, rolled: Rolled)
      requires c.Sized() && |varSkills| == |rolled.skills| == SKILLS && |varStats| == |rolled.stats| == STATS
      modifies this`varSpeed, this`varSkills, this`varStats, c
      ensures c.Sized() && Shifted(old(Given()), NOTHING, c.View())
      ensures c.ticks == old(c.ticks) && c.endTime == if c.ticks > 0 then c.ticks + now else old(c.endTime)
      ensures Drawn(c, old(c.View()), rolled)
    {
      if c.ticks > 0 {
        c.endTime := c.ticks + now;
      }
      if ChangesSpeed(c.ctype) {
        if c.speedDelta == 0 {
          c.speedDelta := rolled.speed;
        }
        ChangeSpeed(c.speedDelta);
      } else if c.ctype.Attributes? {
        UpdateAttributes(c, rolled);
      }
    }

    method EndCondition(c: Condition)
      requires c.Sized() && |varSkills| == SKILLS && |varStats| == STATS
      modifies this`varSpeed, this`varSkills, this`varStats
      ensures Shifted(old(Given()), c.View(), NOTHING)
    {
      if ChangesSpeed(c.ctype) {
        ChangeSpeed(-c.speedDelta);
      } else if c.ctype.Attributes? {
        if isPlayer {
          ChangeSkills(c.skills, false);
          ChangeStats(c.stats, false);
        }
      }
    }

    /** What the creature has over its plain values is what its conditions add together; once the last
        has ended, nothing is left of them.
     */
    lemma Ledger()
      requires Valid()
      ensures varSpeed == others + Sum(Entries(conditions), Speed)
      ensures isPlayer ==> forall k :: 0 <= k < SKILLS ==> varSkills[k] == Sum(Entries(conditions), Skill(k))
      ensures isPlayer ==> forall k :: 0 <= k < STATS ==> varStats[k] == Sum(Entries(conditions), Stat(k))
      ensures conditions == [] ==> varSpeed == others && (isPlayer ==> forall k :: 0 <= k < SKILLS ==> varSkills[k] == 0)
    {
      var es, given := Entries(conditions), Given();
      assert given.Of(Speed) == Sum(es, Speed) + others;
      if isPlayer {
        forall k | 0 <= k < SKILLS
          ensures varSkills[k] == Sum(es, Skill(k))
        {
          assert given.Of(Skill(k)) == Sum(es, Skill(k));
        }
        forall k | 0 <= k < STATS
          ensures varStats[k] == Sum(es, Stat(k))
        {
          assert given.Of(Stat(k)) == Sum(es, Stat(k));
        }
      }
    }

    /** Whether a condition gives way to another of its kind: not if it lasts for ever and the other does not, and, unless
        it changes the speed, not if it ends later than the other will.
     */
    predicate Yields(c: Condition, other: Condition, now: int)
      reads c, other
    {
      if c.ticks == -1 then other.ticks <= 0 && (ChangesSpeed(c.ctype) || other.ticks < 0 || now + other.ticks >= 0)
      else ChangesSpeed(c.ctype) || other.ticks < 0 || c.endTime <= now + other.ticks
    }

    /** A condition has become what another of its kind is. */
    ghost predicate Replaced(c: Condition, other: Condition, rolled: Rolled)
      reads c, other
    {
      && (ChangesSpeed(c.ctype) ==> c.speedDelta == if other.speedDelta == 0 then rolled.speed else other.speedDelta)
      && (c.ctype.Attributes? ==>
            && c.skillsPercent == other.skillsPercent && c.statsPercent == other.statsPercent
            && c.skills == (if isPlayer then Rated(other.skills, other.skillsPercent, rolled.skills) else other.skills)
            && c.stats == if isPlayer then Rated(other.stats, other.statsPercent, rolled.stats) else other.stats)
    }

    /** A condition of the same kind is cast again: it may take the place of the one that is there. */
    method Refresh(c: Condition, other: Condition, now: int, rolled: Rolled)
      requires c.Sized() && other.Sized() && c != other && SameKey(c, other)
      requires |varSkills| == |rolled.skills| == SKILLS && |varStats| == |rolled.stats| == STATS
      modifies this`varSpeed, this`varSkills, this`varStats, c
      ensures c.Sized() && Shifted(old(Given()), old(c.View()), c.View())
      ensures if !old(Yields(c, other, now)) then c.View() == old(c.View()) && c.ticks == old(c.ticks) && c.endTime == old(c.endTime)
              else c.ticks == other.ticks && c.endTime == other.ticks + now && Replaced(c, other, rolled)
    {
      if ChangesSpeed(c.ctype) {
        if c.ticks == -1 && other.ticks > 0 {
          return;
        }
        c.SetTicks(other.ticks, now);
        var oldSpeedDelta := c.speedDelta;
        c.speedDelta := other.speedDelta;
        if c.speedDelta == 0 {
          c.speedDelta := rolled.speed;
        }
        var newSpeedChange := c.speedDelta - oldSpeedDelta;
        if newSpeedChange != 0 {
          ChangeSpeed(newSpeedChange);
        }
      } else if c.UpdateCondition(other, now) {
        c.SetTicks(other.ticks, now);
        if c.ctype.Attributes? {
          EndCondition(c);
          c.skills, c.skillsPercent, c.stats, c.statsPercent := other.skills, other.skillsPercent, other.stats, other.statsPercent;
          UpdateAttributes(c, rolled);
        }
      }
    }

    /** The first live condition with a key. */
    function GetCondition(ctype: ConditionType, id: int, subId: int): (r: Condition?)
      reads this
      ensures r == null ==> forall c :: c in conditions ==> !(c.ctype == ctype && c.id == id && c.subId == subId)
      ensures r != null ==> r in conditions && r.ctype == ctype && r.id == id && r.subId == subId
    {
      Find(conditions, ctype, id, subId)
    }

    /** Some condition of a type is there, not suppressed, and if it matters not over. */
    predicate HasCondition(ctype: ConditionType, checkTime: bool, now: int, suppressed: set<ConditionType>)
      reads this, conditions
    {
      ctype !in suppressed
      && exists c :: c in conditions && c.ctype == ctype && (!checkTime || c.EndTime() == 0 || c.EndTime() >= now)
    }

    /** Takes a condition off the list and takes back what it gave. */
    method EraseAt(i: nat)
      requires Valid() && i < |conditions|
      modifies this`conditions, this`varSpeed, this`varSkills, this`varStats
      ensures Valid() && conditions == old(conditions[..i] + conditions[i + 1..])
    {
      hide Balanced, Amount;
      var condition := conditions[i];
      ghost var entries, before := Entries(conditions), Given();
      conditions := conditions[..i] + conditions[i + 1..];
      assert Entries(conditions) == entries[..i] + entries[i + 1..];
      EndCondition(condition);
      ErasedBalanced(entries, i, others, isPlayer, before, Given());
      ErasedDistinct(old(conditions), i);
    }

    /** The loops that drop conditions leave the others as they are, in their order. */
    method RemoveByType(ctype: ConditionType)
      requires Valid()
      modifies this`conditions, this`varSpeed, this`varSkills, this`varStats
      ensures Valid() && conditions == Kept(old(conditions), OfType(old(conditions), ctype))
    {
      hide Valid, Kept;
      ghost var all, gone, done := conditions, OfType(conditions, ctype), 0;
      KeptNone(all, gone);
      var i := 0;
      while i < |conditions|
        invariant Valid() && 0 <= done <= |all| && i == |Kept(all[..done], gone)|
        invariant conditions == Kept(all[..done], gone) + all[done..]
        decreases |all| - done
      {
        KeptNext(all, done, gone, conditions, i);
        if conditions[i].ctype == ctype {
          EraseAt(i);
        } else {
          i := i + 1;
        }
        done := done + 1;
      }
      KeptEnd(all, done, gone, conditions);
    }

    method RemoveByTypeAndId(ctype: ConditionType, id: int)
      requires Valid()
      modifies this`conditions, this`varSpeed, this`varSkills, this`varStats
      ensures Valid() && conditions == Kept(old(conditions), OfTypeAndId(old(conditions), ctype, id))
    {
      hide Valid, Kept;
      ghost var all, gone, done := conditions, OfTypeAndId(conditions, ctype, id), 0;
      KeptNone(all, gone);
      var i := 0;
      while i < |conditions|
        invariant Valid() && 0 <= done <= |all| && i == |Kept(all[..done], gone)|
        invariant conditions == Kept(all[..done], gone) + all[done..]
        decreases |all| - done
      {
        KeptNext(all, done, gone, conditions, i);
        if conditions[i].ctype == ctype && conditions[i].id == id {
          EraseAt(i);
        } else {
          i := i + 1;
        }
        done := done + 1;
      }
      KeptEnd(all, done, gone, conditions);
    }

    /** Death ends what does not come from items and does not last for ever. */
    method Die()
      requires Valid()
      modifies this`conditions, this`varSpeed, this`varSkills, this`varStats
      ensures Valid() && conditions == Kept(old(conditions), old(Mortal(conditions)))
    {
      hide Valid, Kept;
      ghost var all, gone, done := conditions, Mortal(conditions), 0;
      KeptNone(all, gone);
      var i := 0;
      while i < |conditions|
        invariant Valid() && 0 <= done <= |all| && i == |Kept(all[..done], gone)|
        invariant conditions == Kept(all[..done], gone) + all[done..]
        decreases |all| - done
      {
        KeptNext(all, done, gone, conditions, i);
        if conditions[i].Persistent() {
          EraseAt(i);
        } else {
          i := i + 1;
        }
        done := done + 1;
      }
      KeptEnd(all, done, gone, conditions);
    }

    /** Lets time pass: exactly what is over at that time ends. */
    method ExecuteConditions(interval: int, now: int)
      requires Valid()
      modifies this`conditions, this`varSpeed, this`varSkills, this`varStats, conditions
      ensures Valid() && conditions == Kept(old(conditions), old(Over(conditions, now)))
      ensures forall c :: c in old(conditions) ==>
        c.View() == old(c.View()) && c.endTime == old(c.endTime) && c.ticks == Ticked(old(c.ticks), interval)
    {
      hide Valid, Kept, Over, Facts, TickedTo, Ticked;
      ghost var all, gone, done, was := conditions, Over(conditions, now), 0, Facts(conditions);
      KeptNone(all, gone);
      EachOnce();
      OverFacts(all, now);
      TickedNone(was, interval);
      FactsAre(all);
      var i := 0;
      while i < |conditions|
        invariant Valid() && 0 <= done <= |all| && i == |Kept(all[..done], gone)|
        invariant conditions == Kept(all[..done], gone) + all[done..]
        invariant Facts(all) == TickedTo(was, done, interval)
        decreases |all| - done
      {
        KeptNext(all, done, gone, conditions, i);
        TickedNext(was, done, interval);
        FactsAre(all);
        i := ExecuteNext(conditions[i], i, interval, now, all, done);
        done := done + 1;
      }
      KeptEnd(all, done, gone, conditions);
      KeptWhole(all, done, gone, conditions);
      TickedAll(was, interval);
      FactsAre(all);
      forall c | c in all
        ensures c.View() == old(c.View()) && c.endTime == old(c.endTime) && c.ticks == Ticked(old(c.ticks), interval)
      {
        ghost var k :| 0 <= k < |all| && all[k] == c;
        assert Facts(all)[k] == was[k].(ticks := Ticked(was[k].ticks, interval));
      }
    }

    lemma EachOnce()
      requires Valid()
      ensures forall i, j :: 0 <= i < j < |conditions| ==> conditions[i] != conditions[j]
    {
      hide Balanced;
    }

    /** One turn of it; the position of the next condition is returned. */
    method ExecuteNext(c: Condition, i: nat, interval: int, now: int, ghost all: seq<Condition>, ghost k: nat) returns (next: nat)
      requires Valid() && i < |conditions| && conditions[i] == c
      requires k < |all| && all[k] == c && forall j, l :: 0 <= j < l < |all| ==> all[j] != all[l]
      modifies this`conditions, this`varSpeed, this`varSkills, this`varStats, c`ticks
      ensures Valid() && c.ticks == Ticked(old(c.ticks), interval)
      ensures var fact := old(Facts(all))[k]; Facts(all) == old(Facts(all))[k := fact.(ticks := Ticked(fact.ticks, interval))]
      ensures if old(c.Live(now)) then next == i + 1 && conditions == old(conditions)
              else next == i && conditions == old(conditions[..i] + conditions[i + 1..])
    {
      hide Valid;
      var live := Execute(c, interval, now);
      next := i + 1;
      if !live {
        EraseAt(i);
        next := i;
      }
    }

    method Execute(c: Condition, interval: int, now: int) returns (live: bool)
      requires Valid() && c in conditions
      modifies c`ticks
      ensures Valid() && live == old(c.Live(now)) && c.ticks == Ticked(old(c.ticks), interval)
    {
      hide Balanced, DistinctKeys;
      ghost var entries := Entries(conditions);
      if c.ticks != -1 {
        c.ticks := if c.ticks - interval > 0 then c.ticks - interval else 0;
        assert Entries(conditions) == entries;
        return c.endTime >= now;
      }
      return true;
    }

    method RemoveCondition(condition: Condition)
      requires Valid()
      modifies this`conditions, this`varSpeed, this`varSkills, this`varStats
      ensures Valid() && conditions == Kept(old(conditions), {condition})
    {
      hide Balanced, Kept;
      var i := 0;
      while i < |conditions| && conditions[i] != condition
        invariant 0 <= i <= |conditions| && forall k :: 0 <= k < i ==> conditions[k] != condition
      {
        i := i + 1;
      }
      if i < |conditions| {
        KeptButOne(conditions, i);
        EraseAt(i);
      } else {
        KeptAllBut(conditions, {condition});
      }
    }

    /** An attack takes a type off the creature; `spared` are the conditions it keeps, those of a player's items. */
    method RemoveByAttacker(ctype: ConditionType, spared: set<Condition>)
      requires Valid()
      modifies this`conditions, this`varSpeed, this`varSkills, this`varStats
      ensures Valid() && conditions == Kept(old(conditions), OfType(old(conditions), ctype) - spared)
    {
      hide Valid, Kept;
      var tmpList := conditions;
      ghost var gone := {};
      KeptAll(tmpList);
      for i := 0 to |tmpList|
        invariant Valid() && conditions == Kept(tmpList, gone)
        invariant gone == set c | c in tmpList[..i] && c.ctype == ctype && c !in spared
      {
        if tmpList[i].ctype == ctype && tmpList[i] !in spared {
          KeptTwice(tmpList, gone, {tmpList[i]});
          RemoveCondition(tmpList[i]);
          gone := gone + {tmpList[i]};
        }
      }
      assert tmpList[..|tmpList|] == tmpList;
      assert gone == OfType(tmpList, ctype) - spared;
    }

    /** Some condition of a type is not over, or has no end. */
    ghost predicate Remaining(ctype: ConditionType, now: int)
      reads this, conditions
    {
      exists c :: c in conditions && c.ctype == ctype && (c.ticks == -1 || c.endTime == 0 || c.endTime >= now)
    }

    /** What a new haste ends, and a new paralysis: the other, if some of it is still live. */
    ghost function Displaced(ctype: ConditionType, now: int, suppressed: set<ConditionType>): set<Condition>
      reads this, conditions
    {
      if ctype.Paralyze? && Haste !in suppressed && Remaining(Haste, now) then OfType(conditions, Haste)
      else if ctype.Haste? && Paralyze !in suppressed && Remaining(Paralyze, now) then OfType(conditions, Paralyze)
      else {}
    }

    method OnAddCondition(ctype: ConditionType, now: int, suppressed: set<ConditionType>)
      requires Valid()
      modifies this`conditions, this`varSpeed, this`varSkills, this`varStats
      ensures Valid() && conditions == Kept(old(conditions), old(Displaced(ctype, now, suppressed)))
    {
      hide Valid;
      if ctype.Paralyze? && HasCondition(Haste, true, now, suppressed) {
        RemoveByType(Haste);
      } else if ctype.Haste? && HasCondition(Paralyze, true, now, suppressed) {
        RemoveByType(Paralyze);
      } else {
        KeptAll(conditions);
      }
    }

    /** A condition is cast on the creature; `starts` is false if one of another kind refuses to. */
    method AddCondition(condition: Condition, now: int, rolled: Rolled, starts: bool, suppressed: set<ConditionType>) returns (ok: bool)
      requires Valid() && condition !in conditions && condition.Sized() && |rolled.skills| == SKILLS && |rolled.stats| == STATS
      requires starts || !(ChangesSpeed(condition.ctype) || condition.ctype.Attributes?)
      modifies this`conditions, this`varSpeed, this`varSkills, this`varStats, conditions, condition
      ensures Valid() && ok == (starts || old(GetCondition(condition.ctype, condition.id, condition.subId)) != null)
      ensures old(GetCondition(condition.ctype, condition.id, condition.subId)) != null || !starts ==> conditions == old(conditions)
      ensures var prev := old(GetCondition(condition.ctype, condition.id, condition.subId));
        prev != null && old(Yields(prev, condition, now)) ==>
          prev.ticks == condition.ticks && prev.endTime == condition.ticks + now && Replaced(prev, condition, rolled)
      ensures var prev := old(GetCondition(condition.ctype, condition.id, condition.subId));
        && (prev != null ==> Shifted(old(Given()), old(prev.View()), prev.View()))
        && (prev == null && !starts ==> Given() == old(Given()))
        && (forall c :: c in old(conditions) && c != prev ==>
              c.View() == old(c.View()) && c.ticks == old(c.ticks) && c.endTime == old(c.endTime))
      // a new one comes to its amounts, and gives them, and takes away what it displaces
      ensures old(GetCondition(condition.ctype, condition.id, condition.subId)) == null && starts ==>
        && condition.Sized() && Drawn(condition, old(condition.View()), rolled)
        && condition.ticks == old(condition.ticks)
        && condition.endTime == if condition.ticks > 0 then condition.ticks + now else old(condition.endTime)
      ensures old(GetCondition(condition.ctype, condition.id, condition.subId)) == null && starts ==>
        forall m {:trigger Given().Of(m)} :: MeasureOf(m, isPlayer) ==>
          Given().Of(m) == old(Given()).Of(m) + Amount(condition.View(), m)
                           - Sum(Entries(Chosen(old(conditions), old(Displaced(condition.ctype, now, suppressed)))), m)
      ensures old(GetCondition(condition.ctype, condition.id, condition.subId)) == null && starts ==>
        conditions == Kept(old(conditions) + [condition], old(Displaced(condition.ctype, now, suppressed)))
    {
      var prevCond := GetCondition(condition.ctype, condition.id, condition.subId);
      if prevCond != null {
        RefreshListed(prevCond, condition, now, rolled);
        return true;
      }
      if !starts {
        return false;
      }
      AddNew(condition, now, rolled, suppressed);
      return true;
    }

    /** A condition of which there is none yet starts, and takes away what it displaces. */
    method AddNew(condition: Condition, now: int, rolled: Rolled, suppressed: set<ConditionType>)
      requires Valid() && condition !in conditions && condition.Sized() && |rolled.skills| == SKILLS && |rolled.stats| == STATS
      requires GetCondition(condition.ctype, condition.id, condition.subId) == null
      modifies this`conditions, this`varSpeed, this`varSkills, this`varStats, condition
      ensures Valid() && conditions == Kept(old(conditions) + [condition], old(Displaced(condition.ctype, now, suppressed)))
      ensures condition.Sized() && Drawn(condition, old(condition.View()), rolled)
      ensures condition.ticks == old(condition.ticks)
      ensures condition.endTime == if condition.ticks > 0 then condition.ticks + now else old(condition.endTime)
      ensures forall m {:trigger Given().Of(m)} :: MeasureOf(m, isPlayer) ==>
        Given().Of(m) == old(Given()).Of(m) + Amount(condition.View(), m)
                         - Sum(Entries(Chosen(old(conditions), old(Displaced(condition.ctype, now, suppressed)))), m)
    {
      hide Balanced, Amount, Kept, Chosen;
      ghost var gone, was, before := Displaced(condition.ctype, now, suppressed), Entries(conditions), Given();
      Push(condition, now, rolled);
      if condition.ctype.Paralyze? {
        assert Remaining(Haste, now) == old(Remaining(Haste, now));
        assert OfType(conditions, Haste) == OfType(old(conditions), Haste);
      } else if condition.ctype.Haste? {
        assert Remaining(Paralyze, now) == old(Remaining(Paralyze, now));
        assert OfType(conditions, Paralyze) == OfType(old(conditions), Paralyze);
      }
      OnAddCondition(condition.ctype, now, suppressed);
      Exchanged(old(conditions), condition, gone, was, others, isPlayer, before, Given());
    }

    method RefreshListed(c: Condition, other: Condition, now: int, rolled: Rolled)
      requires Valid() && c in conditions && other !in conditions && other.Sized() && SameKey(c, other)
      requires |rolled.skills| == SKILLS && |rolled.stats| == STATS
      modifies this`varSpeed, this`varSkills, this`varStats, c
      ensures Valid() && Shifted(old(Given()), old(c.View()), c.View())
      ensures if !old(Yields(c, other, now)) then c.View() == old(c.View()) && c.ticks == old(c.ticks) && c.endTime == old(c.endTime)
              else c.ticks == other.ticks && c.endTime == other.ticks + now && Replaced(c, other, rolled)
    {
      hide Balanced, Amount;
      ghost var i :| 0 <= i < |conditions| && conditions[i] == c;
      ghost var entries, before := Entries(conditions), Given();
      Refresh(c, other, now, rolled);
      assert Entries(conditions) == entries[i := c.View()];
      ChangedBalanced(entries, i, c.View(), others, isPlayer, before, Given());
    }

    /** Starts a condition and puts it at the end of the list. */
    method Push(condition: Condition, now: int, rolled: Rolled)
      requires Valid() && condition !in conditions && condition.Sized() && |rolled.skills| == SKILLS && |rolled.stats| == STATS
      requires GetCondition(condition.ctype, condition.id, condition.subId) == null
      modifies this`conditions, this`varSpeed, this`varSkills, this`varStats, condition
      ensures Valid() && conditions == old(conditions) + [condition]
      ensures condition.ticks == old(condition.ticks)
      ensures condition.endTime == if condition.ticks > 0 then condition.ticks + now else old(condition.endTime)
      ensures condition.Sized() && Drawn(condition, old(condition.View()), rolled)
    {
      hide Balanced, Amount;
      ghost var entries, before := Entries(conditions), Given();
      StartCondition(condition, now, rolled);
      ghost var after := Given();
      AppendedBalanced(entries, condition.View(), others, isPlayer, before, after);
      conditions := conditions + [condition];
      assert Entries(conditions) == entries + [condition.View()] && Given() == after;
    }
  }

  lemma ChangedBalanced(entries: seq<Entry>, i: int, e: Entry, others: int, isPlayer: bool, before: Totals, after: Totals)
    requires 0 <= i < |entries| && Balanced(entries, others, isPlayer, before)
    requires forall m {:trigger after.Of(m)} :: MeasureOf(m, isPlayer) ==> after.Of(m) == before.Of(m) - Amount(entries[i], m) + Amount(e, m)
    ensures Balanced(entries[i := e], others, isPlayer, after)
  {
    var changed := entries[i := e];
    forall m {:trigger Sum(changed, m)} | MeasureOf(m, isPlayer)
      ensures after.Of(m) == Sum(changed, m) + if m.Speed? then others else 0
    {
      SumChanged(entries, i, e, m);
      assert before.Of(m) == Sum(entries, m) + if m.Speed? then others else 0;
    }
  }

  lemma AppendedBalanced(entries: seq<Entry>, e: Entry, others: int, isPlayer: bool, before: Totals, after: Totals)
    requires Balanced(entries, others, isPlayer, before)
    requires forall m {:trigger after.Of(m)} :: MeasureOf(m, isPlayer) ==> after.Of(m) == before.Of(m) - Amount(NOTHING, m) + Amount(e, m)
    ensures Balanced(entries + [e], others, isPlayer, after)
  {
    var grown := entries + [e];
    forall m {:trigger Sum(grown, m)} | MeasureOf(m, isPlayer)
      ensures after.Of(m) == Sum(grown, m) + if m.Speed? then others else 0
    {
      SumAppended(entries, e, m);
      assert before.Of(m) == Sum(entries, m) + if m.Speed? then others else 0;
    }
  }

  function OfType(s: seq<Condition>, ctype: ConditionType): set<Condition> {
    set c | c in s && c.ctype == ctype
  }

  function OfTypeAndId(s: seq<Condition>, ctype: ConditionType, id: int): set<Condition> {
    set c | c in s && c.ctype == ctype && c.id == id
  }

  /** The ticks that are left after an interval; -1 stands for ever. */
  function Ticked(ticks: int, interval: int): (r: int)
    ensures ticks != -1 ==> r >= 0 && r >= ticks - interval && (r > 0 ==> r == ticks - interval)
    ensures ticks == -1 <==> r == -1
  {
    if ticks == -1 then -1 else if ticks > interval then ticks - interval else 0
  }

  /** What there is to a condition. */
  datatype Fact = Fact(entry: Entry, endTime: int, ticks: int)

  ghost function Facts(s: seq<Condition>): (r: seq<Fact>)
    reads s
    ensures |r| == |s|
  {
    seq(|s|, i requires 0 <= i < |s| reads s => Fact(s[i].View(), s[i].endTime, s[i].ticks))
  }

  lemma FactsAre(s: seq<Condition>)
    ensures forall i :: 0 <= i < |s| ==> Facts(s)[i] == Fact(s[i].View(), s[i].endTime, s[i].ticks)
  {
  }

  lemma OverFacts(s: seq<Condition>, now: int)
    ensures forall i :: 0 <= i < |s| ==> (s[i] in Over(s, now) <==> Facts(s)[i].ticks != -1 && Facts(s)[i].endTime < now)
  {
  }

  /** An interval has passed for the first so many. */
  function TickedTo(was: seq<Fact>, done: nat, interval: int): (r: seq<Fact>)
    ensures |r| == |was|
  {
    seq(|was|, i requires 0 <= i < |was| => if i < done then was[i].(ticks := Ticked(was[i].ticks, interval)) else was[i])
  }

  lemma TickedNone(was: seq<Fact>, interval: int)
    ensures TickedTo(was, 0, interval) == was
  {
  }

  lemma TickedNext(was: seq<Fact>, done: nat, interval: int)
    requires done < |was|
    ensures var now := TickedTo(was, done, interval);
      && now[done] == was[done]
      && TickedTo(was, done + 1, interval) == now[done := was[done].(ticks := Ticked(was[done].ticks, interval))]
  {
    hide Ticked;
  }

  lemma TickedAll(was: seq<Fact>, interval: int)
    ensures forall i :: 0 <= i < |was| ==> TickedTo(was, |was|, interval)[i] == was[i].(ticks := Ticked(was[i].ticks, interval))
  {
    hide Ticked;
  }

  /** What ends with the creature's death. */
  function Mortal(s: seq<Condition>): set<Condition>
    reads s
  {
    set c | c in s && c.ticks != -1 && c.id <= 0
  }

  /** What is over at a time. */
  function Over(s: seq<Condition>, now: int): set<Condition>
    reads s
  {
    set c | c in s && c.ticks != -1 && c.endTime < now
  }

  /** A list without some of its conditions. */
  function Kept(s: seq<Condition>, gone: set<Condition>): seq<Condition> {
    if s == [] then []
    else Kept(s[..|s| - 1], gone) + if s[|s| - 1] in gone then [] else [s[|s| - 1]]
  }

  /** Those of a list that are among some conditions. */
  function Chosen(s: seq<Condition>, gone: set<Condition>): seq<Condition> {
    if s == [] then []
    else Chosen(s[..|s| - 1], gone) + if s[|s| - 1] in gone then [s[|s| - 1]] else []
  }

  lemma EntriesAppend(s: seq<Condition>, c: Condition)
    ensures Entries(s + [c]) == Entries(s) + [c.View()]
  {
  }

  /** What a list adds is what stays of it and what goes. */
  lemma {:induction false} KeptAndChosen(s: seq<Condition>, gone: set<Condition>, m: Measure)
    ensures Sum(Entries(s), m) == Sum(Entries(Kept(s, gone)), m) + Sum(Entries(Chosen(s, gone)), m)
    decreases |s|
  {
    hide Entries, Amount;
    if s == [] {
      assert Entries([]) == [];
    } else {
      var front, last := s[..|s| - 1], s[|s| - 1];
      assert s == front + [last];
      KeptAndChosen(front, gone, m);
      EntriesAppend(front, last);
      SumAppended(Entries(front), last.View(), m);
      if last in gone {
        EntriesAppend(Chosen(front, gone), last);
        SumAppended(Entries(Chosen(front, gone)), last.View(), m);
        assert Kept(front, gone) + [] == Kept(front, gone);
      } else {
        EntriesAppend(Kept(front, gone), last);
        SumAppended(Entries(Kept(front, gone)), last.View(), m);
        assert Chosen(front, gone) + [] == Chosen(front, gone);
      }
    }
  }

  /** A condition comes and some go: the totals change by just that. */
  lemma Exchanged(s: seq<Condition>, c: Condition, gone: set<Condition>, was: seq<Entry>, others: int, isPlayer: bool,
                  before: Totals, after: Totals)
    requires c !in gone && Entries(s) == was && Balanced(was, others, isPlayer, before)
    requires Balanced(Entries(Kept(s + [c], gone)), others, isPlayer, after)
    ensures forall m {:trigger after.Of(m)} :: MeasureOf(m, isPlayer) ==>
      after.Of(m) == before.Of(m) + Amount(c.View(), m) - Sum(Entries(Chosen(s, gone)), m)
  {
    hide Amount, Entries;
    assert (s + [c])[..|s|] == s;
    assert Kept(s + [c], gone) == Kept(s, gone) + [c];
    EntriesAppend(Kept(s, gone), c);
    forall m {:trigger after.Of(m)} | MeasureOf(m, isPlayer)
      ensures after.Of(m) == before.Of(m) + Amount(c.View(), m) - Sum(Entries(Chosen(s, gone)), m)
    {
      KeptAndChosen(s, gone, m);
      SumAppended(Entries(Kept(s, gone)), c.View(), m);
      assert Sum(was, m) == Sum(Entries(s), m);
    }
  }

  lemma {:induction false} KeptAllBut(s: seq<Condition>, gone: set<Condition>)
    requires forall c :: c in s ==> c !in gone
    ensures Kept(s, gone) == s
  {
    if s != [] {
      KeptAllBut(s[..|s| - 1], gone);
      assert s == s[..|s| - 1] + [s[|s| - 1]];
    }
  }

  lemma KeptAll(s: seq<Condition>)
    ensures Kept(s, {}) == s
  {
    KeptAllBut(s, {});
  }

  lemma {:induction false} KeptButOne(s: seq<Condition>, i: int)
    requires DistinctKeys(s) && 0 <= i < |s|
    ensures Kept(s, {s[i]}) == s[..i] + s[i + 1..]
  {
    var t := s[..|s| - 1];
    if i == |s| - 1 {
      KeptAllBut(t, {s[i]});
    } else {
      KeptButOne(t, i);
      assert s[..i] + s[i + 1..] == t[..i] + t[i + 1..] + [s[|s| - 1]];
    }
  }

  lemma {:induction false} KeptTwice(s: seq<Condition>, a: set<Condition>, b: set<Condition>)
    ensures Kept(Kept(s, a), b) == Kept(s, a + b)
  {
    if s != [] {
      var t, c := s[..|s| - 1], s[|s| - 1];
      KeptTwice(t, a, b);
      assert Kept(t, a) + [] == Kept(t, a) && Kept(t, a + b) + [] == Kept(t, a + b);
      if c !in a {
        assert (Kept(t, a) + [c])[..|Kept(t, a)|] == Kept(t, a);
      }
    }
  }

  /** How a loop that drops conditions goes on: with the next one of the whole list. */
  lemma KeptNext(all: seq<Condition>, done: nat, gone: set<Condition>, s: seq<Condition>, i: nat)
    requires done <= |all| && s == Kept(all[..done], gone) + all[done..] && i == |Kept(all[..done], gone)| < |s|
    ensures done < |all| && s[i] == all[done]
    ensures all[done] in gone ==>
      s[..i] + s[i + 1..] == Kept(all[..done + 1], gone) + all[done + 1..] && i == |Kept(all[..done + 1], gone)|
    ensures all[done] !in gone ==> s == Kept(all[..done + 1], gone) + all[done + 1..] && i + 1 == |Kept(all[..done + 1], gone)|
  {
    hide Kept;
    KeptStep(all, done, gone);
  }

  lemma KeptWhole(all: seq<Condition>, done: nat, gone: set<Condition>, s: seq<Condition>)
    requires done <= |all| && s == Kept(all[..done], gone) + all[done..] && |Kept(all[..done], gone)| >= |s|
    ensures done == |all|
  {
    hide Kept;
  }

  lemma KeptEnd(all: seq<Condition>, done: nat, gone: set<Condition>, s: seq<Condition>)
    requires done <= |all| && s == Kept(all[..done], gone) + all[done..] && |Kept(all[..done], gone)| >= |s|
    ensures s == Kept(all, gone)
  {
    hide Kept;
    assert done == |all| && all[..done] == all;
  }

  lemma KeptNone(s: seq<Condition>, gone: set<Condition>)
    ensures Kept(s[..0], gone) == []
  {
  }

  /** A condition stays exactly if it is not among those that go. */
  lemma {:induction false} KeptExactly(s: seq<Condition>, gone: set<Condition>, c: Condition)
    ensures c in Kept(s, gone) <==> c in s && c !in gone
  {
    if s != [] {
      var t := s[..|s| - 1];
      assert s == t + [s[|s| - 1]];
      KeptExactly(t, gone, c);
    }
  }

  lemma KeptStep(s: seq<Condition>, k: nat, gone: set<Condition>)
    requires k < |s|
    ensures Kept(s[..k + 1], gone) == Kept(s[..k], gone) + if s[k] in gone then [] else [s[k]]
  {
    assert s[..k + 1][..k] == s[..k];
  }

  function Find(s: seq<Condition>, ctype: ConditionType, id: int, subId: int): (r: Condition?)
    ensures r == null ==> forall c :: c in s ==> !(c.ctype == ctype && c.id == id && c.subId == subId)
    ensures r != null ==> r in s && r.ctype == ctype && r.id == id && r.subId == subId
  {
    if s == [] then null
    else if s[0].ctype == ctype && s[0].id == id && s[0].subId == subId then s[0]
    else Find(s[1..], ctype, id, subId)
  }

  lemma ErasedBalanced(entries: seq<Entry>, i: int, others: int, isPlayer: bool, before: Totals, after: Totals)
    requires 0 <= i < |entries| && Balanced(entries, others, isPlayer, before)
    requires forall m {:trigger after.Of(m)} :: MeasureOf(m, isPlayer) ==> after.Of(m) == before.Of(m) - Amount(entries[i], m) + Amount(NOTHING, m)
    ensures Balanced(entries[..i] + entries[i + 1..], others, isPlayer, after)
  {
    var rest := entries[..i] + entries[i + 1..];
    forall m {:trigger Sum(rest, m)} | MeasureOf(m, isPlayer)
      ensures after.Of(m) == Sum(rest, m) + if m.Speed? then others else 0
    {
      SumErased(entries, i, m);
      assert before.Of(m) == Sum(entries, m) + if m.Speed? then others else 0;
    }
  }

  lemma ErasedDistinct(s: seq<Condition>, i: int)
    requires DistinctKeys(s) && 0 <= i < |s|
    ensures DistinctKeys(s[..i] + s[i + 1..])
  {
  }

  const NOTHING: Entry := Entry(OtherType(0), 0, 0, 0, [], [])
}
