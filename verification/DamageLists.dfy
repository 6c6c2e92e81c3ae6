/** Splitting an amount of damage over time into a falling list of hits. */
module DamageLists {

  function Sum(list: seq<int>): int {
    if list == [] then 0 else Sum(list[..|list| - 1]) + list[|list| - 1]
  }

  function Abs(x: int): int { if x < 0 then -x else x }

  /** No hit is stronger than the one before. */
  predicate Falling(list: seq<int>) {
    forall i, j :: 0 <= i < j < |list| ==> list[i] >= list[j]
  }

  /** How much of what the first hit leaves over should have been dealt before hits fall below i. */
  function Med(rest: int, start: int, i: int): int
    requires start > 0
  {
    ((start + 1 - i) * rest) / start
  }

  /** Whether the list for a first hit of start and a rest beyond it hits the amount exactly. */
  predicate Exact(rest: int, start: int)
    requires start > 0
  {
    rest > 0 ==> 2 * (((start - rest) * rest) / start) <= rest + 1
  }

  // ---------- Arithmetic of the curve ----------

  lemma MulMono(a: int, b: int, c: int)
    requires a <= b && c >= 0
    ensures a * c <= b * c
  {
  }

  lemma DivBounds(a: int, d: int)
    requires d > 0
    ensures (a / d) * d <= a < (a / d) * d + d
  {
  }

  /** The quotient is the only number with its bounds. */
  lemma DivUnique(a: int, d: int, q: int)
    requires d > 0 && q * d <= a < q * d + d
    ensures a / d == q
  {
    DivBounds(a, d);
    var e := a / d - q;
    assert e * d == (a / d) * d - q * d;
    assert -d < e * d < d;
    SmallMultiple(e, d);
  }

  lemma SmallMultiple(e: int, d: int)
    requires d > 0 && -d < e * d < d
    ensures e == 0
  {
    if e >= 1 { MulMono(1, e, d); } else if e <= -1 { MulMono(e, -1, d); }
  }

  lemma DivMono(a: int, b: int, d: int)
    requires d > 0 && a <= b
    ensures a / d <= b / d
  {
    DivBounds(a, d);
    DivBounds(b, d);
    var e := a / d - b / d;
    assert e * d == (a / d) * d - (b / d) * d;
    assert e * d < d;
    BelowOne(e, d);
  }

  lemma BelowOne(e: int, d: int)
    requires d > 0 && e * d < d
    ensures e <= 0
  {
    if e >= 1 { MulMono(1, e, d); }
  }

  lemma MedMono(rest: int, start: int, i: int, j: int)
    requires start > 0 && rest >= 0 && i <= j
    ensures Med(rest, start, j) <= Med(rest, start, i)
  {
    MulMono(start + 1 - j, start + 1 - i, rest);
    DivMono((start + 1 - j) * rest, (start + 1 - i) * rest, start);
  }

  lemma MedEnds(rest: int, start: int)
    requires start > 0
    ensures Med(rest, start, 1) == rest
    ensures Med(rest, start, rest + 1) == ((start - rest) * rest) / start
  {
    assert rest * start == start * rest;
    DivUnique(start * rest, start, rest);
    assert start + 1 - 1 == start && start + 1 - (rest + 1) == start - rest;
  }

  /** med * start is at most what the curve gives at i. */
  lemma MedBound(rest: int, start: int, i: int)
    requires start > 0
    ensures Med(rest, start, i) * start <= start * rest - (i - 1) * rest
  {
    DivBounds((start + 1 - i) * rest, start);
    assert (start + 1 - i) * rest == start * rest - (i - 1) * rest;
  }

  lemma HalfIsExact(rest: int, start: int)
    requires start > 0 && 2 * rest >= start
    ensures Exact(rest, start)
  {
    var x := (start - rest) * rest;
    var q := x / start;
    DivBounds(x, start);
    MulMono(start, 2 * rest, rest);
    assert 2 * x == 2 * (start * rest) - (2 * rest) * rest;
    assert (2 * q - rest) * start == 2 * (q * start) - start * rest;
    assert (2 * q - rest) * start < start;
    BelowOne(2 * q - rest, start);
  }

  lemma Products(rest: int, start: int)
    ensures (start - rest) * rest == start * rest - rest * rest
    ensures (rest + 1) * start == start * rest + start
    ensures (rest - 2) * (start - 2 * rest) == start * rest - 2 * (rest * rest) - 2 * start + 4 * rest
  {
  }

  lemma TwiceProduct(q: int, start: int)
    ensures (2 * q) * start == 2 * (q * start)
  {
  }

  /** Where the list is exact, start is not much more than twice the rest. */
  lemma ExactBound(rest: int, start: int)
    requires rest >= 2 && start > 2 * rest && Exact(rest, start)
    ensures (rest - 2) * (start - 2 * rest) < 3 * start + 2 * rest
  {
    var q := ((start - rest) * rest) / start;
    DivBounds((start - rest) * rest, start);
    MulMono(2 * q, rest + 1, start);
    TwiceProduct(q, start);
    Products(rest, start);
  }

  lemma Scale(k: int, a: int, b: int, c: int, w: int)
    requires a > 0 && b > 0 && w > 0 && k * b <= c * w && c * a < b
    ensures k * a < w
  {
    MulMono(k * b, c * w, a);
    assert (k * b) * a == (k * a) * b;
    assert (c * w) * a == (c * a) * w;
    MulMono(c * a, b - 1, w);
    assert (b - 1) * w == b * w - w;
    assert (k * a - w) * b == (k * a) * b - b * w;
    Negative(k * a - w, b);
  }

  lemma Negative(e: int, b: int)
    requires b > 0 && e * b < 0
    ensures e < 0
  {
    if e >= 0 { MulMono(0, e, b); }
  }

  /** The products of the next lemma by name. */
  lemma WeakProducts(rest: int, start: int, k: int, med: int)
    requires start > 0 && 2 * med >= 3 * k + 4 && med * start <= start * rest - k * rest
    ensures k * (3 * start + 2 * rest) <= (rest - 2) * (2 * start)
  {
    var ms, ks, kr, sr := med * start, k * start, k * rest, start * rest;
    assert 2 * ms >= 3 * ks + 4 * start by {
      MulMono(3 * k + 4, 2 * med, start);
      assert (3 * k + 4) * start == 3 * ks + 4 * start && (2 * med) * start == 2 * ms;
    }
    assert k * (3 * start + 2 * rest) == 3 * ks + 2 * kr;
    assert (rest - 2) * (2 * start) == 2 * sr - 4 * start;
  }

  /** A second hit can only be this weak. */
  lemma Weak(rest: int, start: int, k: int, med: int)
    requires rest > 0 && start > 0 && k >= 0 && Exact(rest, start)
    requires 2 * med >= 3 * k + 4 && med * start <= start * rest - k * rest
    ensures k * (start - 2 * rest) < 2 * start
  {
    WeakProducts(rest, start, k, med);
    var a, b := start - 2 * rest, 3 * start + 2 * rest;
    if a <= 0 {
      MulMono(a, 0, k);
    } else {
      MulMono(0, k, b);
      NotNegative(rest - 2, 2 * start);
      ExactBound(rest, start);
      Scale(k, a, b, rest - 2, 2 * start);
    }
  }

  lemma NotNegative(e: int, b: int)
    requires b > 0 && e * b >= 0
    ensures e >= 0
  {
    if e < 0 { MulMono(e, -1, b); }
  }

  /** A hit after the first is weak enough not to overshoot. */
  lemma HitFits(rest: int, start: int, i: int, sum: int)
    requires rest > 0 && 1 <= i <= start && Exact(rest, start)
    requires sum >= i && 2 * (Med(rest, start, i) - sum) > i
    ensures sum + i <= rest
  {
    hide Exact, Med;
    var k, med := i - 1, Med(rest, start, i);
    MedBound(rest, start, i);
    Weak(rest, start, k, med);
    var over := 2 * med + k - 2 * rest;
    OverProducts(med, k, rest, start);
    BelowTwo(over, start);
  }

  lemma OverProducts(med: int, k: int, rest: int, start: int)
    ensures k * (start - 2 * rest) == k * start - 2 * (k * rest)
    ensures (2 * med + k - 2 * rest) * start == 2 * (med * start) + k * start - 2 * (start * rest)
  {
  }

  lemma BelowTwo(e: int, d: int)
    requires d > 0 && e * d < 2 * d
    ensures e <= 1
  {
    if e >= 2 { MulMono(2, e, d); }
  }

  // ---------- ConditionDamage::generateDamageList ----------

  lemma {:induction false} SumAppend(list: seq<int>, x: int)
    ensures Sum(list + [x]) == Sum(list) + x
  {
    assert (list + [x])[..|list|] == list;
  }

  /** What holds while values down to i are dealt with; done says the ones of i are. */
  ghost predicate Tracks(list: seq<int>, start: int, rest: int, i: int, done: bool, sum: int)
    requires start > 0
  {
    && |list| > 0 && list[0] == start && Falling(list)
    && (forall k :: 1 <= k < |list| ==> i <= list[k] <= start)
    && Sum(list) == start + sum && sum >= 0 && (sum == 0 <==> |list| == 1)
    && (sum > 0 ==> sum >= list[|list| - 1])
    && 2 * sum < 2 * rest + start
    && (done && i <= start ==> 2 * (Med(rest, start, i) - sum) <= i)
    && (Exact(rest, start) ==> sum <= rest)
    && (!Exact(rest, start) && (if done then i else i + 1) <= rest + 1 ==> sum > rest)
  }

  lemma TracksSum(list: seq<int>, start: int, rest: int, i: int, sum: int)
    requires start > 0 && Tracks(list, start, rest, i, false, sum)
    ensures |list| > 0 && list[0] == start && Sum(list) == start + sum && forall k :: 1 <= k < |list| ==> list[k] >= i
  {
    hide Exact, Med, Sum;
  }

  lemma NoneDealt(start: int, rest: int)
    requires start > 0 && rest > 0
    ensures Tracks([start], start, rest, start + 1, true, 0)
  {
    hide Exact, Med;
    SumAppend([], start);
    assert [] + [start] == [start];
    if rest >= start { HalfIsExact(rest, start); }
  }

  lemma NextValue(list: seq<int>, start: int, rest: int, i: int, sum: int)
    requires start > 0 && Tracks(list, start, rest, i + 1, true, sum)
    ensures Tracks(list, start, rest, i, false, sum)
  {
    hide Exact, Med, Sum;
  }

  lemma HitDealt(list: seq<int>, start: int, rest: int, i: int, sum: int)
    requires start > 0 && rest > 0 && 1 <= i <= start && Tracks(list, start, rest, i, false, sum)
    requires 2 * (Med(rest, start, i) - sum) > i
    ensures Tracks(list + [i], start, rest, i, false, sum + i)
  {
    hide Exact, Med, Sum;
    SumAppend(list, i);
    MedMono(rest, start, 1, i);
    MedEnds(rest, start);
    if Exact(rest, start) {
      if sum > 0 {
        HitFits(rest, start, i, sum);
      } else {
        FirstHitFits(rest, start, i);
      }
    }
    var next := list + [i];
    forall k, l | 0 <= k < l < |next|
      ensures next[k] >= next[l]
    {
      if l == |list| && k > 0 { assert next[k] == list[k]; }
    }
  }

  lemma FirstHitFits(rest: int, start: int, i: int)
    requires rest > 0 && 1 <= i <= start && Exact(rest, start) && 2 * Med(rest, start, i) > i
    ensures i <= rest
  {
    if i > rest {
      MedMono(rest, start, rest + 1, i);
      MedEnds(rest, start);
    }
  }

  lemma ValueDone(list: seq<int>, start: int, rest: int, i: int, sum: int)
    requires start > 0 && rest > 0 && 1 <= i <= start && Tracks(list, start, rest, i, false, sum)
    requires 2 * (Med(rest, start, i) - sum) <= i
    ensures Tracks(list, start, rest, i, true, sum)
  {
    hide Sum, Med;
    MedEnds(rest, start);
  }

  // ---------- Which list it is ----------

  /** The sum of the hits after the first that are at least i. */
  function SumFrom(list: seq<int>, i: int): int {
    if |list| <= 1 then 0
    else
      var last := list[|list| - 1];
      SumFrom(list[..|list| - 1], i) + if last >= i then last else 0
  }

  /** Down to values of i, the hits reach the curve: what is missing at a value is at most half of it. */
  ghost predicate Reaches(list: seq<int>, start: int, rest: int, i: int)
    requires start > 0
  {
    forall j :: i <= j <= start ==> 2 * (Med(rest, start, j) - SumFrom(list, j)) <= j
  }

  /** No hit was dealt without need: before it, more than half of it was missing. */
  ghost predicate Needed(list: seq<int>, start: int, rest: int)
    requires start > 0
  {
    forall k :: 1 <= k < |list| ==> 2 * (Med(rest, start, list[k]) - (Sum(list[..k]) - start)) > list[k]
  }

  /** The falling list that follows the curve of Med. */
  ghost predicate Follows(list: seq<int>, start: int, rest: int)
    requires start > 0
  {
    && |list| > 0 && list[0] == start && Falling(list) && (forall k :: 0 <= k < |list| ==> 1 <= list[k] <= start)
    && Reaches(list, start, rest, 1) && Needed(list, start, rest)
  }

  lemma SumFromAppend(list: seq<int>, x: int, i: int)
    requires |list| > 0
    ensures SumFrom(list + [x], i) == SumFrom(list, i) + if x >= i then x else 0
  {
    assert (list + [x])[..|list|] == list;
  }

  /** All hits so far are at least i. */
  lemma {:induction false} SumFromAll(list: seq<int>, i: int)
    requires |list| > 0 && forall k :: 1 <= k < |list| ==> list[k] >= i
    ensures SumFrom(list, i) == Sum(list) - list[0]
    decreases |list|
  {
    var front, last := list[..|list| - 1], list[|list| - 1];
    assert list == front + [last];
    SumAppend(front, last);
    if front != [] {
      SumFromAll(front, i);
    } else {
      assert Sum([]) == 0;
    }
  }

  /** Hits that are less than i do not count. */
  lemma {:induction false} SumFromSome(list: seq<int>, k: nat, i: int)
    requires 1 <= k <= |list| && (forall l :: 1 <= l < k ==> list[l] >= i) && (forall l :: k <= l < |list| ==> list[l] < i)
    ensures SumFrom(list, i) == Sum(list[..k]) - list[0]
    decreases |list|
  {
    if k == |list| {
      assert list[..k] == list;
      SumFromAll(list, i);
    } else {
      var front := list[..|list| - 1];
      assert front[..k] == list[..k];
      SumFromSome(front, k, i);
    }
  }

  lemma NothingReached(start: int, rest: int)
    requires start > 0
    ensures Reaches([start], start, rest, start + 1) && Needed([start], start, rest)
  {
  }

  lemma ReachesOn(list: seq<int>, start: int, rest: int, i: int)
    requires start > 0 && |list| > 0 && Reaches(list, start, rest, i + 1)
    requires (forall k :: 1 <= k < |list| ==> list[k] >= i) && list[0] == start
    requires 2 * (Med(rest, start, i) - (Sum(list) - start)) <= i
    ensures Reaches(list, start, rest, i)
  {
    hide Med, Sum, SumFrom;
    SumFromAll(list, i);
  }

  lemma HitNeeded(list: seq<int>, start: int, rest: int, i: int)
    requires start > 0 && |list| > 0 && Reaches(list, start, rest, i + 1) && Needed(list, start, rest)
    requires 2 * (Med(rest, start, i) - (Sum(list) - start)) > i
    ensures Reaches(list + [i], start, rest, i + 1) && Needed(list + [i], start, rest)
  {
    hide Med, Sum, SumFrom;
    var next := list + [i];
    forall j | i + 1 <= j <= start
      ensures SumFrom(next, j) == SumFrom(list, j)
    {
      SumFromAppend(list, i, j);
    }
    forall k | 1 <= k < |next|
      ensures 2 * (Med(rest, start, next[k]) - (Sum(next[..k]) - start)) > next[k]
    {
      assert next[..k] == list[..k];
      if k == |list| { assert list[..k] == list; }
    }
  }

  /** Two lists that follow the same curve do not part at a hit that one of them has and the other has not. */
  lemma NoPart(a: seq<int>, b: seq<int>, start: int, rest: int, k: nat)
    requires start > 0 && Follows(a, start, rest) && Follows(b, start, rest)
    requires 1 <= k < |a| && k <= |b| && a[..k] == b[..k]
    ensures k < |b| && b[k] >= a[k]
  {
    hide Med, Sum, SumFrom;
    if k == |b| || b[k] < a[k] {
      forall l | 1 <= l < k
        ensures b[l] >= a[k]
      {
        assert b[l] == b[..k][l] == a[l];
      }
      SumFromSome(b, k, a[k]);
      assert false;
    }
  }

  lemma FollowsFirst(list: seq<int>, start: int, rest: int)
    requires start > 0 && Follows(list, start, rest)
    ensures |list| > 0 && list[..1] == [start]
  {
    hide Reaches, Needed, Falling;
  }

  lemma {:induction false} SamePrefix(a: seq<int>, b: seq<int>, start: int, rest: int, k: nat)
    requires start > 0 && Follows(a, start, rest) && Follows(b, start, rest) && 1 <= k <= |a|
    ensures k <= |b| && a[..k] == b[..k]
    decreases k
  {
    hide Follows;
    if k == 1 {
      FollowsFirst(a, start, rest);
      FollowsFirst(b, start, rest);
    } else {
      SamePrefix(a, b, start, rest, k - 1);
      NoPart(a, b, start, rest, k - 1);
      NoPart(b, a, start, rest, k - 1);
      assert a[..k] == a[..k - 1] + [a[k - 1]] && b[..k] == b[..k - 1] + [b[k - 1]];
    }
  }

  /** There is only one list that follows the curve. */
  lemma FollowsOnce(a: seq<int>, b: seq<int>, start: int, rest: int)
    requires start > 0 && Follows(a, start, rest) && Follows(b, start, rest)
    ensures a == b
  {
    hide Reaches, Needed, Falling;
    SamePrefix(a, b, start, rest, |a|);
    SamePrefix(b, a, start, rest, |b|);
    assert a[..|a|] == a && b[..|b|] == b;
  }

  /** The list for a positive amount and first hit: falling, from start down to values of at
      least 1, with a sum of at least the amount. Beyond the first hit the sum stays below the
      amount plus half of start, and it is the amount exactly when Exact says so. It is the one list
      that follows the curve.
   */
  method GenerateDamageList(amount: int, start: int) returns (list: seq<int>)
    ensures start == 0 ==> list == [0]
    ensures |list| > 0 && list[0] == Abs(start) && Falling(list)
    ensures start != 0 ==> forall k :: 0 <= k < |list| ==> 1 <= list[k] <= Abs(start)
    ensures start != 0 ==> Sum(list) >= Abs(amount)
    ensures Abs(amount) <= Abs(start) ==> list == [Abs(start)]
    ensures start != 0 && Abs(amount) > Abs(start) ==>
      && 2 * Sum(list) < 2 * Abs(amount) + Abs(start)
      && (Sum(list) == Abs(amount) <==> Exact(Abs(amount) - Abs(start), Abs(start)))
      && Follows(list, Abs(start), Abs(amount) - Abs(start))
  {
    hide Tracks, Exact, Med, Sum, Reaches, Needed;
    var a, s := Abs(amount), Abs(start);
    list := [s];
    var rest: int := a - s;
    NoHits(s);
    if rest <= 0 || s == 0 { return; }
    var sum := 0;
    var i: int := s;
    NoneDealt(s, rest);
    NothingReached(s, rest);
    while i > 0
      invariant 0 <= i <= s && Tracks(list, s, rest, i + 1, true, sum)
      invariant |list| > 0 && Reaches(list, s, rest, i + 1) && Needed(list, s, rest)
    {
      var med := Med(rest, s, i);
      NextValue(list, s, rest, i, sum);
      while 2 * (med - sum) > i
        invariant Tracks(list, s, rest, i, false, sum)
        invariant |list| > 0 && Reaches(list, s, rest, i + 1) && Needed(list, s, rest)
        decreases 2 * (med - sum)
      {
        TracksSum(list, s, rest, i, sum);
        HitNeeded(list, s, rest, i);
        HitDealt(list, s, rest, i, sum);
        sum := sum + i;
        list := list + [i];
      }
      TracksSum(list, s, rest, i, sum);
      ReachesOn(list, s, rest, i);
      ValueDone(list, s, rest, i, sum);
      i := i - 1;
    }
    AllDealt(list, s, rest, sum);
  }

  lemma AllDealt(list: seq<int>, start: int, rest: int, sum: int)
    requires start > 0 && rest > 0 && Tracks(list, start, rest, 1, true, sum)
    ensures |list| > 0 && list[0] == start && Falling(list) && forall k :: 0 <= k < |list| ==> 1 <= list[k] <= start
    ensures start + rest <= Sum(list) && 2 * Sum(list) < 2 * (start + rest) + start
    ensures Sum(list) == start + rest <==> Exact(rest, start)
  {
    hide Exact, Med, Sum, Falling;
    MedEnds(rest, start);
  }

  lemma NoHits(start: int)
    ensures Sum([start]) == start
  {
    assert [start][..0] == [];
  }

  /** Half as much again as the first hit is enough for an exact list. */
  lemma EnoughIsExact(amount: int, start: int)
    requires start > 0 && 2 * (amount - start) >= start
    ensures Exact(amount - start, start)
  {
    HalfIsExact(amount - start, start);
  }

  /** A list that overshoots: 4 points of damage beyond a first hit of 25 make it 30, not 29. */
  lemma Overshoots()
    ensures !Exact(4, 25)
  {
    assert ((25 - 4) * 4) / 25 == 3;
  }

  // ---------- ConditionDamage::init ----------

  /** The first hit init chooses for itself: a twentieth of the amount, rounded up. */
  function DefaultStart(amount: int): (first: int)
    ensures first >= 1 && (amount > 0 ==> 20 * (first - 1) < amount <= 20 * first)
  {
    Max(1, (amount + 19) / 20)
  }

  function Max(a: int, b: int): int { if a < b then b else a }

  lemma DefaultStartExact(amount: int)
    requires amount > 0
    ensures var s := DefaultStart(amount);
      0 < s <= amount && (amount > s ==> Exact(amount - s, s))
  {
    var s := DefaultStart(amount);
    if amount > s { HalfIsExact(amount - s, s); }
  }

  datatype IntervalInfo = IntervalInfo(timeLeft: int, value: int, interval: int)

  function Repeat(x: IntervalInfo, n: nat): seq<IntervalInfo> {
    if n == 0 then [] else Repeat(x, n - 1) + [x]
  }

  /** The ticks after so many rounds; a sum of -1 stands for no end, and stays. */
  function Passed(ticks: int, time: int, rounds: nat): int {
    if rounds == 0 then ticks
    else
      var before := Passed(ticks, time, rounds - 1);
      if before == -1 then -1 else before + time
  }

  lemma PassedNone(ticks: int, time: int)
    ensures Passed(ticks, time, 0) == ticks
  {
  }

  lemma PassedOn(ticks: int, time: int, rounds: nat)
    ensures var before := Passed(ticks, time, rounds);
      && Passed(ticks, time, rounds + 1) == (if before == -1 then -1 else before + time)
      && (before != -1 ==> Passed(before, time, 1) == before + time)
  {
  }

  lemma OneInfo(x: IntervalInfo)
    ensures Repeat(x, 1) == [x]
  {
    assert Repeat(x, 0) == [];
  }

  function Total(list: seq<IntervalInfo>): int {
    if list == [] then 0 else Total(list[..|list| - 1]) + list[|list| - 1].value
  }

  class ConditionDamage {
    var damageList: seq<IntervalInfo>
    var ticks: int
    var minDamage: int
    var maxDamage: int
    var startDamage: int
    var periodDamage: int
    var tickInterval: int

    constructor ()
      ensures damageList == [] && ticks == 0 && startDamage == 0 && periodDamage == 0 && tickInterval == 2000
    {
      damageList, ticks, minDamage, maxDamage := [], 0, 0, 0;
      startDamage, periodDamage, tickInterval := 0, 0, 2000;
    }

    method AddDamage(rounds: int, time: int, value: int) returns (ok: bool)
      modifies this
      ensures ok <==> rounds == -1 || old(periodDamage) <= 0
      ensures startDamage == old(startDamage) && minDamage == old(minDamage) && maxDamage == old(maxDamage)
      ensures rounds == -1 ==> periodDamage == value && tickInterval == Abs(time) && ticks == -1 && damageList == old(damageList)
      ensures rounds != -1 ==> periodDamage == old(periodDamage) && tickInterval == old(tickInterval)
      ensures rounds != -1 && !ok ==> damageList == old(damageList) && ticks == old(ticks)
      ensures rounds != -1 && ok ==>
        && damageList == old(damageList) + Repeat(IntervalInfo(time, value, time), Max(0, rounds))
        && ticks == if old(ticks) == -1 then -1 else Passed(old(ticks), time, Max(0, rounds))
    {
      if rounds == -1 {
        periodDamage := value;
        tickInterval := Abs(time);
        ticks := -1;
        return true;
      }
      if periodDamage > 0 { return false; }
      var i := 0;
      while i < rounds
        invariant 0 <= i && (rounds >= 0 ==> i <= rounds) && (rounds < 0 ==> i == 0)
        invariant damageList == old(damageList) + Repeat(IntervalInfo(time, value, time), i)
        invariant unchanged(`startDamage) && unchanged(`minDamage) && unchanged(`maxDamage)
        invariant unchanged(`periodDamage) && unchanged(`tickInterval)
        invariant ticks == if old(ticks) == -1 then -1 else Passed(old(ticks), time, i)
      {
        damageList := damageList + [IntervalInfo(time, value, time)];
        if ticks != -1 { ticks := ticks + time; }
        i := i + 1;
      }
      return true;
    }

    method AddHits(list: seq<int>)
      requires damageList == [] && periodDamage == 0
      modifies this
      ensures |damageList| == |list| && Total(damageList) == -Sum(list)
      ensures forall k :: 0 <= k < |list| ==> damageList[k] == IntervalInfo(tickInterval, -list[k], tickInterval)
      ensures periodDamage == 0 && startDamage == old(startDamage) && maxDamage == old(maxDamage) && tickInterval == old(tickInterval)
      ensures ticks == Passed(old(ticks), tickInterval, |list|)
    {
      hide Sum, Total, Repeat, Passed;
      NoTotals();
      PassedNone(ticks, tickInterval);
      var i := 0;
      assert list[..0] == [];
      while i < |list|
        invariant 0 <= i <= |list| && |damageList| == i && periodDamage == 0
        invariant startDamage == old(startDamage) && maxDamage == old(maxDamage) && tickInterval == old(tickInterval)
        invariant ticks == Passed(old(ticks), tickInterval, i)
        invariant Total(damageList) == -Sum(list[..i])
        invariant forall k :: 0 <= k < i ==> damageList[k] == IntervalInfo(tickInterval, -list[k], tickInterval)
      {
        TotalAppend(damageList, IntervalInfo(tickInterval, -list[i], tickInterval));
        SumAppend(list[..i], list[i]);
        assert list[..i + 1] == list[..i] + [list[i]];
        OneInfo(IntervalInfo(tickInterval, -list[i], tickInterval));
        PassedOn(old(ticks), tickInterval, i);
        var _ := AddDamage(1, tickInterval, -list[i]);
        i := i + 1;
      }
      assert list[..|list|] == list;
    }

    /** Fills an empty damage list for an amount drawn between minDamage and maxDamage, with hits that never
        get stronger. With no first hit of its own the condition deals exactly that amount, never in one
        hit more than a twentieth of it, rounded up.
     */
    method Init(amount: int) returns (ok: bool, ghost list: seq<int>)
      requires 0 <= minDamage <= amount <= maxDamage && startDamage >= 0
      modifies this
      ensures ok <==> periodDamage != 0 || damageList != []
      ensures old(periodDamage) != 0 || old(damageList) != [] ==> damageList == old(damageList)
      ensures old(periodDamage) == 0 && old(damageList) == [] ==>
        && (amount == 0 ==> damageList == [])
        && (amount > 0 && old(startDamage) == 0 ==>
              Total(damageList) == -amount && damageList != [] && damageList[0].value == -DefaultStart(amount))
        && (amount > 0 ==> forall j, k :: 0 <= j <= k < |damageList| ==> damageList[j].value <= damageList[k].value <= -1)
        && (amount > 0 && old(startDamage) > 0 ==>
              damageList != [] && damageList[0].value == -(if old(startDamage) > maxDamage then maxDamage else old(startDamage))
              && Total(damageList) <= -amount)
        && (amount > 0 ==>
              var first := if old(startDamage) > maxDamage then maxDamage else if old(startDamage) == 0 then DefaultStart(amount) else old(startDamage);
              && startDamage == first > 0
              && (if amount > first then Follows(list, first, amount - first) else list == [first])
              && |damageList| == |list| && ticks == Passed(0, tickInterval, |list|)
              && forall k :: 0 <= k < |list| ==> damageList[k] == IntervalInfo(tickInterval, -list[k], tickInterval))
      ensures maxDamage == old(maxDamage) && periodDamage == old(periodDamage)
    {
      hide Exact, Sum, Total, DefaultStart, Follows, Passed;
      list := [];
      if periodDamage != 0 { return true, []; }
      if damageList == [] {
        ticks := 0;
        if amount != 0 {
          if startDamage > maxDamage {
            startDamage := maxDamage;
          } else if startDamage == 0 {
            startDamage := DefaultStart(amount);
            DefaultStartExact(amount);
          }
          var hits := GenerateDamageList(amount, startDamage);
          list := hits;
          SingleSum(list);
          AddHits(hits);
        }
      }
      ok := damageList != [];
    }
  }

  lemma NoTotals()
    ensures Total([]) == 0 && Sum([]) == 0
  {
  }

  lemma SingleSum(list: seq<int>)
    ensures |list| == 1 ==> Sum(list) == list[0]
  {
    if |list| == 1 {
      assert list == [list[0]];
      NoHits(list[0]);
    }
  }

  lemma TotalAppend(list: seq<IntervalInfo>, x: IntervalInfo)
    ensures Total(list + [x]) == Total(list) + x.value
  {
    assert (list + [x])[..|list|] == list;
  }
}
