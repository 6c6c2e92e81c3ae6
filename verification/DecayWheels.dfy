/** The sixteen-bucket wheel that lets items decay when their duration has run out. */
module DecayWheels {
  import Forests

  const EVENT_DECAYINTERVAL: int := 1000
  const EVENT_DECAY_BUCKETS: int := 16
  /** Durations up to here, half an interval, count as over. */
  const NEGLIGIBLE: int := (EVENT_DECAYINTERVAL - 1) / 2
  /** The longest duration the buckets can tell apart. */
  const HORIZON: int := EVENT_DECAYINTERVAL * (EVENT_DECAY_BUCKETS - 1) + NEGLIGIBLE
  /** The place of an item that waits to be filed. */
  const WAITING: int := EVENT_DECAY_BUCKETS

  /** A duration in intervals, rounded to the nearest. */
  function Rounded(d: int): int {
    (d + EVENT_DECAYINTERVAL / 2) / EVENT_DECAYINTERVAL
  }

  /** How many checks from now a bucket is the one that is checked: 1 to 16. */
  function Distance(bucket: int, last: int): int {
    (bucket + EVENT_DECAY_BUCKETS - 1 - last) % EVENT_DECAY_BUCKETS + 1
  }

  function BucketFor(duration: int, last: int): int {
    if duration > HORIZON then last else (last + 1 + Rounded(duration)) % EVENT_DECAY_BUCKETS
  }

  function AfterRound(duration: int): int {
    if duration < EVENT_DECAYINTERVAL * EVENT_DECAY_BUCKETS then 0 else duration - EVENT_DECAYINTERVAL * EVENT_DECAY_BUCKETS
  }

  /** On which of the following checks an item decays that lies so many checks away with so much left. */
  function Checks(distance: int, duration: int): int
    decreases if duration < 0 then 0 else duration
  {
    var left := AfterRound(duration);
    if left <= NEGLIGIBLE then distance
    else distance + Checks(if left <= HORIZON then Rounded(left) else EVENT_DECAY_BUCKETS, left)
  }

  lemma {:induction false} LongChecks(duration: int)
    requires duration > HORIZON
    ensures Checks(EVENT_DECAY_BUCKETS, duration) == Rounded(duration)
    decreases duration
  {
    var left := AfterRound(duration);
    if left > HORIZON {
      LongChecks(left);
    }
  }

  /** The closed form: an item filed with a duration of at least half a second decays on exactly
      this check, one later than the rounded duration unless that is beyond the horizon.
   */
  lemma FiledChecks(duration: int, last: int)
    requires duration > NEGLIGIBLE && 0 <= last < EVENT_DECAY_BUCKETS
    ensures 0 <= BucketFor(duration, last) < EVENT_DECAY_BUCKETS
    ensures Checks(Distance(BucketFor(duration, last), last), duration)
            == Term(duration)
  {
    if duration > HORIZON {
      LongChecks(duration);
    } else {
      var r := Rounded(duration);
      assert 1 <= r <= 15;
      var b := last + 1 + r;
      assert b % EVENT_DECAY_BUCKETS == if b < 16 then b else b - 16;
    }
  }

  lemma {:induction false} ChecksAtLeast(distance: int, duration: int)
    requires distance >= 1
    ensures Checks(distance, duration) >= distance
    decreases if duration < 0 then 0 else duration
  {
    var left := AfterRound(duration);
    if left > NEGLIGIBLE {
      ChecksAtLeast(if left <= HORIZON then Rounded(left) else EVENT_DECAY_BUCKETS, left);
    }
  }

  /** The check after which a freshly filed item decays. */
  function Term(duration: int): int {
    if duration > HORIZON then Rounded(duration) else Rounded(duration) + 1
  }

  lemma NextBucket(last: int)
    requires 0 <= last < EVENT_DECAY_BUCKETS
    ensures Distance((last + 1) % EVENT_DECAY_BUCKETS, last) == 1 && Distance(last, last) == EVENT_DECAY_BUCKETS
    ensures Distance((last + 1) % EVENT_DECAY_BUCKETS, (last + 1) % EVENT_DECAY_BUCKETS) == EVENT_DECAY_BUCKETS
  {
    assert (last + 1) % EVENT_DECAY_BUCKETS == if last == 15 then 0 else last + 1;
  }

  /** A check brings every item outside the scanned bucket one check nearer, without touching it. */
  lemma OtherBucketDue(place: int, last: int, duration: int)
    requires 0 <= place < EVENT_DECAY_BUCKETS && 0 <= last < EVENT_DECAY_BUCKETS
    requires place != (last + 1) % EVENT_DECAY_BUCKETS
    ensures var bucket := (last + 1) % EVENT_DECAY_BUCKETS;
      Checks(Distance(place, bucket), duration) == Checks(Distance(place, last), duration) - 1 >= 1
  {
    var bucket := (last + 1) % EVENT_DECAY_BUCKETS;
    assert bucket == if last == 15 then 0 else last + 1;
    assert Distance(place, bucket) == if place > bucket then place - bucket else place - bucket + 16;
    assert Distance(place, last) == Distance(place, bucket) + 1;
    ChecksAtLeast(Distance(place, bucket), duration);
  }

  /** An item of the scanned bucket is due exactly if next to nothing is left; otherwise its new
      place is one check nearer.
   */
  lemma ScannedBucketDue(last: int, duration: int)
    requires 0 <= last < EVENT_DECAY_BUCKETS
    ensures var bucket, left := (last + 1) % EVENT_DECAY_BUCKETS, AfterRound(duration);
      && (Checks(Distance(bucket, last), duration) == 1 <==> left <= NEGLIGIBLE)
      && (left > NEGLIGIBLE ==>
            Checks(Distance(if left <= HORIZON then (bucket + Rounded(left)) % EVENT_DECAY_BUCKETS else bucket, bucket), left)
            == Checks(Distance(bucket, last), duration) - 1 >= 1)
  {
    hide AfterRound, Distance, Rounded;
    var bucket, left := (last + 1) % EVENT_DECAY_BUCKETS, AfterRound(duration);
    NextBucket(last);
    if left > NEGLIGIBLE {
      if left <= HORIZON {
        NearerBucket(left, bucket);
        ChecksAtLeast(Rounded(left), left);
      } else {
        ChecksAtLeast(EVENT_DECAY_BUCKETS, left);
      }
    }
  }

  /** A form an item can take: its decay time in milliseconds and whether it decays to anything. */
  datatype Form = Form(decayTime: nat, decays: bool)

  /** A form that an item decays from as soon as it has taken it. */
  predicate IsFleeting(form: Form) {
    form.decays && 0 < form.decayTime <= NEGLIGIBLE
  }

  /** A form that an item keeps until its time is over. */
  predicate IsLasting(form: Form) {
    form.decays && form.decayTime > NEGLIGIBLE
  }

  /** How many of the next forms are passed at once. */
  function Fleeting(stages: seq<Form>): (n: nat)
    ensures n <= |stages| && (forall i :: 0 <= i < n ==> IsFleeting(stages[i])) && (n < |stages| ==> !IsFleeting(stages[n]))
  {
    if stages == [] || !IsFleeting(stages[0]) then 0 else 1 + Fleeting(stages[1..])
  }

  /** An item that decays comes to a form that it keeps for a time. */
  predicate Lasts(stages: seq<Form>) {
    Fleeting(stages) < |stages| && IsLasting(stages[Fleeting(stages)])
  }

  /** What is known of an item. */
  datatype Mark = Mark(decayable: bool, decaying: bool, duration: int, stages: seq<Form>)

  /** An item that has decayed: it is gone if all forms left to it were fleeting, and has the first other one otherwise. */
  predicate Transformed(now: Mark, before: Mark) {
    var n := Fleeting(before.stages);
    if n == |before.stages| then now.stages == [] && !now.decayable
    else
      var form := before.stages[n];
      && now.stages == before.stages[n + 1..] && now.decayable == (form.decayTime > 0 && form.decays)
      && (form.decayTime > 0 ==> now.duration == form.decayTime && now.decaying == form.decays)
      && (form == Form(0, false) ==> now.duration == 0 && !now.decaying)
      && (form == Form(0, true) ==>
            && now.duration == (if n == 0 then before.duration else before.stages[n - 1].decayTime)
            && now.decaying == (n == 0 && before.decaying))
  }

  /** Passing a fleeting form first. */
  lemma TransformedOn(now: Mark, before: Mark, taken: Mark)
    requires before.stages != [] && IsFleeting(before.stages[0])
    requires taken == Mark(true, false, before.stages[0].decayTime, before.stages[1..]) && Transformed(now, taken)
    ensures Transformed(now, before) && Fleeting(before.stages) == 1 + Fleeting(taken.stages) && Lasts(before.stages) == Lasts(taken.stages)
  {
    var n := Fleeting(taken.stages);
    assert before.stages[1..][n..] == before.stages[n + 1..];
    if n < |taken.stages| {
      assert before.stages[1..][n + 1..] == before.stages[n + 2..];
    }
  }

  function Repeated(x: DecayItem, n: nat): seq<DecayItem> {
    seq(n, i => x)
  }

  class DecayItem {
    var duration: int
    var decaying: bool
    /** canDecay: not removed, not unique, and of a form that decays. */
    var decayable: bool
    /** The forms it still decays to; after the last it is removed. */
    var stages: seq<Form>

    constructor (duration: int, stages: seq<Form>)
      ensures this.duration == duration && this.stages == stages && decayable && !decaying
    {
      this.duration, this.stages, decaying, decayable := duration, stages, false, true;
    }

    function Known(): Mark
      reads this
    {
      Mark(decayable, decaying, duration, stages)
    }

    /** Takes a form, which sets the duration anew and clears the mark of a decaying item. */
    method SetID(form: Form)
      modifies this`duration, this`decaying, this`decayable
      ensures decayable == (form.decayTime > 0 && form.decays)
      ensures form.decayTime > 0 ==> duration == form.decayTime && !decaying
      ensures form == Form(0, false) ==> duration == 0 && !decaying
      ensures form == Form(0, true) ==> duration == old(duration) && decaying == old(decaying)
    {
      if form.decayTime == 0 && !form.decays {
        duration, decaying := 0, false;
      }
      if form.decayTime > 0 {
        duration, decaying := form.decayTime, false;
      }
      decayable := form.decayTime > 0 && form.decays;
    }
  }

  /** The lists hold exactly the items that have a place, each once and in the list of its place. */
  predicate Filed(buckets: seq<seq<DecayItem>>, waiting: seq<DecayItem>, places: map<DecayItem, int>) {
    && |buckets| == EVENT_DECAY_BUCKETS
    && Forests.NoDup(waiting) && (forall b :: 0 <= b < |buckets| ==> Forests.NoDup(buckets[b]))
    && (forall x :: x in places ==> 0 <= places[x] <= WAITING)
    && (forall x :: x in places && places[x] == WAITING ==> x in waiting)
    && (forall x :: x in waiting ==> x in places && places[x] == WAITING)
    && (forall x :: x in places && places[x] < WAITING ==> x in buckets[places[x]])
    && (forall b, i :: 0 <= b < |buckets| && 0 <= i < |buckets[b]| ==> buckets[b][i] in places && places[buckets[b][i]] == b)
  }

  lemma Enlisted(buckets: seq<seq<DecayItem>>, waiting: seq<DecayItem>, places: map<DecayItem, int>, x: DecayItem)
    requires Filed(buckets, waiting, places)
    ensures Filed(buckets, waiting + [x], places[x := WAITING]) <==> x !in places
  {
    if x in places && places[x] == WAITING {
      var i :| 0 <= i < |waiting| && waiting[i] == x;
      assert (waiting + [x])[i] == (waiting + [x])[|waiting|];
    }
  }

  lemma FirstWaiting(buckets: seq<seq<DecayItem>>, waiting: seq<DecayItem>, places: map<DecayItem, int>)
    requires Filed(buckets, waiting, places) && waiting != []
    ensures waiting[0] in places && places[waiting[0]] == WAITING
  {
  }

  lemma NoneWaiting(buckets: seq<seq<DecayItem>>, waiting: seq<DecayItem>, places: map<DecayItem, int>)
    requires Filed(buckets, waiting, places) && waiting == []
    ensures forall x :: x in places ==> places[x] != WAITING
    ensures Filed(buckets, [], places)
  {
  }

  /** The first waiting item goes to a bucket. */
  lemma MovedToBucket(buckets: seq<seq<DecayItem>>, waiting: seq<DecayItem>, places: map<DecayItem, int>, b: int)
    requires Filed(buckets, waiting, places) && waiting != [] && 0 <= b < |buckets|
    ensures waiting[0] in places && places[waiting[0]] == WAITING
    ensures Filed(buckets[b := buckets[b] + [waiting[0]]], waiting[1..], places[waiting[0] := b])
  {
    var x := waiting[0];
    assert waiting == [x] + waiting[1..];
    assert x !in buckets[b];
  }

  /** The item at a position of a bucket leaves the wheel. */
  lemma Erased(buckets: seq<seq<DecayItem>>, waiting: seq<DecayItem>, places: map<DecayItem, int>, b: int, i: int)
    requires Filed(buckets, waiting, places) && 0 <= b < |buckets| && 0 <= i < |buckets[b]|
    ensures buckets[b][i] in places && places[buckets[b][i]] == b
    ensures Filed(buckets[b := buckets[b][..i] + buckets[b][i + 1..]], waiting, places - {buckets[b][i]})
  {
    var s, x := buckets[b], buckets[b][i];
    assert s == s[..i] + [x] + s[i + 1..];
    assert x !in s[..i] && x !in s[i + 1..];
  }

  /** An item that has no place goes to a bucket. */
  lemma Placed(buckets: seq<seq<DecayItem>>, waiting: seq<DecayItem>, places: map<DecayItem, int>, b: int, x: DecayItem)
    requires Filed(buckets, waiting, places) && 0 <= b < |buckets| && x !in places
    ensures Filed(buckets[b := buckets[b] + [x]], waiting, places[x := b])
  {
    assert x !in buckets[b];
  }

  lemma BucketFacts(buckets: seq<seq<DecayItem>>, waiting: seq<DecayItem>, places: map<DecayItem, int>, b: int)
    requires Filed(buckets, waiting, places) && 0 <= b < |buckets|
    ensures Forests.NoDup(buckets[b])
    ensures forall i :: 0 <= i < |buckets[b]| ==> buckets[b][i] in places && places[buckets[b][i]] == b
    ensures forall x :: x in places && places[x] == b ==> x in buckets[b]
  {
  }

  lemma PlaceRange(buckets: seq<seq<DecayItem>>, waiting: seq<DecayItem>, places: map<DecayItem, int>, x: DecayItem)
    requires Filed(buckets, waiting, places) && x in places
    ensures 0 <= places[x] <= WAITING
  {
  }

  /** The bucket of a shorter time is not the one that is scanned. */
  lemma NearerBucket(dur: int, bucket: int)
    requires NEGLIGIBLE < dur <= HORIZON && 0 <= bucket < EVENT_DECAY_BUCKETS
    ensures var b := (bucket + Rounded(dur)) % EVENT_DECAY_BUCKETS;
      0 <= b < EVENT_DECAY_BUCKETS && b != bucket && Distance(b, bucket) == Rounded(dur) >= 1
  {
    var r := Rounded(dur);
    assert 1 <= r <= 15;
    var b := bucket + r;
    assert b % EVENT_DECAY_BUCKETS == if b < 16 then b else b - 16;
  }

  function Times(s: seq<DecayItem>, x: DecayItem): nat {
    multiset(s)[x]
  }

  /** What a check makes of an item of the bucket it scans. */
  ghost predicate Scanned(x: DecayItem, now: Mark, places: map<DecayItem, int>, newly: seq<DecayItem>, bucket: int, before: Mark) {
    var left := AfterRound(before.duration);
    if !before.decayable then x !in places && x !in newly && now == before.(decaying := false, duration := left)
    else if left <= NEGLIGIBLE then
      && Transformed(now, before.(duration := left)) && Times(newly, x) == Fleeting(before.stages) + 1
      && (x in places <==> Lasts(before.stages)) && (x in places ==> places[x] == WAITING)
    else
      && x in places && x !in newly && now == before.(duration := left)
      && places[x] == if left <= HORIZON then (bucket + Rounded(left)) % EVENT_DECAY_BUCKETS else bucket
  }

  /** Which items a check lets decay. */
  predicate IsOver(place: int, bucket: int, decayable: bool, duration: int) {
    place == bucket && decayable && AfterRound(duration) <= NEGLIGIBLE
  }

  lemma ScannedKept(x: DecayItem, now: Mark, places: map<DecayItem, int>, places': map<DecayItem, int>,
                    newly: seq<DecayItem>, newly': seq<DecayItem>, bucket: int, before: Mark)
    requires Scanned(x, now, places, newly, bucket, before) && Times(newly, x) == Times(newly', x)
    requires (x in places <==> x in places') && (x in places ==> places'[x] == places[x])
    ensures Scanned(x, now, places', newly', bucket, before)
  {
    hide Transformed;
    assert x in newly' <==> x in multiset(newly');
    assert x in newly <==> x in multiset(newly);
  }

  /** What the scan of its bucket means for the check on which an item is due. */
  lemma ScannedDue(x: DecayItem, now: Mark, places: map<DecayItem, int>, newly: seq<DecayItem>, last: int, before: Mark)
    requires 0 <= last < EVENT_DECAY_BUCKETS && before.decayable
    requires Scanned(x, now, places, newly, (last + 1) % EVENT_DECAY_BUCKETS, before)
    ensures var bucket := (last + 1) % EVENT_DECAY_BUCKETS;
      var due := Checks(Distance(bucket, last), before.duration);
      && due >= 1 && (due == 1 <==> IsOver(bucket, bucket, before.decayable, before.duration))
      && (due > 1 ==>
            && now.decayable && now.decaying == before.decaying && now.stages == before.stages && x in places && places[x] != WAITING
            && Checks(Distance(places[x], bucket), now.duration) == due - 1)
      && (due == 1 ==>
            && x in newly && Times(newly, x) == Fleeting(before.stages) + 1
            && Transformed(now, before.(duration := AfterRound(before.duration)))
            && (x in places <==> Lasts(before.stages)) && (x in places ==> places[x] == WAITING))
  {
    hide Transformed, Lasts, AfterRound, Rounded, Distance, Checks;
    var bucket := (last + 1) % EVENT_DECAY_BUCKETS;
    ScannedBucketDue(last, before.duration);
    if Checks(Distance(bucket, last), before.duration) == 1 {
      assert x in multiset(newly);
    }
  }

  lemma RepeatedTimes(x: DecayItem, n: nat)
    ensures Times(Repeated(x, n), x) == n
  {
    if n > 0 {
      RepeatedTimes(x, n - 1);
      assert Repeated(x, n) == Repeated(x, n - 1) + [x];
    }
  }

  lemma NoTimes(s: seq<DecayItem>, x: DecayItem)
    requires x !in s
    ensures Times(s, x) == 0
  {
    assert x !in multiset(s);
  }

  ghost function Marks(s: set<DecayItem>): map<DecayItem, Mark>
    reads s
  {
    map x | x in s :: x.Known()
  }

  lemma MarksAre(s: set<DecayItem>)
    ensures Marks(s).Keys == s && forall x :: x in s ==> Marks(s)[x] == x.Known()
  {
  }

  /** How far a scan of the bucket has got: `before` and `start` are the marks and places it began with, `newly` the
      items that have decayed since. What is done is as a check leaves it, and everything else is as it was.
   */
  ghost predicate Scanning(before: map<DecayItem, Mark>, now: map<DecayItem, Mark>, start: map<DecayItem, int>,
                           places: map<DecayItem, int>, todo: seq<DecayItem>, done: nat, newly: seq<DecayItem>, bucket: int)
  {
    && before.Keys == now.Keys == start.Keys && done <= |todo|
    && (forall x :: x in start && x !in todo ==> x in places && places[x] == start[x] && now[x] == before[x])
    && (forall k :: 0 <= k < |todo| ==> todo[k] in start && start[todo[k]] == bucket)
    && (forall k :: done <= k < |todo| ==> todo[k] in places && places[todo[k]] == bucket && now[todo[k]] == before[todo[k]])
    && (forall k :: 0 <= k < done ==> Settled(todo[k], now, places, newly, bucket, before))
    && (forall i :: 0 <= i < |newly| ==> newly[i] in start && Over(newly[i], start, bucket, before) && newly[i] in todo[..done])
  }

  ghost predicate Settled(x: DecayItem, now: map<DecayItem, Mark>, places: map<DecayItem, int>, newly: seq<DecayItem>,
                          bucket: int, before: map<DecayItem, Mark>)
  {
    x in before && x in now && Scanned(x, now[x], places, newly, bucket, before[x])
  }

  ghost predicate Over(x: DecayItem, start: map<DecayItem, int>, bucket: int, before: map<DecayItem, Mark>) {
    x in start && x in before && IsOver(start[x], bucket, before[x].decayable, before[x].duration)
  }

  lemma ScanningStarts(before: map<DecayItem, Mark>, start: map<DecayItem, int>, todo: seq<DecayItem>, bucket: int)
    requires before.Keys == start.Keys && forall k :: 0 <= k < |todo| ==> todo[k] in start && start[todo[k]] == bucket
    ensures Scanning(before, before, start, start, todo, 0, [], bucket)
  {
  }

  lemma ScanningNext(before: map<DecayItem, Mark>, now: map<DecayItem, Mark>, start: map<DecayItem, int>,
                     places: map<DecayItem, int>, todo: seq<DecayItem>, done: nat, newly: seq<DecayItem>, bucket: int)
    requires Scanning(before, now, start, places, todo, done, newly, bucket) && done < |todo|
    ensures var x := todo[done];
      x in start && start[x] == bucket && x in before && x in now && x in places && places[x] == bucket && now[x] == before[x]
  {
  }

  /** What the next item adds to those that have decayed does not count for the others. */
  lemma TimesApart(todo: seq<DecayItem>, done: nat, newly: seq<DecayItem>, more: seq<DecayItem>, k: nat)
    requires done < |todo| && Forests.NoDup(todo) && k <= done
    requires forall i :: 0 <= i < |newly| ==> newly[i] in todo[..done]
    requires forall i :: 0 <= i < |more| ==> more[i] == todo[done]
    ensures Times(newly + more, todo[k]) == Times(if k < done then newly else more, todo[k])
  {
    if k < done {
      NoTimes(more, todo[k]);
    } else {
      NoTimes(newly, todo[done]);
    }
  }

  /** The next item is done, and no other has changed. */
  lemma ScanningStep(before: map<DecayItem, Mark>, now: map<DecayItem, Mark>, now': map<DecayItem, Mark>, start: map<DecayItem, int>,
                     places: map<DecayItem, int>, places': map<DecayItem, int>, todo: seq<DecayItem>, done: nat,
                     newly: seq<DecayItem>, more: seq<DecayItem>, bucket: int)
    requires Scanning(before, now, start, places, todo, done, newly, bucket) && done < |todo| && Forests.NoDup(todo)
    requires now'.Keys == now.Keys && forall y :: y in now && y != todo[done] ==> now'[y] == now[y]
    requires places'.Keys <= places.Keys && forall y :: y in places && y != todo[done] ==> y in places' && places'[y] == places[y]
    requires Settled(todo[done], now', places', more, bucket, before)
    requires forall i :: 0 <= i < |more| ==> more[i] == todo[done] && Over(todo[done], start, bucket, before)
    ensures Scanning(before, now', start, places', todo, done + 1, newly + more, bucket)
  {
    hide Scanned, Over;
    var x := todo[done];
    assert x in todo && x in todo[..done + 1];
    TimesApart(todo, done, newly, more, done);
    ScannedKept(x, now'[x], places', places', more, newly + more, bucket, before[x]);
    forall k | 0 <= k < done
      ensures Settled(todo[k], now', places', newly + more, bucket, before)
    {
      assert Settled(todo[k], now, places, newly, bucket, before);
      TimesApart(todo, done, newly, more, k);
      ScannedKept(todo[k], now[todo[k]], places, places', newly, newly + more, bucket, before[todo[k]]);
    }
    forall y | y in todo[..done]
      ensures y in todo[..done + 1]
    {
    }
  }

  /** What the end of the scan says of every item. */
  lemma ScanningEnds(before: map<DecayItem, Mark>, now: map<DecayItem, Mark>, start: map<DecayItem, int>,
                     places: map<DecayItem, int>, todo: seq<DecayItem>, newly: seq<DecayItem>, bucket: int)
    requires Scanning(before, now, start, places, todo, |todo|, newly, bucket)
    requires forall x :: x in start ==> (x in todo <==> start[x] == bucket)
    ensures before.Keys == now.Keys == start.Keys
    ensures forall x :: x in start && start[x] != bucket ==> x in places && places[x] == start[x] && now[x] == before[x]
    ensures forall x :: x in start && start[x] == bucket ==> Scanned(x, now[x], places, newly, bucket, before[x])
    ensures forall i :: 0 <= i < |newly| ==>
      var x := newly[i]; x in start && IsOver(start[x], bucket, before[x].decayable, before[x].duration)
  {
    hide Scanned, IsOver;
    forall x | x in start && start[x] == bucket
      ensures Scanned(x, now[x], places, newly, bucket, before[x])
    {
      var k :| 0 <= k < |todo| && todo[k] == x;
      assert Settled(todo[k], now, places, newly, bucket, before);
    }
    forall i | 0 <= i < |newly|
      ensures newly[i] in start && IsOver(start[newly[i]], bucket, before[newly[i]].decayable, before[newly[i]].duration)
    {
      assert Over(newly[i], start, bucket, before);
    }
  }

  class Game {
    const decayItems: array<seq<DecayItem>>
    var toDecayItems: seq<DecayItem>
    var lastBucket: int
    /** Where each item that is to decay lies: a bucket, or WAITING. */
    ghost var places: map<DecayItem, int>
    /** Every item that has decayed, in order. */
    ghost var decayed: seq<DecayItem>

    constructor ()
      ensures Valid() && decayed == [] && places == map[] && fresh(decayItems) && lastBucket == 0 && toDecayItems == []
    {
      decayItems := new seq<DecayItem>[EVENT_DECAY_BUCKETS](_ => []);
      toDecayItems, lastBucket, decayed, places := [], 0, [], map[];
    }

    ghost predicate Valid()
      reads this, decayItems, places.Keys
    {
      && decayItems.Length == EVENT_DECAY_BUCKETS && 0 <= lastBucket < EVENT_DECAY_BUCKETS
      && Filed(decayItems[..], toDecayItems, places)
      && (forall x :: x in places && places[x] == WAITING ==> x.duration > NEGLIGIBLE)
    }

    /** On which of the following checks a filed item is due. */
    ghost function Due(x: DecayItem): int
      requires x in places
      reads this, x
    {
      Checks(Distance(places[x], lastBucket), x.duration)
    }

    /** The item is filed in a bucket and can decay. */
    ghost predicate Pending(x: DecayItem)
      reads this, x
    {
      x in places && places[x] != WAITING && x.decayable
    }

    /** Puts an item on the waiting list; this leaves every item in one place exactly if it had none. */
    method Enlist(item: DecayItem)
      requires Valid() && item.duration > NEGLIGIBLE
      modifies this`toDecayItems, this`places, item`decaying
      ensures toDecayItems == old(toDecayItems) + [item] && places == old(places)[item := WAITING] && item.decaying
      ensures Valid() <==> item !in old(places)
    {
      hide Filed;
      Enlisted(decayItems[..], toDecayItems, places, item);
      item.decaying := true;
      toDecayItems := toDecayItems + [item];
      places := places[item := WAITING];
    }

    method StartDecay(item: DecayItem)
      requires Valid() && (item in places ==> item.decaying)
      modifies this`toDecayItems, this`places, this`decayed, item
      ensures Valid() && (item in places ==> item.decaying)
      ensures !old(item.decayable) || old(item.decaying)
        ==> places == old(places) && decayed == old(decayed) && item.Known() == old(item.Known())
      ensures item !in old(places) && old(item.decayable && !item.decaying && item.duration > NEGLIGIBLE)
        ==> places == old(places)[item := WAITING] && decayed == old(decayed) && item.Known() == old(item.Known()).(decaying := true)
      ensures item !in old(places) && old(item.decayable && !item.decaying && item.duration <= NEGLIGIBLE)
        ==> Decayed(item, old(item.Known()), old(places), old(decayed))
      decreases |item.stages|, 1
    {
      hide Filed, Transformed, Lasts;
      if item.decayable {
        if item.decaying { return; }
        if item.duration > NEGLIGIBLE {
          Enlist(item);
        } else {
          InternalDecayItem(item);
        }
      }
    }

    /** The item, which had no place, has decayed once for every form it has passed, and nothing else has. It waits if
        its new form lasts, and has no place otherwise.
     */
    ghost predicate Decayed(item: DecayItem, before: Mark, places0: map<DecayItem, int>, decayed0: seq<DecayItem>)
      reads this, item
    {
      && Transformed(item.Known(), before)
      && decayed == decayed0 + Repeated(item, Fleeting(before.stages) + 1)
      && places == if Lasts(before.stages) then places0[item := WAITING] else places0
    }

    /** The item takes its next form, or is removed after the last. */
    method InternalDecayItem(item: DecayItem)
      requires Valid() && item !in places
      modifies this`toDecayItems, this`places, this`decayed, item
      ensures Valid() && Decayed(item, old(item.Known()), old(places), old(decayed)) && (item in places ==> item.decaying)
      decreases |item.stages|, 0
    {
      hide Filed;
      ghost var before := item.Known();
      decayed := decayed + [item];
      if item.stages != [] {
        var form := item.stages[0];
        item.stages := item.stages[1..];
        item.SetID(form);
        ghost var taken := item.Known();
        StartDecay(item);
        if IsFleeting(form) {
          TransformedOn(item.Known(), before, taken);
          assert [item] + Repeated(item, Fleeting(taken.stages) + 1) == Repeated(item, Fleeting(before.stages) + 1);
        }
      } else {
        item.decayable := false;
      }
    }

    /** The places after the waiting items were filed. */
    ghost function Filing(start: map<DecayItem, int>): map<DecayItem, int>
      reads this`lastBucket, start.Keys
    {
      map x | x in start :: if start[x] == WAITING then BucketFor(x.duration, lastBucket) else start[x]
    }

    /** Files the waiting items. */
    method Cleanup()
      requires Valid()
      modifies this`toDecayItems, this`places, decayItems
      ensures Valid() && toDecayItems == []
      ensures places == Filing(old(places))
    {
      hide Filed, BucketFor;
      var i := 0;
      ghost var start := places;
      assert toDecayItems[0..] == toDecayItems;
      while i < |toDecayItems|
        invariant 0 <= i <= |toDecayItems|
        invariant Filed(decayItems[..], toDecayItems[i..], places)
        invariant places.Keys == start.Keys
        invariant forall x :: x in start && places[x] == WAITING ==> start[x] == WAITING
        invariant forall x :: x in start ==>
          places[x] == start[x] || (start[x] == WAITING && places[x] == BucketFor(x.duration, lastBucket))
      {
        var item := toDecayItems[i];
        var b := BucketFor(item.duration, lastBucket);
        FirstWaiting(decayItems[..], toDecayItems[i..], places);
        FiledChecks(item.duration, lastBucket);
        MovedToBucket(decayItems[..], toDecayItems[i..], places, b);
        decayItems[b] := decayItems[b] + [item];
        places := places[item := b];
        i := i + 1;
      }
      NoneWaiting(decayItems[..], toDecayItems[i..], places);
      toDecayItems := [];
    }

    /** One turn of the scan; the position of the next item is returned. */
    method ScanItem(bucket: int, i: nat) returns (next: nat)
      requires Valid() && 0 <= bucket < EVENT_DECAY_BUCKETS && i < |decayItems[bucket]|
      requires decayItems[bucket][i] in places && places[decayItems[bucket][i]] == bucket
      modifies this`toDecayItems, this`places, this`decayed, decayItems, decayItems[bucket][i]
      ensures Valid() && old(decayed) <= decayed
      ensures next <= |decayItems[bucket]| && decayItems[bucket][next..] == old(decayItems[bucket][i + 1..])
      ensures var x := old(decayItems[bucket][i]);
        && Scanned(x, x.Known(), places, decayed[|old(decayed)|..], bucket, old(x.Known()))
        && places.Keys <= old(places.Keys)
        && (forall y :: y in old(places) && y != x ==> y in places && places[y] == old(places)[y])
        && (forall k :: |old(decayed)| <= k < |decayed| ==> decayed[k] == x)
        && (|old(decayed)| < |decayed| ==> IsOver(bucket, bucket, old(x.decayable), old(x.duration)))
    {
      hide Filed, Transformed, Lasts;
      var item := decayItems[bucket][i];
      var decreaseTime := EVENT_DECAYINTERVAL * EVENT_DECAY_BUCKETS;
      if item.duration - decreaseTime < 0 {
        decreaseTime := item.duration;
      }
      item.duration := item.duration - decreaseTime;
      if !item.decayable {
        item.decaying := false;
        Erase(bucket, i);
        return i;
      }
      var dur := item.duration;
      if dur <= (EVENT_DECAYINTERVAL - 1) / 2 {
        TakeOut(bucket, i);
        next := i;
      } else if dur <= EVENT_DECAYINTERVAL * (EVENT_DECAY_BUCKETS - 1) + (EVENT_DECAYINTERVAL - 1) / 2 {
        MoveNearer(bucket, i, dur);
        next := i;
      } else {
        next := i + 1;
      }
    }

    /** An item of a bucket goes to the bucket of its duration. */
    method MoveNearer(bucket: int, i: nat, dur: int)
      requires Valid() && 0 <= bucket < EVENT_DECAY_BUCKETS && i < |decayItems[bucket]|
      requires NEGLIGIBLE < dur <= HORIZON
      modifies this`places, decayItems
      ensures Valid() && |decayItems[bucket]| == |old(decayItems[bucket])| - 1
      ensures decayItems[bucket][i..] == old(decayItems[bucket][i + 1..])
      ensures places == (old(places) - {old(decayItems[bucket][i])})[old(decayItems[bucket][i]) := (bucket + Rounded(dur)) % EVENT_DECAY_BUCKETS]
    {
      hide Filed;
      var item := decayItems[bucket][i];
      Erase(bucket, i);
      var newBucket := (bucket + (dur + EVENT_DECAYINTERVAL / 2) / EVENT_DECAYINTERVAL) % EVENT_DECAY_BUCKETS;
      NearerBucket(dur, bucket);
      Placed(decayItems[..], toDecayItems, places, newBucket, item);
      decayItems[newBucket] := decayItems[newBucket] + [item];
      places := places[item := newBucket];
    }

    /** An item of a bucket leaves it and decays. */
    method TakeOut(bucket: int, i: nat)
      requires Valid() && 0 <= bucket < EVENT_DECAY_BUCKETS && i < |decayItems[bucket]|
      modifies this`toDecayItems, this`places, this`decayed, decayItems, decayItems[bucket][i]
      ensures Valid() && old(decayed) <= decayed && |decayItems[bucket]| == |old(decayItems[bucket])| - 1
      ensures decayItems[bucket][i..] == old(decayItems[bucket][i + 1..])
      ensures var x := old(decayItems[bucket][i]);
        var newly := decayed[|old(decayed)|..];
        && Transformed(x.Known(), old(x.Known())) && Times(newly, x) == Fleeting(old(x.stages)) + 1
        && (forall k :: 0 <= k < |newly| ==> newly[k] == x)
        && places == if Lasts(old(x.stages)) then (old(places) - {x})[x := WAITING] else old(places) - {x}
    {
      hide Filed, Transformed, Lasts;
      var item := decayItems[bucket][i];
      Erase(bucket, i);
      ghost var stages := item.stages;
      InternalDecayItem(item);
      RepeatedTimes(item, Fleeting(stages) + 1);
      assert decayed[|old(decayed)|..] == Repeated(item, Fleeting(stages) + 1);
    }

    method Erase(bucket: int, i: nat)
      requires Valid() && 0 <= bucket < EVENT_DECAY_BUCKETS && i < |decayItems[bucket]|
      modifies this`places, decayItems
      ensures Valid()
      ensures |decayItems[bucket]| == |old(decayItems[bucket])| - 1
      ensures decayItems[bucket][..i] == old(decayItems[bucket][..i]) && decayItems[bucket][i..] == old(decayItems[bucket][i + 1..])
      ensures places == old(places) - {old(decayItems[bucket][i])}
    {
      hide Filed;
      Erased(decayItems[..], toDecayItems, places, bucket, i);
      places := places - {decayItems[bucket][i]};
      decayItems[bucket] := decayItems[bucket][..i] + decayItems[bucket][i + 1..];
    }

    /** One turn of the scan, seen from the whole bucket. */
    method ScanNext(bucket: int, i: nat, ghost before: map<DecayItem, Mark>, ghost start: map<DecayItem, int>,
                    ghost todo: seq<DecayItem>, ghost done: nat, ghost newly: seq<DecayItem>) returns (next: nat)
      requires Valid() && 0 <= bucket < EVENT_DECAY_BUCKETS && i < |decayItems[bucket]|
      requires done < |todo| && Forests.NoDup(todo) && decayItems[bucket][i..] == todo[done..]
      requires Scanning(before, Marks(start.Keys), start, places, todo, done, newly, bucket)
      modifies this`toDecayItems, this`places, this`decayed, decayItems, todo[done]
      ensures Valid() && places.Keys <= old(places.Keys) && old(decayed) <= decayed
      ensures next <= |decayItems[bucket]| && decayItems[bucket][next..] == todo[done + 1..]
      ensures Scanning(before, Marks(start.Keys), start, places, todo, done + 1, newly + decayed[|old(decayed)|..], bucket)
    {
      hide Filed, Scanned, IsOver, AfterRound, Scanning, Marks;
      ghost var now, places1, item := Marks(start.Keys), places, todo[done];
      assert decayItems[bucket][i] == item;
      ScanningNext(before, now, start, places, todo, done, newly, bucket);
      MarksAre(start.Keys);
      next := ScanItem(bucket, i);
      MarksAre(start.Keys);
      ghost var more := decayed[|old(decayed)|..];
      forall k | 0 <= k < |more|
        ensures more[k] == todo[done] && Over(todo[done], start, bucket, before)
      {
        assert more[k] == decayed[|old(decayed)| + k];
        assert IsOver(bucket, bucket, now[item].decayable, now[item].duration);
      }
      ScanningStep(before, now, Marks(start.Keys), start, places1, places, todo, done, newly, more, bucket);
    }

    /** The scan of one bucket: the items that are over decay, those that come near go to a nearer bucket. */
    method ScanBucket(bucket: int)
      requires Valid() && 0 <= bucket < EVENT_DECAY_BUCKETS
      modifies this`toDecayItems, this`places, this`decayed, decayItems, places.Keys
      ensures Valid() && places.Keys <= old(places.Keys) && old(decayed) <= decayed
      ensures forall x :: x in old(places) && old(places)[x] != bucket ==>
        x in places && places[x] == old(places)[x] && x.Known() == old(x.Known())
      ensures forall x :: x in old(places) && old(places)[x] == bucket ==>
        Scanned(x, x.Known(), places, decayed[|old(decayed)|..], bucket, old(x.Known()))
      ensures forall i :: |old(decayed)| <= i < |decayed| ==>
        var x := decayed[i];
        x in old(places) && IsOver(old(places)[x], bucket, old(x.decayable), old(x.duration))
    {
      hide Filed, Scanned, IsOver, AfterRound, Scanning, Marks;
      var i := 0;
      ghost var todo, done, start, before := decayItems[bucket], 0, places, Marks(places.Keys);
      BucketFacts(decayItems[..], toDecayItems, places, bucket);
      MarksAre(start.Keys);
      ScanningStarts(before, start, todo, bucket);
      assert decayed[|decayed|..] == [];
      while i < |decayItems[bucket]|
        invariant 0 <= i <= |decayItems[bucket]| && Valid() && places.Keys <= start.Keys
        invariant 0 <= done <= |todo| && decayItems[bucket][i..] == todo[done..]
        invariant old(decayed) <= decayed
        invariant Scanning(before, Marks(start.Keys), start, places, todo, done, decayed[|old(decayed)|..], bucket)
        decreases |todo| - done
      {
        ghost var decayed1 := decayed;
        i := ScanNext(bucket, i, before, start, todo, done, decayed[|old(decayed)|..]);
        assert decayed[|old(decayed)|..] == decayed1[|old(decayed)|..] + decayed[|decayed1|..];
        done := done + 1;
      }
      ScanningEnds(before, Marks(start.Keys), start, places, todo, decayed[|old(decayed)|..], bucket);
      MarksAre(start.Keys);
    }

    method CheckDecay()
      requires Valid()
      modifies this, decayItems, places.Keys
      ensures Valid() && toDecayItems == [] && places.Keys <= old(places.Keys)
      ensures old(decayed) <= decayed
      // what is not due comes one check nearer
      ensures forall x :: x in old(places) && old(Pending(x)) && old(Due(x)) > 1 ==>
        && Pending(x) && Due(x) == old(Due(x)) - 1
        && x.decaying == old(x.decaying) && x.stages == old(x.stages)
      // what is due decays, once for every form it passes, and waits out the next one that lasts; nothing else decays
      ensures forall x :: x in old(places) && old(Pending(x)) && old(Due(x)) == 1 ==>
        && x in decayed[|old(decayed)|..] && Times(decayed[|old(decayed)|..], x) == Fleeting(old(x.stages)) + 1
        && Transformed(x.Known(), old(x.Known()).(duration := AfterRound(old(x.duration))))
        && (x in places <==> Lasts(old(x.stages))) && (x in places ==> Due(x) == Term(x.duration))
      ensures forall i :: |old(decayed)| <= i < |decayed| ==>
        var x := decayed[i];
        x in old(places) && old(Pending(x)) && old(Due(x)) == 1
      // what waited is filed
      ensures forall x :: x in old(places) && old(places[x]) == WAITING ==>
        x in places && x.Known() == old(x.Known()) && Due(x) == Term(x.duration)
    {
      hide Filed, AfterRound, Rounded, Distance, BucketFor, Checks, Scanned, Transformed, Lasts;
      var bucket := (lastBucket + 1) % EVENT_DECAY_BUCKETS;
      ScanBucket(bucket);
      ghost var scanned := places;
      lastBucket := bucket;
      Cleanup();
      ghost var newly := decayed[|old(decayed)|..];
      forall x: DecayItem | x in old(places) && old(Pending(x))
        ensures old(Due(x)) > 1 ==>
          Pending(x) && Due(x) == old(Due(x)) - 1 && x.decaying == old(x.decaying) && x.stages == old(x.stages)
        ensures old(Due(x)) == 1 ==>
          && x in newly && Times(newly, x) == Fleeting(old(x.stages)) + 1
          && Transformed(x.Known(), old(x.Known()).(duration := AfterRound(old(x.duration))))
          && (x in places <==> Lasts(old(x.stages))) && (x in places ==> Due(x) == Term(x.duration))
        ensures old(Due(x)) == 1 <==> IsOver(old(places)[x], bucket, old(x.decayable), old(x.duration))
      {
        PlaceRange(old(decayItems[..]), old(toDecayItems), old(places), x);
        if old(places)[x] == bucket {
          ScannedDue(x, x.Known(), scanned, newly, old(lastBucket), old(x.Known()));
          if x in scanned && scanned[x] == WAITING {
            FiledChecks(x.duration, lastBucket);
          }
        } else {
          OtherBucketDue(old(places)[x], old(lastBucket), old(x.duration));
        }
      }
      forall x | x in old(places) && old(places[x]) == WAITING
        ensures x in places && x.Known() == old(x.Known()) && Due(x) == Term(x.duration)
      {
        FiledChecks(x.duration, lastBucket);
      }
    }

    /** So many checks in a row: an item decays at the check it is due, and not before. */
    method CheckRepeatedly(n: nat, ghost x: DecayItem)
      requires Valid() && x in places && Pending(x) && n <= Due(x)
      modifies this, decayItems, places.Keys
      ensures Valid() && old(decayed) <= decayed
      ensures n < old(Due(x)) ==> x in places && Pending(x) && Due(x) == old(Due(x)) - n && x !in decayed[|old(decayed)|..]
      ensures n == old(Due(x)) && n > 0 ==> x in decayed[|old(decayed)|..]
    {
      hide Filed, Distance, Checks;
      var k := 0;
      while k < n
        invariant 0 <= k <= n && Valid() && places.Keys <= old(places.Keys) && old(decayed) <= decayed
        invariant k < n || n < old(Due(x)) ==>
          x in places && Pending(x) && Due(x) == old(Due(x)) - k && x !in decayed[|old(decayed)|..]
        invariant k == old(Due(x)) && k > 0 ==> x in decayed[|old(decayed)|..]
      {
        ghost var decayed1 := decayed;
        CheckDecay();
        assert decayed[|old(decayed)|..] == decayed1[|old(decayed)|..] + decayed[|decayed1|..];
        k := k + 1;
      }
    }
  }

  lemma OnlyWaiting(buckets: seq<seq<DecayItem>>, waiting: seq<DecayItem>, x: DecayItem)
    requires Filed(buckets, waiting, map[x := WAITING])
    ensures waiting == [x]
  {
    assert x in waiting;
    var places := map[x := WAITING];
    forall i | 0 <= i < |waiting|
      ensures waiting[i] == x
    {
      assert waiting[i] in waiting && waiting[i] in places;
    }
    var first, second := waiting[0], waiting[if |waiting| > 1 then 1 else 0];
    if |waiting| > 1 {
      assert false;
    }
  }

  /** An item that waits to be filed takes a new form, which clears its mark; started again, it is listed twice. */
  method ListedTwice() returns (game: Game, item: DecayItem)
    ensures game.toDecayItems == [item, item] && item.decayable && item.duration == 30000 && !game.Valid()
  {
    hide Filed;
    game := new Game();
    item := new DecayItem(60000, []);
    game.StartDecay(item);
    OnlyWaiting(game.decayItems[..], game.toDecayItems, item);
    item.SetID(Form(30000, true));
    game.Enlist(item);
  }
}
