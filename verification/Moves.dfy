/** Game's moving and adding of items: merging, splitting and partial moves conserve units. */
module Moves {
  import opened Wrappers
  import opened Forests
  import opened Containers

  /** What an item stands for: so many units of a kind. */
  datatype Goods = Goods(id: nat, units: nat)

  function GoodsOf(x: Item): Goods
    reads x`id, x`count
  {
    Goods(x.id, if x.IsStackable() then x.count else 1)
  }

  ghost function Stock(s: set<Item>): (m: map<Item, Goods>)
    reads s`id, s`count
    ensures m.Keys == s
  {
    map x | x in s :: GoodsOf(x)
  }

  /** The units of one kind in a list of things. */
  function Units(g: map<Item, Goods>, list: seq<Item>, id: nat): nat {
    if list == [] then 0
    else (if list[0] in g && g[list[0]].id == id then g[list[0]].units else 0) + Units(g, list[1..], id)
  }

  lemma {:induction false} UnitsSame(g: map<Item, Goods>, h: map<Item, Goods>, list: seq<Item>, id: nat)
    requires forall x :: x in list ==> x in g && x in h && g[x] == h[x]
    ensures Units(h, list, id) == Units(g, list, id)
    decreases |list|
  {
    if list != [] {
      UnitsSame(g, h, list[1..], id);
    }
  }

  lemma {:induction false} UnitsConcat(g: map<Item, Goods>, a: seq<Item>, b: seq<Item>, id: nat)
    ensures Units(g, a + b, id) == Units(g, a, id) + Units(g, b, id)
    decreases |a|
  {
    if a == [] {
      assert a + b == b;
    } else {
      UnitsConcat(g, a[1..], b, id);
      assert (a + b)[1..] == a[1..] + b;
    }
  }

  function UnitsIn(g: map<Item, Goods>, x: Item, id: nat): nat {
    if x in g && g[x].id == id then g[x].units else 0
  }

  lemma UnitsSplit(g: map<Item, Goods>, list: seq<Item>, i: nat, id: nat)
    requires i < |list|
    ensures Units(g, list, id) == Units(g, Remove(list, i), id) + UnitsIn(g, list[i], id)
  {
    assert list == list[..i] + ([list[i]] + list[i + 1..]);
    UnitsConcat(g, list[..i], [list[i]] + list[i + 1..], id);
    UnitsConcat(g, [list[i]], list[i + 1..], id);
    assert Units(g, [list[i]], id) == UnitsIn(g, list[i], id) + Units(g, [list[i]][1..], id);
    UnitsConcat(g, list[..i], list[i + 1..], id);
  }

  lemma UnitsChange(g: map<Item, Goods>, h: map<Item, Goods>, list: seq<Item>, x: Item, id: nat)
    requires NoDup(list) && g.Keys == h.Keys && forall y :: y in list ==> y in g
    requires forall y :: y in g && y != x ==> h[y] == g[y]
    ensures Units(h, list, id) + UnitsIn(g, x, id) * (if x in list then 1 else 0)
         == Units(g, list, id) + UnitsIn(h, x, id) * (if x in list then 1 else 0)
  {
    if x in list {
      var i :| 0 <= i < |list| && list[i] == x;
      RemoveMembers(list, i);
      UnitsSplit(g, list, i, id);
      UnitsSplit(h, list, i, id);
      UnitsSame(g, h, Remove(list, i), id);
    } else {
      UnitsSame(g, h, list, id);
    }
  }

  function Held(f: Forest<Item>, c: Item): seq<Item> {
    if c in f.kids then f.kids[c] else []
  }

  lemma HeldIs(s: set<Item>, c: Item)
    requires c in s
    ensures Held(Shape(s), c) == c.itemlist
  {
  }

  /** How one step may change what the containers hold of a kind: an amount out of one, an amount into one. */
  ghost predicate Balance(s: set<Item>, f: Forest<Item>, g: map<Item, Goods>, f': Forest<Item>, g': map<Item, Goods>,
                          c: Item, id: nat, out: int)
  {
    forall d, k :: d in s ==>
      Units(g', Held(f', d), k) == Units(g, Held(f, d), k) - if d == c && k == id then out else 0
  }

  /** At most k more things in one container, and no more than before in any other. */
  ghost predicate Grows(s: set<Item>, f: Forest<Item>, f': Forest<Item>, c: Item, k: nat) {
    forall d :: d in s ==> |Held(f', d)| <= |Held(f, d)| + if d == c then k else 0
  }

  /** No container with a size of its own holds more things than before or than its size. */
  ghost predicate WithinLimits(s: set<Item>, f: Forest<Item>, f': Forest<Item>) {
    forall d :: d in s && d.maxSize != 0 ==> |Held(f', d)| <= Max(|Held(f, d)|, d.maxSize)
  }

  lemma GrowsSame(s: set<Item>, f: Forest<Item>, c: Item)
    ensures Grows(s, f, f, c, 0) && WithinLimits(s, f, f)
  {
  }

  lemma GrowsWeaken(s: set<Item>, f: Forest<Item>, f': Forest<Item>, c: Item, k: nat)
    requires Grows(s, f, f', c, k) && k <= 1
    ensures Grows(s, f, f', c, 1)
  {
  }

  lemma GrowsThen(s: set<Item>, s': set<Item>, f: Forest<Item>, f1: Forest<Item>, f2: Forest<Item>, a: Item, c: Item, k: nat)
    requires s <= s' && Grows(s, f, f1, a, 0) && Grows(s', f1, f2, c, k)
    ensures Grows(s, f, f2, c, k)
  {
  }

  lemma GrowsWithin(s: set<Item>, f: Forest<Item>, f': Forest<Item>, c: Item, k: nat)
    requires Grows(s, f, f', c, k) && k <= 1
    requires c in s && c.maxSize != 0 ==> k == 0 || |Held(f, c)| < c.maxSize
    ensures WithinLimits(s, f, f')
  {
  }

  lemma WithinThen(s: set<Item>, s': set<Item>, f: Forest<Item>, f1: Forest<Item>, f2: Forest<Item>, a: Item)
    requires s <= s' && Grows(s, f, f1, a, 0) && WithinLimits(s', f1, f2)
    ensures WithinLimits(s, f, f2)
  {
  }

  lemma StackChanges(s: set<Item>, f: Forest<Item>, g: map<Item, Goods>, c: Item, item: Item, units: nat)
    requires Valid(f) && f.parent.Keys == s == g.Keys && c in s && item in f.kids[c]
    ensures item in g
    ensures Balance(s, f, g, f, g[item := Goods(g[item].id, units)], c, g[item].id, g[item].units - units)
  {
    hide Ranked, Units;
    var h := g[item := Goods(g[item].id, units)];
    forall d, k | d in s
      ensures Units(h, f.kids[d], k) == Units(g, f.kids[d], k) - if d == c && k == g[item].id then g[item].units - units else 0
    {
      OneHolder(f, c, d, item);
      UnitsChange(g, h, f.kids[d], item, k);
    }
  }

  lemma OneHolder(f: Forest<Item>, c: Item, d: Item, item: Item)
    requires Valid(f) && c in f.kids && d in f.kids && item in f.kids[c]
    ensures item in f.kids[d] <==> d == c
    ensures NoDup(f.kids[d]) && forall y :: y in f.kids[d] ==> y in f.parent
  {
    hide Ranked;
    assert f.parent[item] == Some(c);
    if item in f.kids[d] {
      assert f.parent[item] == Some(d);
    }
  }

  lemma ThingLeaves(s: set<Item>, f: Forest<Item>, g: map<Item, Goods>, c: Item, i: nat)
    requires Valid(f) && f.parent.Keys == s == g.Keys && c in s && i < |f.kids[c]|
    ensures f.kids[c][i] in g
    ensures var x := f.kids[c][i]; Balance(s, f, g, Detach(f, c, i), g, c, g[x].id, g[x].units)
    ensures Grows(s, f, Detach(f, c, i), c, 0)
  {
    hide Ranked, Units, Remove;
    var x := f.kids[c][i];
    RemoveShrinks(f.kids[c], i);
    OneHolder(f, c, c, x);
    forall d, k | d in s
      ensures Units(g, Detach(f, c, i).kids[d], k) == Units(g, f.kids[d], k) - if d == c && k == g[x].id then g[x].units else 0
    {
      if d == c {
        UnitsSplit(g, f.kids[c], i, k);
      }
    }
  }

  lemma RemoveShrinks(list: seq<Item>, i: nat)
    requires i < |list|
    ensures |Remove(list, i)| == |list| - 1
  {
  }

  lemma ThingEnters(s: set<Item>, f: Forest<Item>, g: map<Item, Goods>, c: Item, x: Item)
    requires Valid(f) && f.parent.Keys == s == g.Keys && c in s && x in s
    ensures Balance(s, f, g, Attach(f, c, x, 0), g, c, g[x].id, 0 - g[x].units as int)
    ensures Grows(s, f, Attach(f, c, x, 0), c, 1)
  {
    hide Linked, Ranked, Units, Up, Insert;
    var list := f.kids[c];
    InsertMembers(list, 0, x);
    forall k
      ensures Units(g, Insert(list, 0, x), k) == Units(g, list, k) + UnitsIn(g, x, k)
    {
      UnitsSplit(g, Insert(list, 0, x), 0, k);
    }
  }

  // ---------- Taking, merging and putting ----------

  /** What everything stands for when m units have left a thing, or it has left as a whole. */
  function Fewer(g: map<Item, Goods>, x: Item, m: nat, whole: bool): map<Item, Goods> {
    if whole || x !in g then g else g[x := Goods(g[x].id, Less(g[x].units, m))]
  }

  /** What everything stands for when n units have come to a stack. */
  function More(g: map<Item, Goods>, target: Option<Item>, n: int): map<Item, Goods> {
    if n <= 0 || target.None? || target.value !in g then g
    else g[target.value := Goods(g[target.value].id, g[target.value].units + n)]
  }

  /** The lists when a thing may have left one. */
  function Without(kids: map<Item, seq<Item>>, from: Item, x: Item, leaves: bool): map<Item, seq<Item>> {
    if leaves && from in kids && x in kids[from] then kids[from := Remove(kids[from], IndexOf(kids[from], x))] else kids
  }

  /** The lists when a thing, perhaps a new one, may have been put in front of one. */
  function Ahead(kids: map<Item, seq<Item>>, dest: Item, x: Item, enters: bool): map<Item, seq<Item>> {
    var known := if x in kids then kids else kids[x := []];
    if enters && dest in known then known[dest := [x] + known[dest]] else known
  }

  lemma DetachedLists(f: Forest<Item>, c: Item, x: Item)
    requires Valid(f) && c in f.parent && x in f.kids[c]
    ensures Detach(f, c, IndexOf(f.kids[c], x)).kids == Without(f.kids, c, x, true)
  {
    hide Linked, Ranked;
  }

  lemma AheadNew(f: Forest<Item>, f1: Forest<Item>, c: Item, x: Item)
    requires x !in f.kids && f1.kids == f.kids[x := []] && Valid(f1) && c in f1.parent && x in f1.parent
    ensures Attach(f1, c, x, 0).kids == Ahead(f.kids, c, x, true) && f1.kids == Ahead(f.kids, c, x, false)
  {
    hide Valid, Attach;
    AheadIs(f1, c, x);
  }

  /** What everything stands for after a move: units leave the item, some merge into the target, and what is put
      into the destination instead of the item is a new stack of the others.
   */
  function Restocked(g: map<Item, Goods>, item: Item, m: nat, whole: bool, target: Option<Item>, n: int, put: Item?): map<Item, Goods> {
    var h := More(Fewer(g, item, m, whole), target, n);
    if put == null || put == item || item !in g then h
    else var created: Item := put; h[created := Goods(g[item].id, if n < m then m - n else 0)]
  }

  /** The lists after a move. */
  function Relisted(kids: map<Item, seq<Item>>, from: Item, item: Item, whole: bool, dest: Item, put: Item?, placed: bool)
    : map<Item, seq<Item>>
  {
    var left := Without(kids, from, item, whole);
    if put == null then left else Ahead(left, dest, put, placed)
  }

  lemma AheadIs(f: Forest<Item>, c: Item, x: Item)
    requires Valid(f) && c in f.parent && x in f.parent
    ensures Attach(f, c, x, 0).kids == Ahead(f.kids, c, x, true) && f.kids == Ahead(f.kids, c, x, false)
  {
    hide Linked, Ranked, Up;
    AttachedLists(f, c, x);
    assert x in f.kids;
  }

  ghost predicate Ready(s: set<Item>)
    reads s`parent, s`itemlist, s`rank, s`amountOfItems, s`id, s`count, s`totalWeight
  {
    Consistent(s) && forall x :: x in s ==> 1 <= x.count <= 255 && (x.IsStackable() ==> x.count <= 100)
  }

  lemma ReadyValid(s: set<Item>)
    requires Ready(s)
    ensures Valid(Shape(s)) && Consistent(s)
    ensures forall x :: x in s ==> 1 <= x.count <= 255 && (x.IsStackable() ==> x.count <= 100)
  {
    hide Valid, Summed;
  }

  lemma ReadyStacks(s: set<Item>, x: Item)
    requires Ready(s) && x in s
    ensures 1 <= x.count <= 255 && (x.IsStackable() ==> x.count <= 100)
  {
    hide Consistent;
  }

  lemma MakeReady(s: set<Item>)
    requires Consistent(s) && forall x :: x in s ==> 1 <= x.count <= 255 && (x.IsStackable() ==> x.count <= 100)
    ensures Ready(s)
  {
    hide Consistent;
  }

  lemma StockFacts(s: set<Item>)
    ensures Stock(s).Keys == s && forall x :: x in s ==> Stock(s)[x] == GoodsOf(x)
  {
  }

  lemma StockOf(s: set<Item>, x: Item)
    requires x in s
    ensures x in Stock(s) && Stock(s)[x] == GoodsOf(x)
  {
  }

  /** At most one item stands for something else than before. */
  lemma StockChanged(s: set<Item>, g: map<Item, Goods>, item: Item)
    requires item in s && g.Keys == s && forall x :: x in s && x != item ==> GoodsOf(x) == g[x]
    ensures Stock(s) == g[item := GoodsOf(item)]
    ensures GoodsOf(item) == g[item] ==> Stock(s) == g
  {
    hide GoodsOf;
  }

  /** Takes m units of the item, or the whole of it, out of the container that holds it. */
  method Take(from: Item, item: Item, m: nat, ghost s: set<Item>)
    requires Ready(s) && from in s && item in s && item in from.itemlist
    requires m > 0 && (item.IsStackable() ==> m <= item.count)
    modifies item`parent, item`count, from`itemlist, s`amountOfItems, s`totalWeight
    ensures Ready(s) && Valid(old(Shape(s)))
    ensures var whole := !item.IsStackable() || m == old(item.count);
      && item.count == (if whole then old(item.count) else old(item.count) - m)
      && Shape(s) == (if whole then Detach(old(Shape(s)), from, IndexOf(old(from.itemlist), item)) else old(Shape(s)))
      && from.itemlist == (if whole then Remove(old(from.itemlist), IndexOf(old(from.itemlist), item)) else old(from.itemlist))
      && (whole ==> item.parent == null)
    ensures Balance(s, old(Shape(s)), old(Stock(s)), Shape(s), Stock(s), from, item.id, if item.IsStackable() then m else 1)
    ensures Grows(s, old(Shape(s)), Shape(s), from, 0)
    ensures Stock(s) == Fewer(old(Stock(s)), item, m, !item.IsStackable() || m == old(item.count))
  {
    hide Valid, Shape, Detach, Remove, Units, Consistent, Balance, IndexOf, Val, Grows, Ready, Stock;
    ghost var f, g := Shape(s), Stock(s);
    ReadyValid(s);
    StockFacts(s);
    NodeFacts(s, from);
    ghost var i := IndexOf(from.itemlist, item);
    from.RemoveThing(item, m, s);
    MakeReady(s);
    StockChanged(s, g, item);
    if item.IsStackable() && m < old(item.count) {
      StackChanges(s, f, g, from, item, item.count);
      GrowsSame(s, f, from);
    } else {
      ThingLeaves(s, f, g, from, i);
    }
  }

  /** Merges n more units into a stack. */
  method Merge(to: Item, target: Item, n: nat, ghost s: set<Item>)
    requires Ready(s) && to in s && target in s && target in to.itemlist
    requires target.IsStackable() && target.count + n <= 100
    modifies target`id, target`count, s`totalWeight
    ensures Ready(s) && target.id == old(target.id) && target.count == old(target.count) + n
    ensures Balance(s, Shape(s), old(Stock(s)), Shape(s), Stock(s), to, target.id, 0 - n)
    ensures Stock(s) == More(old(Stock(s)), Some(target), n)
  {
    hide Valid, Shape, Units, Consistent, Balance, Ready, Stock;
    ghost var f, g := Shape(s), Stock(s);
    ReadyValid(s);
    StockFacts(s);
    NodeFacts(s, to);
    to.UpdateThing(target, target.id, target.count + n, s);
    MakeReady(s);
    StockChanged(s, g, target);
    StackChanges(s, f, g, to, target, target.count);
  }

  /** Adds a thing nobody holds, unless the index is beyond the capacity: then nothing happens. */
  method Put(to: Item, index: int, item: Item, ghost s: set<Item>)
    requires Ready(s) && to in s && item in s && item.parent == null && Valid(Shape(s)) && item !in Up(Shape(s), to)
    modifies item`parent, to`itemlist, s`rank, s`amountOfItems, s`totalWeight
    ensures Ready(s) && Valid(old(Shape(s))) && item !in Up(old(Shape(s)), to)
    ensures var placed := index < old(to.Capacity());
      && Shape(s) == (if placed then Attach(old(Shape(s)), to, item, 0) else old(Shape(s)))
      && Balance(s, old(Shape(s)), Stock(s), Shape(s), Stock(s), to, item.id,
                 if placed then 0 - GoodsOf(item).units as int else 0)
    ensures Grows(s, old(Shape(s)), Shape(s), to, if index < old(to.Capacity()) then 1 else 0)
    ensures Stock(s) == old(Stock(s))
  {
    hide Valid, Shape, Attach, Units, Consistent, Balance, Up, Grows, Ready, Stock, Item.Capacity;
    ghost var f, g := Shape(s), Stock(s);
    ReadyValid(s);
    NodeFacts(s, item);
    StockFacts(s);
    to.AddThing(index, item, s);
    MakeReady(s);
    StockFacts(s);
    if index < old(to.Capacity()) {
      ThingEnters(s, f, g, to, item);
    } else {
      NothingMoves(s, f, g, to, item.id);
      GrowsSame(s, f, to);
    }
  }

  lemma NothingMoves(s: set<Item>, f: Forest<Item>, g: map<Item, Goods>, c: Item, id: nat)
    ensures Balance(s, f, g, f, g, c, id, 0)
  {
    hide Units;
  }

  /** A new thing that nobody holds joins the world. */
  lemma RootJoins(s: set<Item>, x: Item)
    requires Ready(s) && x !in s && x.parent == null && x.itemlist == [] && x.amountOfItems == 1 && x.totalWeight == 0
    requires 1 <= x.count <= 255 && (x.IsStackable() ==> x.count <= 100)
    ensures Ready(s + {x}) && Valid(Shape(s)) && Shape(s + {x}) == Grow(Shape(s), x, x.rank)
    ensures Valid(Shape(s + {x}))
    ensures forall c :: c in s ==> c in Shape(s).parent && Up(Shape(s + {x}), c) == Up(Shape(s), c) && x !in Up(Shape(s), c)
    ensures Stock(s + {x}) == Stock(s)[x := GoodsOf(x)]
  {
    hide Valid, Up, Summed, Sum, Shape, Grow;
    ConsistentParts(s);
    var f, t := Shape(s), s + {x};
    ShapeGrows(s, x);
    GrowValid(f, x, x.rank);
    GrowSummed(f, x, x.rank, Ones(f), Ones(Shape(t)), Amounts(s), Amounts(t));
    GrowSummed(f, x, x.rank, OwnWeights(s), OwnWeights(t), Weights(s), Weights(t));
    MakeConsistent(t);
    assert Stock(t) == Stock(s)[x := GoodsOf(x)];
  }

  lemma ShapeGrows(s: set<Item>, x: Item)
    requires x !in s && x.parent == null && x.itemlist == []
    ensures Shape(s + {x}) == Grow(Shape(s), x, x.rank)
    ensures Shape(s).parent.Keys == s && Shape(s + {x}).parent.Keys == s + {x}
  {
    var f, h := Shape(s), Shape(s + {x});
    assert h.parent == f.parent[x := None];
    assert h.kids == f.kids[x := []];
    assert h.rank == f.rank[x := x.rank];
  }

  lemma GrownUnits(s: set<Item>, f: Forest<Item>, g: map<Item, Goods>, x: Item, r: nat, y: Goods, c: Item, id: nat)
    requires Valid(f) && f.parent.Keys == s == g.Keys && x !in s
    ensures Balance(s, f, g, Grow(f, x, r), g[x := y], c, id, 0)
    ensures Grows(s, f, Grow(f, x, r), c, 0)
  {
    hide Ranked, Units;
    forall d, k | d in s
      ensures Units(g[x := y], Held(Grow(f, x, r), d), k) == Units(g, Held(f, d), k)
    {
      KidsKnown(f, d);
      UnitsSame(g, g[x := y], f.kids[d], k);
    }
  }

  // ---------- internalMoveItem ----------

  const MAP_MAX_LAYERS: nat := 16

  /** What a settled destination looks like. */
  ghost predicate Settled(dest: Item, at: int, target: Option<Item>, item: Item, s: set<Item>)
    reads dest, dest.itemlist, item, s
  {
    && dest in s
    && (target.Some? ==> target.value in s && 0 <= at < |dest.itemlist| && dest.itemlist[at] == target.value)
    && (target.None? ==> at == INDEX_WHEREEVER || at >= |dest.itemlist|)
    && (at >= dest.Capacity() ==>
          target.Some? && target.value.id == item.id && target.value.count < 100 && item.IsStackable())
  }

  lemma SettledFacts(dest: Item, at: int, target: Option<Item>, item: Item, s: set<Item>)
    requires Settled(dest, at, target, item, s)
    ensures dest in s && (target.Some? ==> target.value in s && target.value in dest.itemlist && at >= 0)
    ensures at >= dest.Capacity() ==>
              target.Some? && target.value.id == item.id && target.value.count < 100 && item.IsStackable()
  {
  }

  lemma DestinationSettles(c: Item, index: int, item: Item, autoStack: bool, s: set<Item>)
    requires Valid(Shape(s)) && c in s && index >= INDEX_WHEREEVER
    ensures var r := c.Destination(index, item, autoStack);
      && r.0 in s && r.1 >= INDEX_WHEREEVER
      && (r.0 != c ==> r.1 == INDEX_WHEREEVER && r.2 == None)
      && Settled(r.0, r.1, r.2, item, s)
  {
    hide Valid, Shape;
    HolderFacts(s, c);
    forall k | k in c.itemlist
      ensures k in s
    {
      HeldBy(s, c, k);
    }
  }

  /** Where the destination settles: it is asked again and again, through at most so many containers,
      and the flags hold only as long as it is the one that was named.
   */
  ghost function Resolved(dest: Item, index: int, item: Item, flags: Flags, autoStack: bool, floorN: nat, s: set<Item>)
    : (r: (Item, int, Option<Item>, Flags))
    requires Valid(Shape(s)) && dest in s && index >= INDEX_WHEREEVER
    reads s, item
    ensures r.0 in s && r.1 >= INDEX_WHEREEVER && (r.2.Some? ==> r.2.value in s) && Settled(r.0, r.1, r.2, item, s)
    decreases MAP_MAX_LAYERS - floorN
  {
    DestinationSettles(dest, index, item, autoStack, s);
    KidsIn(s, dest);
    var d := dest.Destination(index, item, autoStack);
    if d.0 == dest then (dest, d.1, d.2, flags)
    else if floorN + 1 >= MAP_MAX_LAYERS then (d.0, d.1, d.2, NO_FLAGS)
    else Resolved(d.0, d.1, item, NO_FLAGS, autoStack, floorN + 1, s)
  }

  lemma ResolvedStep(dest: Item, index: int, item: Item, flags: Flags, autoStack: bool, floorN: nat, s: set<Item>)
    requires Valid(Shape(s)) && dest in s && index >= INDEX_WHEREEVER
    ensures var d := dest.Destination(index, item, autoStack);
      && d.0 in s && d.1 >= INDEX_WHEREEVER
      && Resolved(dest, index, item, flags, autoStack, floorN, s)
         == if d.0 == dest then (dest, d.1, d.2, flags)
            else if floorN + 1 >= MAP_MAX_LAYERS then (d.0, d.1, d.2, NO_FLAGS)
            else Resolved(d.0, d.1, item, NO_FLAGS, autoStack, floorN + 1, s)
  {
    hide Valid, Shape;
    DestinationSettles(dest, index, item, autoStack, s);
  }

  /** The loop over __queryDestination. */
  method Resolve(toCylinder: Item, index: int, item: Item, flags: Flags, autoStack: bool, ghost s: set<Item>)
    returns (dest: Item, at: int, target: Option<Item>, flags': Flags)
    requires Valid(Shape(s)) && toCylinder in s && index >= INDEX_WHEREEVER
    ensures at >= INDEX_WHEREEVER && Settled(dest, at, target, item, s)
    ensures (dest, at, target, flags') == Resolved(toCylinder, index, item, flags, autoStack, 0, s)
    ensures flags' == flags || flags' == NO_FLAGS
  {
    hide Valid, Shape, Settled, Resolved, Item.Destination, Up;
    dest, at, flags' := toCylinder, index, flags;
    var floorN := 0;
    var subCylinder;
    DestinationSettles(dest, at, item, autoStack, s);
    ResolvedStep(dest, at, item, flags', autoStack, floorN, s);
    subCylinder, at, target := dest.QueryDestination(at, item, autoStack);
    while subCylinder != dest
      invariant dest in s && subCylinder in s && at >= INDEX_WHEREEVER && Settled(subCylinder, at, target, item, s)
      invariant 0 <= floorN < MAP_MAX_LAYERS
      invariant Resolved(toCylinder, index, item, flags, autoStack, 0, s)
                == if subCylinder == dest then (dest, at, target, flags')
                   else if floorN + 1 >= MAP_MAX_LAYERS then (subCylinder, at, target, NO_FLAGS)
                   else Resolved(subCylinder, at, item, NO_FLAGS, autoStack, floorN + 1, s)
      invariant flags' == flags || flags' == NO_FLAGS
      decreases MAP_MAX_LAYERS - floorN
    {
      dest := subCylinder;
      flags' := NO_FLAGS;
      floorN := floorN + 1;
      if floorN >= MAP_MAX_LAYERS { break; }
      DestinationSettles(dest, at, item, autoStack, s);
      ResolvedStep(dest, at, item, flags', autoStack, floorN, s);
      subCylinder, at, target := dest.QueryDestination(at, item, autoStack);
    }
  }

  /** Units of one kind leave one container and enter another; nothing else changes hands. */
  ghost predicate Transfer(s: set<Item>, f: Forest<Item>, g: map<Item, Goods>, f': Forest<Item>, g': map<Item, Goods>,
                           from: Item, out: int, to: Item, entering: int, id: nat)
  {
    forall d, k :: d in s ==>
      Units(g', Held(f', d), k) == Units(g, Held(f, d), k)
                                   - (if d == from && k == id then out else 0)
                                   + (if d == to && k == id then entering else 0)
  }

  /** The units of the item that merge into the stack it is moved onto. */
  function Merged(item: Item, target: Option<Item>, m: nat): int
    reads item`id, if target.Some? then {target.value} else {}
  {
    if item.IsStackable() && target.Some? && target.value.id == item.id then
      (if 100 - target.value.count < m then 100 - target.value.count else m)
    else 0
  }

  lemma MergedIs(item: Item, target: Option<Item>, m: nat, merging: bool, count: nat)
    requires merging == (item.IsStackable() && target.Some? && target.value.id == item.id)
    requires merging ==> target.value.count == count
    ensures Merged(item, target, m) == if !merging then 0 else if 100 - count < m then 100 - count else m
  {
  }

  function Taken(item: Item, m: nat): nat
    reads item`id
  {
    if item.IsStackable() then m else 1
  }

  /** The capacity of the destination once the moved item may have left it. */
  function CapacityAfter(from: Item, dest: Item, item: Item, m: nat): nat
    reads from`itemlist, dest`itemlist, item`id, item`count
  {
    var whole := !item.IsStackable() || m == item.count;
    if dest.maxSize != 0 then dest.maxSize
    else Min(255, Less(|dest.itemlist|, if from == dest && whole then 1 else 0) + 1)
  }

  lemma CapacityAfterIs(from: Item, dest: Item, item: Item, m: nat, goes: bool)
    requires goes == (from == dest && (!item.IsStackable() || m == item.count))
    ensures CapacityAfter(from, dest, item, m)
            == if dest.maxSize != 0 then dest.maxSize else Min(255, Less(|dest.itemlist|, if goes then 1 else 0) + 1)
  {
  }

  /** Units that vanish because the destination refuses the index after they were removed. */
  function Lost(from: Item, dest: Item, at: int, target: Option<Item>, item: Item, m: nat): int
    reads from`itemlist, dest`itemlist, item`id, item`count, if target.Some? then {target.value} else {}
  {
    var left := Taken(item, m) - Merged(item, target, m);
    if left > 0 && at >= CapacityAfter(from, dest, item, m) then left else 0
  }

  lemma DetachedUp(f: Forest<Item>, c: Item, i: nat, d: Item)
    requires Valid(f) && c in f.parent && i < |f.kids[c]| && d in f.parent && f.kids[c][i] !in Up(f, d)
    ensures Valid(Detach(f, c, i)) && Up(Detach(f, c, i), d) == Up(f, d)
  {
    DetachValid(f, c, i);
    hide Linked, Ranked;
    UpAgree(f, Detach(f, c, i), d);
  }

  /** A destination stays what it is when another thing, or a part of it, leaves a container. */
  lemma TargetStays(list: seq<Item>, item: Item, t: Item)
    requires NoDup(list) && item in list && t in list && t != item
    ensures t in Remove(list, IndexOf(list, item)) && |Remove(list, IndexOf(list, item))| == |list| - 1
  {
    RemoveMembers(list, IndexOf(list, item));
  }

  lemma RemovedLength(list: seq<Item>, item: Item)
    requires item in list
    ensures |Remove(list, IndexOf(list, item))| == |list| - 1
  {
  }

  /** Removes the item, or units of it, and merges what it can into the target. */
  method TakeAndMerge(from: Item, dest: Item, target: Option<Item>, item: Item, m: nat, ghost s: set<Item>)
    returns (n: nat)
    requires Ready(s) && from in s && dest in s && item in s && item in from.itemlist
    requires m > 0 && (item.IsStackable() ==> m <= item.count)
    requires Valid(Shape(s)) && (!item.IsStackable() ==> item !in Up(Shape(s), dest))
    requires target.Some? ==>
      target.value in s && target.value in dest.itemlist && target.value != item && target.value.types == item.types
    modifies item`parent, item`count, from`itemlist, s`amountOfItems, s`totalWeight, s`id, s`count
    ensures Ready(s) && Valid(Shape(s)) && n == old(Merged(item, target, m)) && item.id == old(item.id)
    ensures dest.Capacity() == old(CapacityAfter(from, dest, item, m))
    ensures Transfer(s, old(Shape(s)), old(Stock(s)), Shape(s), Stock(s), from, old(Taken(item, m)), dest, n, item.id)
    ensures !item.IsStackable() ==> item.parent == null && item !in Up(Shape(s), dest) && item.count == old(item.count)
    ensures Grows(s, old(Shape(s)), Shape(s), from, 0)
    ensures var whole := !item.IsStackable() || m == old(item.count);
      && Stock(s) == More(Fewer(old(Stock(s)), item, m, whole), target, n)
      && Shape(s).kids == Without(old(Shape(s).kids), from, item, whole)
  {
    hide Valid, Shape, Units, Ready, Up, Balance, Transfer, Stock, Merged, Taken, CapacityAfter, Grows, Fewer, More, Without;
    ghost var f, g, took := Shape(s), Stock(s), Taken(item, m);
    TakeFor(from, dest, target, item, m, s);
    ghost var f1, g1 := Shape(s), Stock(s);
    n := MergeInto(dest, target, item, m, s);
    BalancesTransfer(s, f, g, f1, g1, Shape(s), Stock(s), from, took, dest, n, item.id);
  }

  lemma NothingLeaves(kids: map<Item, seq<Item>>, from: Item, x: Item)
    ensures Without(kids, from, x, false) == kids
  {
  }

  /** Take, seen from where the item goes. */
  method TakeFor(from: Item, dest: Item, target: Option<Item>, item: Item, m: nat, ghost s: set<Item>)
    requires Ready(s) && from in s && dest in s && item in s && item in from.itemlist
    requires m > 0 && (item.IsStackable() ==> m <= item.count)
    requires Valid(Shape(s)) && (!item.IsStackable() ==> item !in Up(Shape(s), dest))
    requires target.Some? ==> target.value in s && target.value in dest.itemlist && target.value != item
    modifies item`parent, item`count, from`itemlist, s`amountOfItems, s`totalWeight
    ensures Ready(s) && Valid(Shape(s)) && dest.Capacity() == old(CapacityAfter(from, dest, item, m))
    ensures Balance(s, old(Shape(s)), old(Stock(s)), Shape(s), Stock(s), from, item.id, old(Taken(item, m)))
    ensures Merged(item, target, m) == old(Merged(item, target, m))
    ensures target.Some? ==> target.value in dest.itemlist
    ensures !item.IsStackable() ==> item.parent == null && item !in Up(Shape(s), dest) && item.count == old(item.count)
    ensures Grows(s, old(Shape(s)), Shape(s), from, 0)
    ensures var whole := !item.IsStackable() || m == old(item.count);
      Stock(s) == Fewer(old(Stock(s)), item, m, whole) && Shape(s).kids == Without(old(Shape(s).kids), from, item, whole)
  {
    hide Grows, Valid, Shape, Detach, Remove, Units, Ready, Up, Balance, Stock, IndexOf, NoDup, Val, Merged, CapacityAfter,
      Fewer, Without;
    ghost var f, i := Shape(s), IndexOf(from.itemlist, item);
    ListFacts(s, from, dest);
    RemovedLength(from.itemlist, item);
    DetachedLists(f, from, item);
    NothingLeaves(f.kids, from, item);
    if target.Some? && from == dest {
      TargetStays(from.itemlist, item, target.value);
    }
    if !item.IsStackable() {
      DetachedUp(f, from, i, dest);
    }
    ghost var merging := item.IsStackable() && target.Some? && target.value.id == item.id;
    ghost var units := if target.Some? then target.value.count else 0;
    MergedIs(item, target, m, merging, units);
    CapacityAfterIs(from, dest, item, m, from == dest && (!item.IsStackable() || m == item.count));
    Take(from, item, m, s);
    MergedIs(item, target, m, merging, units);
    ReadyValid(s);
  }

  /** Merges what it can of m units of the item into the target. */
  method MergeInto(dest: Item, target: Option<Item>, item: Item, m: nat, ghost s: set<Item>) returns (n: nat)
    requires Ready(s) && Valid(Shape(s)) && dest in s && item in s
    requires target.Some? ==>
      target.value in s && target.value in dest.itemlist && target.value != item && target.value.types == item.types
    modifies s`id, s`count, s`totalWeight
    ensures Ready(s) && n == old(Merged(item, target, m)) && unchanged(item`id) && unchanged(item`count)
    ensures Balance(s, Shape(s), old(Stock(s)), Shape(s), Stock(s), dest, item.id, 0 - n)
    ensures Shape(s) == old(Shape(s)) && Stock(s) == More(old(Stock(s)), target, n)
  {
    hide Valid, Shape, Units, Consistent, Balance, Stock;
    n := 0;
    if item.IsStackable() && target.Some? && target.value.id == item.id {
      n := if 100 - target.value.count < m then 100 - target.value.count else m;
      Merge(dest, target.value, n, s);
    } else {
      NothingMoves(s, Shape(s), Stock(s), dest, item.id);
    }
  }

  lemma BalancesTransfer(s: set<Item>, f: Forest<Item>, g: map<Item, Goods>, f1: Forest<Item>, g1: map<Item, Goods>,
                         f2: Forest<Item>, g2: map<Item, Goods>, from: Item, out: int, to: Item, entering: int, id: nat)
    requires Balance(s, f, g, f1, g1, from, id, out) && Balance(s, f1, g1, f2, g2, to, id, 0 - entering)
    ensures Transfer(s, f, g, f2, g2, from, out, to, entering, id)
  {
    hide Units;
  }

  lemma ListFacts(s: set<Item>, from: Item, dest: Item)
    requires Valid(Shape(s)) && from in s && dest in s
    ensures Shape(s).parent.Keys == s && Shape(s).kids[from] == from.itemlist && Shape(s).kids[dest] == dest.itemlist
    ensures NoDup(from.itemlist)
  {
    hide Ranked;
    NodeFacts(s, from);
    NodeFacts(s, dest);
  }

  lemma ShapeKeys(s: set<Item>)
    ensures Shape(s).parent.Keys == Shape(s).kids.Keys == s
  {
  }

  /** Creates a stack of some units and offers it to a container. */
  method PutNew(dest: Item, at: int, types: ItemTypes, id: nat, units: nat, ghost s: set<Item>)
    returns (created: Item, ghost s': set<Item>)
    requires Ready(s) && Valid(Shape(s)) && dest in s && 1 <= units <= 100 && types(id).stackable
    modifies s`parent, s`itemlist, s`rank, s`amountOfItems, s`totalWeight
    ensures Ready(s') && s' == s + {created} && fresh(created) && created.id == id && created.types == types
    ensures Balance(s, old(Shape(s)), old(Stock(s)), Shape(s'), Stock(s'), dest, id,
                    if at < old(dest.Capacity()) then 0 - units as int else 0)
    ensures Grows(s, old(Shape(s)), Shape(s'), dest, if at < old(dest.Capacity()) then 1 else 0)
    ensures Stock(s') == old(Stock(s))[created := Goods(id, units)]
    ensures Shape(s').kids == Ahead(old(Shape(s).kids), dest, created, at < old(dest.Capacity()))
  {
    hide Grows, Valid, Shape, Units, Ready, Up, Balance, Stock, Ahead, Attach;
    ghost var f, g := Shape(s), Stock(s);
    ShapeKeys(s);
    created, s' := CreateStack(dest, types, id, units, s);
    ghost var f1, g1 := Shape(s'), Stock(s');
    ShapeKeys(s');
    AheadNew(f, f1, dest, created);
    Put(dest, at, created, s');
    GoodsAre(created);
    BalanceCompose(s, s', f, g, f1, g1, Shape(s'), Stock(s'), dest, id, if at < old(dest.Capacity()) then 0 - units as int else 0);
    GrowsThen(s, s', f, f1, Shape(s'), dest, dest, if at < old(dest.Capacity()) then 1 else 0);
  }

  /** A new thing is not among the holders of c, and they are who they were. */
  ghost predicate Outside(s: set<Item>, s': set<Item>, c: Item, x: Item)
    reads s`parent, s`itemlist, s`rank, s'`parent, s'`itemlist, s'`rank
  {
    && Valid(Shape(s)) && c in Shape(s).parent && Valid(Shape(s')) && c in Shape(s').parent
    && Up(Shape(s'), c) == Up(Shape(s), c) && x !in Up(Shape(s'), c)
  }

  /** Item::CreateItem for a stack: nobody holds it yet. */
  method CreateStack(dest: Item, types: ItemTypes, id: nat, units: nat, ghost s: set<Item>)
    returns (created: Item, ghost s': set<Item>)
    requires Ready(s) && Valid(Shape(s)) && dest in s && 1 <= units <= 100 && types(id).stackable
    ensures Ready(s') && s' == s + {created} && fresh(created)
    ensures created.id == id && created.count == units && created.types == types && created.parent == null && !created.isContainer
    ensures Outside(s, s', dest, created) && created.amountOfItems == 1
    ensures Balance(s, Shape(s), Stock(s), Shape(s'), Stock(s'), dest, id, 0)
    ensures Grows(s, Shape(s), Shape(s'), dest, 0)
    ensures Stock(s') == Stock(s)[created := Goods(id, units)] && Shape(s').kids == Shape(s).kids[created := []]
  {
    hide Grows, Valid, Shape, Units, Consistent, Up, Balance, Stock;
    created := new Item(types, id, units, false, 0);
    s' := s + {created};
    RootJoins(s, created);
    NodeFacts(s, dest);
    NodeFacts(s', dest);
    GrownUnits(s, Shape(s), Stock(s), created, created.rank, GoodsOf(created), dest, id);
  }

  lemma BalanceCompose(s: set<Item>, s': set<Item>, f: Forest<Item>, g: map<Item, Goods>, f1: Forest<Item>, g1: map<Item, Goods>,
                       f2: Forest<Item>, g2: map<Item, Goods>, c: Item, id: nat, out: int)
    requires s <= s' && Balance(s, f, g, f1, g1, c, id, 0) && Balance(s', f1, g1, f2, g2, c, id, out)
    ensures Balance(s, f, g, f2, g2, c, id, out)
  {
    hide Units;
  }

  lemma TransferThen(s: set<Item>, f: Forest<Item>, g: map<Item, Goods>, f1: Forest<Item>, g1: map<Item, Goods>,
                     f2: Forest<Item>, g2: map<Item, Goods>, from: Item, out: int, to: Item, first: int, second: int, id: nat)
    requires Transfer(s, f, g, f1, g1, from, out, to, first, id) && Balance(s, f1, g1, f2, g2, to, id, 0 - second)
    ensures Transfer(s, f, g, f2, g2, from, out, to, first + second, id)
  {
    hide Units;
  }

  /** The part of a move after all questions are answered. */
  method Perform(from: Item, dest: Item, at: int, target: Option<Item>, item: Item, m: nat, ghost s: set<Item>)
    returns (moveItem: Item?, ghost s': set<Item>)
    requires Ready(s) && from in s && dest in s && item in s && item in from.itemlist
    requires m > 0 && (item.IsStackable() ==> m <= item.count <= 100)
    requires Valid(Shape(s)) && (!item.IsStackable() ==> item !in Up(Shape(s), dest))
    requires target.Some? ==>
      target.value in s && target.value in dest.itemlist && target.value != item && target.value.types == item.types
    modifies s`parent, s`itemlist, s`rank, s`amountOfItems, s`totalWeight, s`id, s`count
    ensures Ready(s') && s <= s' && fresh(s' - s)
    ensures Transfer(s, old(Shape(s)), old(Stock(s)), Shape(s'), Stock(s'), from, old(Taken(item, m)),
                     dest, old(Taken(item, m) - Lost(from, dest, at, target, item, m)), item.id)
    ensures moveItem == null <==> old(item.IsStackable() && Merged(item, target, m) == m)
    ensures item.id == old(item.id)
    ensures Grows(s, old(Shape(s)), Shape(s'), dest, if moveItem == null then 0 else 1)
    ensures s' == s + Created(item, moveItem) && (!item.IsStackable() ==> moveItem == item)
    ensures var whole := !item.IsStackable() || m == old(item.count);
      && Stock(s') == Restocked(old(Stock(s)), item, m, whole, target, old(Merged(item, target, m)), moveItem)
      && Shape(s').kids
         == Relisted(old(Shape(s).kids), from, item, whole, dest, moveItem, at < old(CapacityAfter(from, dest, item, m)))
  {
    hide Valid, Shape, Units, Ready, Up, Transfer, Balance, Taken, Merged, CapacityAfter, Lost, Stock, Grows,
      Fewer, More, Without, Ahead;
    StockOf(s, item);
    ghost var took, lost := Taken(item, m), Lost(from, dest, at, target, item, m);
    ghost var f, g := Shape(s), Stock(s);
    LostIs(from, dest, at, target, item, m);
    var n := TakeAndMerge(from, dest, target, item, m, s);
    ghost var f1, g1 := Shape(s), Stock(s);
    moveItem, s' := Deliver(dest, at, item, m, n, s);
    TransferThen(s, f, g, f1, g1, Shape(s'), Stock(s'), from, took, dest, n, took - n - lost, item.id);
    GrowsThen(s, s, f, f1, Shape(s'), from, dest, if moveItem == null then 0 else 1);
  }

  lemma LostIs(from: Item, dest: Item, at: int, target: Option<Item>, item: Item, m: nat)
    ensures Taken(item, m) == if item.IsStackable() then m else 1
    ensures Merged(item, target, m) <= m && (!item.IsStackable() ==> Merged(item, target, m) == 0)
    ensures var left := Taken(item, m) - Merged(item, target, m);
      Lost(from, dest, at, target, item, m) == if left > 0 && at >= CapacityAfter(from, dest, item, m) then left else 0
  {
  }

  function Created(item: Item, put: Item?): set<Item> {
    if put == null || put == item then {} else {put}
  }

  /** Adds what could not be merged: the thing itself, or a new stack of the remaining units. */
  method Deliver(dest: Item, at: int, item: Item, m: nat, n: nat, ghost s: set<Item>)
    returns (moveItem: Item?, ghost s': set<Item>)
    requires Ready(s) && Valid(Shape(s)) && dest in s && item in s
    requires if item.IsStackable() then n <= m <= 100 else n == 0 && item.parent == null && item !in Up(Shape(s), dest)
    modifies s`parent, s`itemlist, s`rank, s`amountOfItems, s`totalWeight
    ensures Ready(s') && s <= s' && fresh(s' - s)
    ensures var left := if item.IsStackable() then m - n else 1;
      Balance(s, old(Shape(s)), old(Stock(s)), Shape(s'), Stock(s'), dest, item.id,
              if at < old(dest.Capacity()) then 0 - left else 0)
    ensures moveItem == null <==> item.IsStackable() && m == n
    ensures Grows(s, old(Shape(s)), Shape(s'), dest, if moveItem == null then 0 else 1)
    ensures s' == s + Created(item, moveItem) && (!item.IsStackable() ==> moveItem == item)
    ensures Stock(s') == if Created(item, moveItem) == {} then old(Stock(s)) else old(Stock(s))[moveItem := Goods(item.id, m - n)]
    ensures Shape(s').kids
            == if moveItem == null then old(Shape(s).kids) else Ahead(old(Shape(s).kids), dest, moveItem, at < old(dest.Capacity()))
  {
    hide Valid, Shape, Units, Ready, Up, Balance, Stock, Grows, Ahead, Attach;
    s' := s;
    ghost var f := Shape(s);
    ShapeKeys(s);
    if !item.IsStackable() {
      moveItem := item;
      AheadIs(f, dest, item);
      Put(dest, at, item, s);
      GoodsAre(item);
      GrowsWeaken(s, f, Shape(s), dest, if at < old(dest.Capacity()) then 1 else 0);
    } else if m - n > 0 {
      moveItem, s' := PutNew(dest, at, item.types, item.id, m - n, s);
      GrowsWeaken(s, f, Shape(s'), dest, if at < old(dest.Capacity()) then 1 else 0);
    } else {
      moveItem := null;
      NothingMoves(s, Shape(s), Stock(s), dest, item.id);
      GrowsSame(s, f, dest);
    }
  }

  lemma GoodsAre(x: Item)
    ensures GoodsOf(x).units == if x.IsStackable() then x.count else 1
  {
  }

  /** What internalMoveItem settles on before it moves anything. */
  datatype Plan = Plan(dest: Item, at: int, target: Option<Item>, m: nat)

  /** How a plan goes: whether the whole item leaves, how many units merge, and whether the place is still there. */
  datatype Course = Course(stackable: bool, whole: bool, merged: int, placed: bool)

  function CourseOf(plan: Plan, from: Item, item: Item): Course
    reads from`itemlist, plan.dest`itemlist, item`id, item`count, if plan.target.Some? then {plan.target.value} else {}
  {
    Course(item.IsStackable(), !item.IsStackable() || plan.m == item.count, Merged(item, plan.target, plan.m),
           plan.at < CapacityAfter(from, plan.dest, item, plan.m))
  }

  /** What every thing stands for and every container holds after a plan was carried out: the item, or a new stack
      of the units that did not merge, lies in front of the destination, and nothing else has changed.
   */
  ghost predicate CarriedOut(s: set<Item>, g: map<Item, Goods>, kids: map<Item, seq<Item>>, s': set<Item>, g': map<Item, Goods>,
                             kids': map<Item, seq<Item>>, plan: Plan, course: Course, from: Item, item: Item, moved: Item)
  {
    var put: Item? := if course.stackable && course.merged == plan.m then null else moved;
    && (put == null || !course.stackable ==> moved == item)
    && s' == s + Created(item, put)
    && g' == Restocked(g, item, plan.m, course.whole, plan.target, course.merged, put)
    && kids' == Relisted(kids, from, item, course.whole, plan.dest, put, course.placed)
  }

  /** Within its limits a container never refuses what queryMaxCount let through. */
  lemma NothingLost(from: Item, dest: Item, at: int, target: Option<Item>, item: Item, m: nat, count: nat, flags: Flags, s: set<Item>)
    requires Settled(dest, at, target, item, s)
    requires dest.maxSize != 0 && (!flags.noLimit || |dest.itemlist| <= dest.maxSize)
    requires item.IsStackable() ==> m <= dest.QueryMaxCount(at, item, count, flags).1
    ensures Lost(from, dest, at, target, item, m) == 0
  {
  }

  /** A plan that can be carried out. */
  ghost predicate Sound(plan: Plan, from: Item, item: Item, count: nat, s: set<Item>)
    requires Valid(Shape(s))
    reads s, from, item, plan.dest
  {
    && plan.dest in s && plan.dest in Shape(s).parent && item in from.itemlist && plan.m > 0
    && (item.IsStackable() ==> plan.m <= count && plan.m <= item.count)
    && (!item.IsStackable() ==> item !in Up(Shape(s), plan.dest))
    && (plan.target.Some? ==> plan.target.value in s && plan.target.value in plan.dest.itemlist && plan.target.value != item)
  }

  /** Nothing is lost in a destination that is not overfull, or whose limits are respected. */
  ghost predicate KeepsAll(plan: Plan, from: Item, item: Item, flags: Flags)
    reads from, plan.dest, item, if plan.target.Some? then {plan.target.value} else {}
  {
    plan.dest.maxSize != 0 && (!flags.noLimit || |plan.dest.itemlist| <= plan.dest.maxSize)
    ==> Lost(from, plan.dest, plan.at, plan.target, item, plan.m) == 0
  }

  /** Everything merges, or there is a free slot. */
  ghost predicate HasRoom(plan: Plan, item: Item)
    reads plan.dest`itemlist, item`id, if plan.target.Some? then {plan.target.value} else {}
  {
    (item.IsStackable() && Merged(item, plan.target, plan.m) == plan.m) || plan.dest.FreeSlots() > 0
  }

  /** A plan that can be carried out, loses nothing it need not lose, and respects the limits it must. */
  ghost predicate Feasible(plan: Plan, from: Item, item: Item, count: nat, flags: Flags, s: set<Item>)
    reads s, from, item, plan.dest, if plan.target.Some? then {plan.target.value} else {}
  {
    && Valid(Shape(s)) && Sound(plan, from, item, count, s)
    && KeepsAll(plan, from, item, flags) && (!flags.noLimit ==> HasRoom(plan, item))
  }

  lemma FeasibleFacts(plan: Plan, from: Item, item: Item, count: nat, flags: Flags, s: set<Item>)
    requires Feasible(plan, from, item, count, flags, s)
    ensures plan.dest in s && plan.m > 0 && KeepsAll(plan, from, item, flags)
    ensures item.IsStackable() ==> plan.m <= count
  {
    hide Valid, Shape, Up, Lost, Merged;
  }

  lemma RoomFound(dest: Item, at: int, target: Option<Item>, item: Item, m: nat, count: nat, flags: Flags, s: set<Item>)
    requires Settled(dest, at, target, item, s) && !flags.noLimit && m > 0
    requires m <= dest.QueryMaxCount(at, item, count, flags).1
    ensures HasRoom(Plan(dest, at, target, m), item)
  {
  }

  ghost predicate Askable(from: Item, dest: Item, item: Item, s: set<Item>)
    reads s
  {
    Valid(Shape(s)) && from in s && dest in s && item in s && forall k :: k in dest.itemlist ==> k in s
  }

  /** The answer for a settled destination: nothing moves onto itself, nothing that the destination refuses or has
      no room for, nothing the source does not give away; and as much moves as was asked for and fits.
   */
  ghost function AnswerAt(from: Item, dest: Item, at: int, target: Option<Item>, item: Item, count: nat, flags: Flags,
                          maxInside: nat, s: set<Item>): (ReturnValue, Option<Plan>)
    requires Askable(from, dest, item, s)
    reads s, if target.Some? then {target.value} else {}
  {
    var verdict, fits := dest.AddVerdict(at, item, flags, maxInside, s), Fits(dest, target, item, count, flags);
    var m := if item.IsStackable() && count < fits then count else fits;
    if target == Some(item) then (NoError, None)
    else if verdict != NoError then (verdict, None)
    else if !flags.noLimit && fits == 0 && (item.IsStackable() ==> count > 0) then (ContainerNotEnoughRoom, None)
    else if item !in from.itemlist || m == 0 || (item.IsStackable() && m > item.count) then (NotPossible, None)
    else if !item.types(item.id).moveable && !flags.ignoreNotMoveable then (NotMoveable, None)
    else (if item.IsStackable() && !flags.noLimit && fits < count then ContainerNotEnoughRoom else NoError,
          Some(Plan(dest, at, target, if m < 0 then 0 else m)))
  }

  /** How many units a destination takes: with limits, a hundred for every free slot, and what the target still takes. */
  function Fits(dest: Item, target: Option<Item>, item: Item, count: nat, flags: Flags): int
    reads dest`itemlist, item`id, if target.Some? then {target.value} else {}
  {
    var free := Less(dest.Capacity(), |dest.itemlist|);
    if flags.noLimit then Max(1, count)
    else if !item.IsStackable() then free
    else 100 * free + if target.Some? && target.value.id == item.id then 100 - target.value.count else 0
  }

  /** The source asks the destination by index, which is that of the target. */
  lemma FitsIs(dest: Item, at: int, target: Option<Item>, item: Item, count: nat, flags: Flags, s: set<Item>)
    requires Settled(dest, at, target, item, s)
    ensures var most := dest.QueryMaxCount(at, item, count, flags);
      var fits := Fits(dest, target, item, count, flags);
      most == (if flags.noLimit || (if item.IsStackable() then fits >= count else fits > 0) then NoError else ContainerNotEnoughRoom, fits)
  {
    hide Item.QueryMaxCount, Item.Capacity;
  }

  ghost predicate Movable(from: Item, to: Item, item: Item, s: set<Item>)
    reads s
  {
    Valid(Shape(s)) && from in s && to in s && item in s
  }

  /** What internalMoveItem answers, and what it will move. */
  ghost function MoveAnswer(from: Item, to: Item, index: int, item: Item, count: nat, flags: Flags, autoStack: bool,
                            maxInside: nat, s: set<Item>): (ReturnValue, Option<Plan>)
    requires Movable(from, to, item, s) && index >= INDEX_WHEREEVER
    reads s
  {
    var d := Resolved(to, index, item, flags, autoStack, 0, s);
    KidsIn(s, d.0);
    AnswerAt(from, d.0, d.1, d.2, item, count, d.3, maxInside, s)
  }

  /** How many units internalMoveItem loses. */
  ghost function MoveLost(from: Item, to: Item, index: int, item: Item, count: nat, flags: Flags, autoStack: bool,
                          maxInside: nat, s: set<Item>): int
    requires Movable(from, to, item, s) && index >= INDEX_WHEREEVER
    reads s
  {
    var d := Resolved(to, index, item, flags, autoStack, 0, s);
    KidsIn(s, d.0);
    var plan := AnswerAt(from, d.0, d.1, d.2, item, count, d.3, maxInside, s).1;
    if plan.None? then 0 else Lost(from, d.0, d.1, d.2, item, plan.value.m)
  }

  /** How the move goes that internalMoveItem settles on. */
  ghost function MoveCourse(from: Item, to: Item, index: int, item: Item, count: nat, flags: Flags, autoStack: bool,
                            maxInside: nat, s: set<Item>): Course
    requires Movable(from, to, item, s) && index >= INDEX_WHEREEVER
    reads s
  {
    var d := Resolved(to, index, item, flags, autoStack, 0, s);
    KidsIn(s, d.0);
    var plan := AnswerAt(from, d.0, d.1, d.2, item, count, d.3, maxInside, s).1;
    CourseOf(Plan(d.0, d.1, d.2, if plan.None? then 0 else plan.value.m), from, item)
  }

  lemma MoveCourseIs(from: Item, to: Item, index: int, item: Item, count: nat, flags: Flags, autoStack: bool, maxInside: nat, s: set<Item>)
    requires Movable(from, to, item, s) && index >= INDEX_WHEREEVER
    ensures var plan := MoveAnswer(from, to, index, item, count, flags, autoStack, maxInside, s).1;
      plan.Some? ==>
        MoveCourse(from, to, index, item, count, flags, autoStack, maxInside, s) == CourseOf(plan.value, from, item)
  {
    hide Resolved, CourseOf, Valid, Shape, Item.AddVerdict, Fits;
    KidsIn(s, Resolved(to, index, item, flags, autoStack, 0, s).0);
  }

  lemma MoveLostIs(from: Item, to: Item, index: int, item: Item, count: nat, flags: Flags, autoStack: bool, maxInside: nat, s: set<Item>)
    requires Movable(from, to, item, s) && index >= INDEX_WHEREEVER
    ensures var plan := MoveAnswer(from, to, index, item, count, flags, autoStack, maxInside, s).1;
      MoveLost(from, to, index, item, count, flags, autoStack, maxInside, s)
      == if plan.None? then 0 else Lost(from, plan.value.dest, plan.value.at, plan.value.target, item, plan.value.m)
  {
    hide Resolved, Lost, Valid, Shape, Item.AddVerdict, Item.QueryMaxCount, Item.QueryRemove;
    KidsIn(s, Resolved(to, index, item, flags, autoStack, 0, s).0);
  }

  /** How many things a container can hold, whatever it holds now. */
  function Size(c: Item): nat {
    if c.maxSize != 0 then c.maxSize else 255
  }

  /** A move that loses units: onto a stack that lies beyond the size of its container and has not enough room; or,
      in a container without a size, of a whole thing to the place behind the last, which goes as the thing is taken.
   */
  ghost predicate Loses(plan: Plan, from: Item, item: Item)
    reads from, plan.dest, item, if plan.target.Some? then {plan.target.value} else {}
  {
    match plan.target
    case Some(stack) => plan.at >= Size(plan.dest) && plan.m > 100 - stack.count
    case None =>
      plan.dest.maxSize == 0 && from == plan.dest && (!item.IsStackable() || plan.m == item.count) && plan.at == |plan.dest.itemlist|
  }

  lemma LostExactly(plan: Plan, from: Item, item: Item, s: set<Item>)
    requires Settled(plan.dest, plan.at, plan.target, item, s) && item in from.itemlist && plan.m > 0
    requires plan.target.Some? ==> 1 <= plan.target.value.count <= 255
    ensures Lost(from, plan.dest, plan.at, plan.target, item, plan.m) > 0 <==> Loses(plan, from, item)
  {
  }

  /** What a destination that accepts the item does with it. It refuses units for room if and only if it has no free slot
      and they are not moved onto a stack of the same id that is not full; otherwise it takes as many as are asked for
      and fit.
   */
  lemma MoveAmount(from: Item, to: Item, index: int, item: Item, count: nat, flags: Flags, autoStack: bool,
                   maxInside: nat, s: set<Item>)
    requires Movable(from, to, item, s) && index >= INDEX_WHEREEVER && Ready(s) && item.IsStackable() && count > 0
    requires forall x :: x in s ==> x.types == item.types
    ensures var (ret, plan) := MoveAnswer(from, to, index, item, count, flags, autoStack, maxInside, s);
      var (dest, at, target, flags') := Resolved(to, index, item, flags, autoStack, 0, s);
      var onto := target.Some? && target.value.id == item.id && target.value.count < 100;
      var free := Less(dest.Capacity(), |dest.itemlist|);
      var fits := if flags'.noLimit then count else 100 * free + if onto then 100 - target.value.count else 0;
      dest.AddVerdict(at, item, flags', maxInside, s) == NoError && target != Some(item) ==>
        && (ret == ContainerNotEnoughRoom && plan.None? <==> !flags'.noLimit && free == 0 && !onto)
        && (plan.Some? ==>
              && plan.value.m == (if count < fits then count else fits)
              && (ret == NoError <==> count <= fits) && (ret != NoError ==> ret == ContainerNotEnoughRoom))
        && (plan.Some? <==>
              && fits > 0 && item in from.itemlist && (if count < fits then count else fits) <= item.count
              && (item.types(item.id).moveable || flags'.ignoreNotMoveable))
  {
    hide Valid, Shape, Settled, Resolved, Item.AddVerdict;
    var d := Resolved(to, index, item, flags, autoStack, 0, s);
    KidsIn(s, d.0);
    if d.2.Some? {
      ReadyStacks(s, d.2.value);
    }
  }

  /** Exactly when internalMoveItem loses units. */
  lemma MoveLosesExactly(from: Item, to: Item, index: int, item: Item, count: nat, flags: Flags, autoStack: bool,
                         maxInside: nat, s: set<Item>)
    requires Movable(from, to, item, s) && index >= INDEX_WHEREEVER
    requires Ready(s) && !flags.childIsOwner && forall x :: x in s ==> x.types == item.types
    ensures var plan := MoveAnswer(from, to, index, item, count, flags, autoStack, maxInside, s).1;
      MoveLost(from, to, index, item, count, flags, autoStack, maxInside, s) > 0 <==> plan.Some? && Loses(plan.value, from, item)
  {
    hide Valid, Shape, Resolved, Lost, Settled, Ready, Loses;
    MoveLostIs(from, to, index, item, count, flags, autoStack, maxInside, s);
    var d := Resolved(to, index, item, flags, autoStack, 0, s);
    KidsIn(s, d.0);
    SettledFacts(d.0, d.1, d.2, item, s);
    if d.2.Some? {
      ReadyStacks(s, d.2.value);
    }
    if AnswerAt(from, d.0, d.1, d.2, item, count, d.3, maxInside, s).1.Some? {
      ResolvedFlags(to, index, item, flags, autoStack, 0, s);
      AnswerSound(from, d.0, d.1, d.2, item, count, d.3, maxInside, s);
      LostExactly(AnswerAt(from, d.0, d.1, d.2, item, count, d.3, maxInside, s).1.value, from, item, s);
    }
  }

  lemma ResolvedFlags(dest: Item, index: int, item: Item, flags: Flags, autoStack: bool, floorN: nat, s: set<Item>)
    requires Valid(Shape(s)) && dest in s && index >= INDEX_WHEREEVER
    ensures Resolved(dest, index, item, flags, autoStack, floorN, s).3 in {flags, NO_FLAGS}
    decreases MAP_MAX_LAYERS - floorN
  {
    hide Valid, Shape, Settled;
    ResolvedStep(dest, index, item, flags, autoStack, floorN, s);
    var d := dest.Destination(index, item, autoStack);
    if d.0 != dest && floorN + 1 < MAP_MAX_LAYERS {
      ResolvedFlags(d.0, d.1, item, NO_FLAGS, autoStack, floorN + 1, s);
    }
  }

  /** What there is to a plan. */
  lemma AnswerAtIs(from: Item, dest: Item, at: int, target: Option<Item>, item: Item, count: nat, flags: Flags,
                   maxInside: nat, s: set<Item>)
    requires Askable(from, dest, item, s)
    ensures var plan := AnswerAt(from, dest, at, target, item, count, flags, maxInside, s).1;
      var fits := Fits(dest, target, item, count, flags);
      plan.Some? ==>
        && dest.AddVerdict(at, item, flags, maxInside, s) == NoError && target != Some(item) && item in from.itemlist
        && plan.value.dest == dest && plan.value.at == at && plan.value.target == target
        && (var m := if item.IsStackable() && count < fits then count else fits; plan.value.m == if m < 0 then 0 else m)
        && (fits >= 0 ==> plan.value.m > 0) && (item.IsStackable() && fits >= 0 ==> plan.value.m <= item.count && plan.value.m <= count)
  {
    hide Valid, Shape, Item.AddVerdict, Fits;
  }

  lemma AnswerSound(from: Item, dest: Item, at: int, target: Option<Item>, item: Item, count: nat, flags: Flags,
                    maxInside: nat, s: set<Item>)
    requires Askable(from, dest, item, s) && Ready(s) && Settled(dest, at, target, item, s)
    requires !flags.childIsOwner && forall x :: x in s ==> x.types == item.types
    ensures var plan := AnswerAt(from, dest, at, target, item, count, flags, maxInside, s).1;
      plan.Some? ==> Feasible(plan.value, from, item, count, flags, s)
  {
    hide Valid, Shape, Up, Lost, Settled, Ready, Merged, Fits, Item.QueryMaxCount;
    AnswerAtIs(from, dest, at, target, item, count, flags, maxInside, s);
    SettledFacts(dest, at, target, item, s);
    NodeFacts(s, dest);
    MaxCountNatural(dest, at, target, item, count, flags, s);
    FitsIs(dest, at, target, item, count, flags, s);
    var plan := AnswerAt(from, dest, at, target, item, count, flags, maxInside, s).1;
    if plan.Some? {
      var m := plan.value.m;
      if dest.maxSize != 0 && (!flags.noLimit || |dest.itemlist| <= dest.maxSize) {
        NothingLost(from, dest, at, target, item, m, count, flags, s);
      }
      if !flags.noLimit {
        RoomFound(dest, at, target, item, m, count, flags, s);
      }
    }
  }

  /** The questions internalMoveItem asks: no state is changed. */
  method Ask(from: Item, to: Item, index: int, item: Item, count: nat, flags: Flags, autoStack: bool, maxInside: nat, ghost s: set<Item>)
    returns (ret: ReturnValue, plan: Option<Plan>)
    requires Movable(from, to, item, s) && index >= INDEX_WHEREEVER
    requires Ready(s) && !flags.childIsOwner && forall x :: x in s ==> x.types == item.types
    ensures (ret, plan) == MoveAnswer(from, to, index, item, count, flags, autoStack, maxInside, s)
    ensures plan.Some? ==> Feasible(plan.value, from, item, count, flags, s)
  {
    hide Valid, Shape, Settled, Ready, Resolved, Sound, HasRoom, AnswerAt;
    var dest, at, target, flags' := Resolve(to, index, item, flags, autoStack, s);
    SettledIn(dest, at, target, item, s);
    KidsIn(s, dest);
    ret, plan := AskAt(from, dest, at, target, item, count, flags', maxInside, s);
    AnswerSound(from, dest, at, target, item, count, flags', maxInside, s);
  }

  lemma SettledIn(dest: Item, at: int, target: Option<Item>, item: Item, s: set<Item>)
    requires Settled(dest, at, target, item, s)
    ensures dest in s
  {
  }

  method AskAt(from: Item, dest: Item, at: int, target: Option<Item>, item: Item, count: nat, flags: Flags,
               maxInside: nat, ghost s: set<Item>) returns (ret: ReturnValue, plan: Option<Plan>)
    requires Askable(from, dest, item, s)
    requires Ready(s) && Settled(dest, at, target, item, s) && forall x :: x in s ==> x.types == item.types
    ensures (ret, plan) == AnswerAt(from, dest, at, target, item, count, flags, maxInside, s)
  {
    hide Valid, Shape, Settled, Ready, Item.QueryMaxCount, Item.AddVerdict, Fits;
    FitsIs(dest, at, target, item, count, flags, s);
    plan := None;
    if target == Some(item) { return NoError, None; }
    ret := dest.QueryAdd(at, item, flags, maxInside, s);
    if ret != NoError { return; }
    var most := dest.QueryMaxCount(at, item, count, flags);
    var maxQueryCount := most.1;
    if most.0 != NoError && maxQueryCount == 0 {
      return most.0, None;
    }
    MaxCountNatural(dest, at, target, item, count, flags, s);
    var m: nat := if item.IsStackable() && count < maxQueryCount then count else maxQueryCount;
    ret := from.QueryRemove(item, m, flags);
    if ret != NoError { return; }
    plan := Some(Plan(dest, at, target, m));
    if item.IsStackable() && maxQueryCount < count {
      ret := most.0;
    }
  }

  lemma MaxCountNatural(dest: Item, at: int, target: Option<Item>, item: Item, count: nat, flags: Flags, s: set<Item>)
    requires Ready(s) && Settled(dest, at, target, item, s) && item in s && forall x :: x in s ==> x.types == item.types
    ensures dest.QueryMaxCount(at, item, count, flags).1 >= 0
  {
    hide Consistent;
  }

  /** Game::internalMoveItem between containers. When the call moves something, every
      container's holdings of every kind of thing are as before except that the source
      loses what was taken and the destination gains all of it that was not lost.
   */
  method InternalMoveItem(fromCylinder: Item, toCylinder: Item?, index: int, item: Item, count: nat,
                          flags: Flags, autoStack: bool, maxInside: nat, ghost s: set<Item>)
    returns (ret: ReturnValue, moveItem: Item?, ghost plan: Option<Plan>, ghost took: int, ghost lost: int, ghost course: Course,
             ghost s': set<Item>)
    requires Ready(s) && fromCylinder in s && (toCylinder != null ==> toCylinder in s) && item in s
    requires index >= INDEX_WHEREEVER && !flags.childIsOwner && forall x :: x in s ==> x.types == item.types
    modifies s`parent, s`itemlist, s`rank, s`amountOfItems, s`totalWeight, s`id, s`count
    ensures Ready(s') && s <= s' && fresh(s' - s)
    ensures (ret, plan) == if toCylinder == null then (NotPossible, None)
                           else old(MoveAnswer(fromCylinder, toCylinder, index, item, count, flags, autoStack, maxInside, s))
    ensures plan.None? ==> s' == s && Shape(s) == old(Shape(s)) && Stock(s) == old(Stock(s))
    ensures plan.Some? ==>
      && (if item.types(item.id).stackable then 0 < took <= count && took == plan.value.m else took == 1) && item.id == old(item.id)
      && Transfer(s, old(Shape(s)), old(Stock(s)), Shape(s'), Stock(s'), fromCylinder, took, plan.value.dest, took - lost, item.id)
    ensures lost == if toCylinder == null then 0
                    else old(MoveLost(fromCylinder, toCylinder, index, item, count, flags, autoStack, maxInside, s))
    ensures plan.Some? ==>
      (plan.value.dest.maxSize != 0 && (!flags.noLimit || |Held(old(Shape(s)), plan.value.dest)| <= plan.value.dest.maxSize)
       ==> lost == 0)
    ensures !flags.noLimit ==> WithinLimits(s, old(Shape(s)), Shape(s'))
    ensures toCylinder != null ==>
      course == old(MoveCourse(fromCylinder, toCylinder, index, item, count, flags, autoStack, maxInside, s))
    ensures plan.Some? ==>
      moveItem != null
      && CarriedOut(s, old(Stock(s)), old(Shape(s).kids), s', Stock(s'), Shape(s').kids, plan.value, course, fromCylinder, item, moveItem)
  {
    hide Valid, Shape, Units, Ready, Up, Transfer, Stock, Merged, CapacityAfter, Lost, Held, WithinLimits, Grows, MoveAnswer, MoveLost,
      Feasible, CarriedOut, CourseOf, MoveCourse, Resolved, AnswerAt, Settled, Sound, HasRoom, Balance, Item.Holder;
    if toCylinder == null {
      GrowsSame(s, Shape(s), item);
      return NotPossible, null, None, 0, 0, Course(false, false, 0, false), s;
    }
    ret, moveItem, plan, took, lost, course, s' := MoveTo(fromCylinder, toCylinder, index, item, count, flags, autoStack, maxInside, s);
  }

  /** The same when there is a destination. */
  method MoveTo(fromCylinder: Item, toCylinder: Item, index: int, item: Item, count: nat,
                flags: Flags, autoStack: bool, maxInside: nat, ghost s: set<Item>)
    returns (ret: ReturnValue, moveItem: Item?, ghost plan: Option<Plan>, ghost took: int, ghost lost: int, ghost course: Course,
             ghost s': set<Item>)
    requires Ready(s) && fromCylinder in s && toCylinder in s && item in s
    requires index >= INDEX_WHEREEVER && !flags.childIsOwner && forall x :: x in s ==> x.types == item.types
    modifies s`parent, s`itemlist, s`rank, s`amountOfItems, s`totalWeight, s`id, s`count
    ensures Ready(s') && s <= s' && fresh(s' - s) && Valid(old(Shape(s)))
    ensures (ret, plan) == old(MoveAnswer(fromCylinder, toCylinder, index, item, count, flags, autoStack, maxInside, s))
    ensures plan.None? ==> s' == s && Shape(s) == old(Shape(s)) && Stock(s) == old(Stock(s))
    ensures plan.Some? ==>
      && (if item.types(item.id).stackable then 0 < took <= count && took == plan.value.m else took == 1) && item.id == old(item.id)
      && Transfer(s, old(Shape(s)), old(Stock(s)), Shape(s'), Stock(s'), fromCylinder, took, plan.value.dest, took - lost, item.id)
    ensures lost == old(MoveLost(fromCylinder, toCylinder, index, item, count, flags, autoStack, maxInside, s))
    ensures plan.Some? ==>
      (plan.value.dest.maxSize != 0 && (!flags.noLimit || |Held(old(Shape(s)), plan.value.dest)| <= plan.value.dest.maxSize)
       ==> lost == 0)
    ensures !flags.noLimit ==> WithinLimits(s, old(Shape(s)), Shape(s'))
    ensures course == old(MoveCourse(fromCylinder, toCylinder, index, item, count, flags, autoStack, maxInside, s))
    ensures plan.Some? ==>
      moveItem != null
      && CarriedOut(s, old(Stock(s)), old(Shape(s).kids), s', Stock(s'), Shape(s').kids, plan.value, course, fromCylinder, item, moveItem)
  {
    hide Valid, Shape, Units, Ready, Up, Transfer, Stock, Merged, CapacityAfter, Lost, Held, WithinLimits, Grows, MoveAnswer, MoveLost,
      Feasible, CarriedOut, CourseOf, MoveCourse, Resolved, AnswerAt, Settled, Sound, HasRoom, Balance, Item.Holder;
    GrowsSame(s, Shape(s), item);
    ReadyValid(s);
    moveItem, plan, took, lost, s' := null, None, 0, 0, s;
    var p;
    ret, p := Ask(fromCylinder, toCylinder, index, item, count, flags, autoStack, maxInside, s);
    MoveLostIs(fromCylinder, toCylinder, index, item, count, flags, autoStack, maxInside, s);
    MoveCourseIs(fromCylinder, toCylinder, index, item, count, flags, autoStack, maxInside, s);
    course := MoveCourse(fromCylinder, toCylinder, index, item, count, flags, autoStack, maxInside, s);
    if p.None? { return; }
    plan := p;
    moveItem, took, lost, s' := CarryOut(p.value, fromCylinder, item, count, flags, s);
  }

  /** Carries a plan out, within the limits of every container if they hold. */
  method CarryOut(plan: Plan, from: Item, item: Item, count: nat, flags: Flags, ghost s: set<Item>)
    returns (moveItem: Item, ghost took: int, ghost lost: int, ghost s': set<Item>)
    requires Ready(s) && from in s && item in s && forall x :: x in s ==> x.types == item.types
    requires Feasible(plan, from, item, count, flags, s)
    modifies s`parent, s`itemlist, s`rank, s`amountOfItems, s`totalWeight, s`id, s`count
    ensures Ready(s') && s <= s' && fresh(s' - s) && item.id == old(item.id)
    ensures if item.types(item.id).stackable then 0 < took <= count && took == plan.m else took == 1
    ensures lost == old(Lost(from, plan.dest, plan.at, plan.target, item, plan.m))
    ensures plan.dest.maxSize != 0 && (!flags.noLimit || |Held(old(Shape(s)), plan.dest)| <= plan.dest.maxSize) ==> lost == 0
    ensures Transfer(s, old(Shape(s)), old(Stock(s)), Shape(s'), Stock(s'), from, took, plan.dest, took - lost, item.id)
    ensures !flags.noLimit ==> WithinLimits(s, old(Shape(s)), Shape(s'))
    ensures CarriedOut(s, old(Stock(s)), old(Shape(s).kids), s', Stock(s'), Shape(s').kids, plan, old(CourseOf(plan, from, item)),
                       from, item, moveItem)
  {
    hide Valid, Shape, Units, Ready, Up, Transfer, Stock, Merged, Taken, CapacityAfter, Lost, Held, WithinLimits, Grows,
      Restocked, Relisted;
    FeasibleFacts(plan, from, item, count, flags, s);
    took, lost := Taken(item, plan.m), Lost(from, plan.dest, plan.at, plan.target, item, plan.m);
    LostIs(from, plan.dest, plan.at, plan.target, item, plan.m);
    ReadyStacks(s, item);
    HeldIs(s, plan.dest);
    ghost var f := Shape(s);
    var moved;
    moved, s' := Perform(from, plan.dest, plan.at, plan.target, item, plan.m, s);
    if !flags.noLimit {
      GrowsWithin(s, f, Shape(s'), plan.dest, if moved == null then 0 else 1);
    }
    moveItem := if moved == null then item else moved;
  }

  /** A world of one more thing, held by nobody or put into a container. */
  method Enter(types: ItemTypes, id: nat, count: nat, isContainer: bool, maxSize: nat, into: Item?, ghost s: set<Item>)
    returns (x: Item, ghost s': set<Item>)
    requires Ready(s) && Valid(Shape(s)) && 1 <= count <= 100 && (into != null ==> into in s)
    modifies s`itemlist, s`rank, s`amountOfItems, s`totalWeight
    ensures Ready(s') && fresh(x) && s' == s + {x} && x !in s
    ensures x.types == types && x.id == id && x.count == count && x.isContainer == isContainer && x.maxSize == maxSize
    ensures x.itemlist == [] && x.parent == into
    ensures forall y :: y in s ==> y.itemlist == if y == into then [x] + old(y.itemlist) else old(y.itemlist)
  {
    hide Valid, Shape, Ready, Consistent, Up;
    x := new Item(types, id, count, isContainer, maxSize);
    RootJoins(s, x);
    s' := s + {x};
    if into != null {
      PutFirst(into, x, s');
    }
  }

  method PutFirst(into: Item, x: Item, ghost s: set<Item>)
    requires Ready(s) && Valid(Shape(s)) && into in s && x in s && x.parent == null && x !in Up(Shape(s), into)
    modifies x`parent, into`itemlist, s`rank, s`amountOfItems, s`totalWeight
    ensures Ready(s) && x.parent == into && into.itemlist == [x] + old(into.itemlist)
  {
    hide Valid, Shape, Ready, Consistent, Up, Attach;
    ReadyValid(s);
    ListsAre(s);
    ghost var f := Shape(s);
    into.InternalAddThing(x, s);
    MakeReady(s);
    ListsAre(s);
    AttachedLists(f, into, x);
  }

  lemma ListsAre(s: set<Item>)
    ensures Shape(s).parent.Keys == s && Shape(s).kids.Keys == s
    ensures forall y :: y in s ==> Shape(s).kids[y] == y.itemlist && Shape(s).parent[y] == y.Holder()
  {
  }

  lemma AttachedLists(f: Forest<Item>, c: Item, x: Item)
    requires Valid(f) && c in f.parent && x in f.parent
    ensures Attach(f, c, x, 0).kids == f.kids[c := [x] + f.kids[c]] && Attach(f, c, x, 0).parent == f.parent[x := Some(c)]
  {
    hide Linked, Ranked, Up;
    assert [] + [x] + f.kids[c] == [x] + f.kids[c];
  }

  /** A container with the size one that holds two things: a container with a stack of fifty, and one of ninety. */
  ghost predicate Overfull(dest: Item, stack: Item, from: Item, item: Item, s: set<Item>)
    reads s, dest, stack, from, item
  {
    && s == {dest, stack, from, item} && from != dest && stack != item && item != dest
    && dest.itemlist == [from, stack] && from.itemlist == [item] && dest.maxSize == 1 && dest.parent == null && item.parent == from
    && from.id == 2 && stack.id == item.id == 1 && stack.count == 90 && item.count == 50
    && dest.isContainer && from.isContainer && !stack.isContainer && !item.isContainer
    && (forall x :: x in s ==> x.types == item.types)
    && (forall id :: item.types(id) == ItemType(true, true, true, 0, 0))
  }

  method OverfullWorld() returns (dest: Item, stack: Item, from: Item, item: Item, ghost s: set<Item>)
    ensures Ready(s) && fresh(s) && Overfull(dest, stack, from, item, s)
  {
    hide Valid, Shape, Ready, Consistent, Up;
    var types: ItemTypes := id => ItemType(true, true, true, 0, 0);
    dest, stack, s := FullContainer(types);
    ReadyValid(s);
    from, s := Enter(types, 2, 1, true, 20, dest, s);
    ReadyValid(s);
    item, s := Enter(types, 1, 50, false, 0, from, s);
  }

  method FullContainer(types: ItemTypes) returns (dest: Item, stack: Item, ghost s: set<Item>)
    ensures Ready(s) && fresh(s) && s == {dest, stack} && dest != stack
    ensures dest.types == stack.types == types && dest.itemlist == [stack] && stack.itemlist == []
    ensures dest.maxSize == 1 && dest.parent == null && dest.isContainer && stack.id == 1 && stack.count == 90 && !stack.isContainer
  {
    hide Valid, Shape, Ready, Consistent, Up;
    s := {};
    EmptyReady();
    ReadyValid(s);
    dest, s := Enter(types, 2, 1, true, 1, null, s);
    ReadyValid(s);
    stack, s := Enter(types, 1, 90, false, 0, dest, s);
  }

  /** The units of the first kind in two containers. */
  ghost function BothUnits(s: set<Item>, from: Item, dest: Item): nat
    reads s`parent, s`itemlist, s`rank, s`id, s`count
  {
    Units(Stock(s), Held(Shape(s), from), 1) + Units(Stock(s), Held(Shape(s), dest), 1)
  }

  /** Forty units are lost: fifty are moved, without limits, onto a stack of ninety at the second place of a container
      with the size one. Ten are merged, and the container refuses the place for the others.
   */
  method UnitsAreLost(dest: Item, stack: Item, from: Item, item: Item, ghost s: set<Item>) returns (ghost s': set<Item>)
    requires Ready(s) && Overfull(dest, stack, from, item, s)
    modifies s`parent, s`itemlist, s`rank, s`amountOfItems, s`totalWeight, s`id, s`count
    ensures s <= s' && old(BothUnits(s, from, dest)) == 140 && BothUnits(s', from, dest) == 100
  {
    hide Valid, Shape, Ready, Consistent, Up, Attach, MoveAnswer, MoveLost, Transfer, Units, Stock;
    ReadyValid(s);
    LosingPlan(from, dest, stack, item, s);
    HeldIs(s, from);
    HeldIs(s, dest);
    UnitsOfTwo(s, from, stack);
    UnitsOfOne(s, item);
    var ret, moved;
    ghost var plan, took, lost, course;
    ghost var f, g := Shape(s), Stock(s);
    ret, moved, plan, took, lost, course, s' :=
      InternalMoveItem(from, dest, INDEX_WHEREEVER, item, 50, Flags(true, false, false), true, 0, s);
    TransferBetween(s, f, g, Shape(s'), Stock(s'), from, took, dest, took - lost, 1);
  }

  /** Taking more units off a stack than there are leaves the totals of its container wrong. */
  method TotalsBreak() returns (dest: Item, stack: Item, ghost s: set<Item>)
    ensures fresh(s) && s == {dest, stack} && stack in dest.itemlist && stack.count == 1 && !Consistent(s)
  {
    hide Valid, Shape, Ready, Consistent, Up;
    var types: ItemTypes := id => ItemType(true, true, true, 0, 0);
    dest, stack, s := FullContainer(types);
    ReadyValid(s);
    dest.RemoveThing(stack, 91, s);
  }

  lemma TransferBetween(s: set<Item>, f: Forest<Item>, g: map<Item, Goods>, f': Forest<Item>, g': map<Item, Goods>,
                        from: Item, out: int, to: Item, entering: int, id: nat)
    requires Transfer(s, f, g, f', g', from, out, to, entering, id) && from in s && to in s && from != to
    ensures Units(g', Held(f', from), id) + Units(g', Held(f', to), id)
            == Units(g, Held(f, from), id) + Units(g, Held(f, to), id) - out + entering
  {
    hide Units;
  }

  lemma EmptyReady()
    ensures Ready({})
  {
  }

  lemma UnitsOfOne(s: set<Item>, x: Item)
    requires x in s
    ensures Units(Stock(s), [x], 1) == if x.id == 1 then GoodsOf(x).units else 0
  {
  }

  lemma UnitsOfTwo(s: set<Item>, x: Item, y: Item)
    requires x in s && y in s && x.id == 2
    ensures Units(Stock(s), [x, y], 1) == if y.id == 1 then GoodsOf(y).units else 0
  {
    UnitsOfOne(s, y);
    assert [x, y][1..] == [y];
  }

  lemma LosingPlan(from: Item, dest: Item, stack: Item, item: Item, s: set<Item>)
    requires Valid(Shape(s)) && from in s && dest in s && item in s && stack in s && from != dest && item.types == dest.types
    requires dest.itemlist == [from, stack] && from.itemlist == [item] && dest.maxSize == 1 && dest.parent == null
    requires from.id == 2 && stack.id == item.id == 1 && stack.count == 90 && item.count == 50 && stack != item && item.parent == from
    requires item != dest && forall id :: item.types(id) == ItemType(true, true, true, 0, 0)
    ensures MoveAnswer(from, dest, INDEX_WHEREEVER, item, 50, Flags(true, false, false), true, 0, s)
            == (NoError, Some(Plan(dest, 1, Some(stack), 50)))
    ensures MoveLost(from, dest, INDEX_WHEREEVER, item, 50, Flags(true, false, false), true, 0, s) == 40
  {
    hide Valid, Shape;
    UpFacts(s, dest);
    assert dest.FirstStack(item, 1) == 1;
    assert dest.FirstStack(item, 0) == 1;
    assert dest.Destination(INDEX_WHEREEVER, item, true) == (dest, 1, Some(stack));
    ResolvedStep(dest, INDEX_WHEREEVER, item, Flags(true, false, false), true, 0, s);
    KidsIn(s, dest);
    MoveLostIs(from, dest, INDEX_WHEREEVER, item, 50, Flags(true, false, false), true, 0, s);
  }

  // ---------- internalAddItem ----------

  /** What internalAddItem answers: the destination must accept the item, and the container it
      was offered to must have room for all of it.
   */
  ghost function AddAnswer(c: Item, index: int, item: Item, flags: Flags, autoStack: bool, maxInside: nat, s: set<Item>): ReturnValue
    requires Valid(Shape(s)) && c in s && item in s && index >= INDEX_WHEREEVER
    reads s
  {
    DestinationSettles(c, index, item, autoStack, s);
    KidsIn(s, c);
    var d := c.Destination(index, item, autoStack);
    var verdict := d.0.AddVerdict(d.1, item, flags, maxInside, s);
    var free := Less(c.Capacity(), |c.itemlist|);
    if verdict != NoError then verdict
    else if flags.noLimit || (if item.IsStackable() then item.count <= 100 * free else free > 0) then NoError
    else ContainerNotEnoughRoom
  }

  /** How many of some units a stack takes. */
  function Room(g: map<Item, Goods>, x: Item, id: nat, units: nat): (n: nat)
    ensures n <= units
  {
    if x in g && g[x].id == id && g[x].units < 100 then Min(100 - g[x].units, units) else 0
  }

  /** Units poured over the stacks of a list, each filled before the next, and what is left of them. */
  function Poured(g: map<Item, Goods>, list: seq<Item>, id: nat, units: nat): (map<Item, Goods>, nat) {
    if list == [] then (g, units)
    else var n := Room(g, list[0], id, units); Poured(More(g, Some(list[0]), n), list[1..], id, units - n)
  }

  /** Units of an item merged into the target and, if stacks are filled, into those that follow. */
  function Pouring(g: map<Item, Goods>, list: seq<Item>, target: Option<Item>, autoStack: bool, id: nat, units: nat)
    : (map<Item, Goods>, nat)
  {
    if target.None? then (g, units)
    else if autoStack then Poured(g, list, id, units)
    else var n := Room(g, target.value, id, units); (More(g, target, n), units - n)
  }

  lemma {:induction false} PouredNone(g: map<Item, Goods>, list: seq<Item>, id: nat)
    ensures Poured(g, list, id, 0) == (g, 0)
    decreases |list|
  {
    if list != [] {
      PouredNone(g, list[1..], id);
    }
  }

  lemma {:induction false} PouredSkips(g: map<Item, Goods>, list: seq<Item>, k: nat, id: nat, units: nat)
    requires k <= |list| && forall j :: 0 <= j < k ==> Room(g, list[j], id, units) == 0
    ensures Poured(g, list, id, units) == Poured(g, list[k..], id, units)
    decreases k
  {
    if k == 0 {
      assert list[0..] == list;
    } else {
      assert Room(g, list[0], id, units) == 0;
      PouredSkips(g, list[1..], k - 1, id, units);
      assert list[1..][k - 1..] == list[k..];
    }
  }

  /** Units are poured as if only the first stack with room took what it can, and all stacks then took the others. */
  lemma PouredFirst(g: map<Item, Goods>, list: seq<Item>, k: nat, id: nat, units: nat)
    requires k < |list| && units > 0 && list[k] in g && Room(g, list[k], id, units) > 0
    requires forall j :: 0 <= j < k ==> Room(g, list[j], id, units) == 0
    ensures var n := Room(g, list[k], id, units);
      Poured(g, list, id, units) == Poured(More(g, Some(list[k]), n), list, id, units - n)
  {
    hide Poured;
    var n := Room(g, list[k], id, units);
    var h := More(g, Some(list[k]), n);
    PouredSkips(g, list, k, id, units);
    PouredStep(g, list[k..], id, units);
    assert list[k..][1..] == list[k + 1..];
    if units == n {
      PouredNone(h, list, id);
      PouredNone(h, list[k + 1..], id);
    } else {
      PouredSkips(h, list, k + 1, id, units - n);
    }
  }

  lemma PouredStep(g: map<Item, Goods>, list: seq<Item>, id: nat, units: nat)
    requires list != []
    ensures Poured(g, list, id, units)
            == (var n := Room(g, list[0], id, units); Poured(More(g, Some(list[0]), n), list[1..], id, units - n))
  {
  }

  /** A thing that is not in the list does not matter. */
  lemma {:induction false} PouredApart(g: map<Item, Goods>, list: seq<Item>, id: nat, units: nat, x: Item, y: Goods)
    requires x !in list
    ensures Poured(g[x := y], list, id, units) == (Poured(g, list, id, units).0[x := y], Poured(g, list, id, units).1)
    decreases |list|
  {
    if list != [] {
      var n := Room(g, list[0], id, units);
      assert More(g[x := y], Some(list[0]), n) == More(g, Some(list[0]), n)[x := y];
      PouredApart(More(g, Some(list[0]), n), list[1..], id, units - n, x, y);
    }
  }

  lemma {:induction false} PouredKeys(g: map<Item, Goods>, list: seq<Item>, id: nat, units: nat)
    ensures Poured(g, list, id, units).0.Keys == g.Keys && Poured(g, list, id, units).1 <= units
    decreases |list|
  {
    if list != [] {
      var n := Room(g, list[0], id, units);
      PouredKeys(More(g, Some(list[0]), n), list[1..], id, units - n);
    }
  }

  /** What every thing stands for and every container holds when an item was added: all is as the units that merged
      leave it, and in front of the destination lies the item, or a new stack of the units that are left, if any are.
   */
  ghost predicate Joined(s: set<Item>, kids: map<Item, seq<Item>>, s': set<Item>, g': map<Item, Goods>, kids': map<Item, seq<Item>>,
                         dest: Item, item: Item, goods: Goods, poured: (map<Item, Goods>, nat), put: Item?)
  {
    && s <= s' && g'.Keys == kids'.Keys == s'
    && (put == null <==> poured.1 == 0)
    && (put == item <==> poured.1 == goods.units)
    && (put != null && put != item ==> put in s' - s && g'[put] == Goods(goods.id, poured.1))
    && (forall x :: x in s ==> x in poured.0 && g'[x] == poured.0[x])
    && (forall x :: x in s' ==>
          kids'[x] == (if x == dest && put != null then [put] else []) + if x in s && x in kids then kids[x] else [])
  }

  /** How many units of an item the things in a container take, and which of them takes any first. */
  lemma RoomIs(c: Item, item: Item, s: set<Item>)
    requires Ready(s) && Valid(Shape(s)) && c in s && item in s && item.parent == null && item.IsStackable()
    requires forall x :: x in s ==> x.types == item.types
    ensures var g, id, units := Stock(s), item.id, item.count;
      forall j :: 0 <= j < |c.itemlist| ==>
        && c.itemlist[j] in g && c.itemlist[j] != item && Room(g, c.itemlist[j], id, units) == Merged(item, Some(c.itemlist[j]), units)
        && (j < c.FirstStack(item, 0) ==> Room(g, c.itemlist[j], id, units) == 0)
        && (j == c.FirstStack(item, 0) ==> Room(g, c.itemlist[j], id, units) > 0)
  {
    hide Valid, Shape, Ready;
    StockFacts(s);
    ReadyStacks(s, item);
    forall j | 0 <= j < |c.itemlist|
      ensures c.itemlist[j] in s && c.itemlist[j] != item
      ensures 1 <= c.itemlist[j].count && (c.itemlist[j].IsStackable() ==> c.itemlist[j].count <= 100)
    {
      HeldBy(s, c, c.itemlist[j]);
      ReadyStacks(s, c.itemlist[j]);
    }
  }

  lemma PouredIs(c: Item, item: Item, s: set<Item>)
    requires Ready(s) && Valid(Shape(s)) && c in s && item in s && item.parent == null && item.IsStackable()
    requires forall x :: x in s ==> x.types == item.types
    ensures var g, list, k, id, units := Stock(s), c.itemlist, c.FirstStack(item, 0), item.id, item.count;
      Poured(g, list, id, units)
      == if k == |list| then (g, units)
         else (var n := Room(g, list[k], id, units); Poured(More(g, Some(list[k]), n), list, id, units - n))
  {
    hide Valid, Shape, Poured, Ready, More, Merged, Room, Stock;
    var g, list, k, id, units := Stock(s), c.itemlist, c.FirstStack(item, 0), item.id, item.count;
    RoomIs(c, item, s);
    ReadyStacks(s, item);
    if k < |list| {
      PouredFirst(g, list, k, id, units);
    } else {
      PouredSkips(g, list, k, id, units);
      assert list[k..] == [];
      PouredEmpty(g, id, units);
    }
  }

  /** How units are poured, said by the target that the destination offers. */
  lemma TargetTakes(c: Item, index: int, item: Item, autoStack: bool, s: set<Item>)
    requires Ready(s) && Valid(Shape(s)) && c in s && item in s && item.parent == null && item.IsStackable()
    requires index >= INDEX_WHEREEVER && forall x :: x in s ==> x.types == item.types
    ensures var (dest, at, target) := c.Destination(index, item, autoStack);
      var g, id, units, n := Stock(s), item.id, item.count, Merged(item, target, item.count);
      && 0 <= n <= units
      && (target.Some? ==>
            && dest == c
            && Pouring(g, c.itemlist, target, autoStack, id, units)
               == if autoStack && n > 0 then Poured(More(g, target, n), c.itemlist, id, units - n) else (More(g, target, n), units - n))
      && (index == INDEX_WHEREEVER && target.None? && autoStack ==> Poured(g, c.itemlist, id, units) == (g, units))
  {
    hide Valid, Shape, Poured, Ready, Room, Stock;
    RoomIs(c, item, s);
    PouredIs(c, item, s);
  }

  /** The units of an item that is added, poured over the stacks it meets, and what is left of them. */
  ghost function Added(c: Item, index: int, item: Item, autoStack: bool, s: set<Item>): (map<Item, Goods>, nat)
    reads s, c, c.itemlist, item
  {
    if item.IsStackable() then
      Pouring(Stock(s), c.itemlist, c.Destination(index, item, autoStack).2, autoStack, item.id, item.count)
    else (Stock(s), 1)
  }

  /** What is left of a stack is poured over all stacks if they are filled, and over none otherwise. */
  function Rest(g: map<Item, Goods>, list: seq<Item>, autoStack: bool, id: nat, units: nat): (map<Item, Goods>, nat) {
    if autoStack then Poured(g, list, id, units) else (g, units)
  }

  lemma AddedIs(c: Item, index: int, item: Item, autoStack: bool, s: set<Item>)
    requires Ready(s) && Valid(Shape(s)) && c in s && item in s && item.parent == null
    requires index >= INDEX_WHEREEVER && forall x :: x in s ==> x.types == item.types
    ensures var target := c.Destination(index, item, autoStack).2;
      var g, n := Stock(s), Merged(item, target, item.count);
      && GoodsOf(item).id == item.id && GoodsOf(item).units > 0 && 0 <= n <= item.count
      && Added(c, index, item, autoStack, s)
         == if !item.IsStackable() || target.None? || n == 0 then (g, GoodsOf(item).units)
            else Rest(More(g, target, n), c.itemlist, autoStack, item.id, item.count - n)
    ensures item.IsStackable() && index == INDEX_WHEREEVER ==>
      Added(c, index, item, autoStack, s) == Rest(Stock(s), c.itemlist, autoStack, item.id, item.count)
  {
    hide Valid, Shape, Poured, Ready, Stock, Merged;
    ReadyStacks(s, item);
    if item.IsStackable() {
      TargetTakes(c, index, item, autoStack, s);
    } else {
      MergedIs(item, c.Destination(index, item, autoStack).2, item.count, false, 0);
    }
  }

  /** The thing itself lies in front. */
  lemma JoinedWhole(s: set<Item>, g: map<Item, Goods>, kids: map<Item, seq<Item>>, dest: Item, item: Item, goods: Goods)
    requires g.Keys == kids.Keys == s && dest in s && item in s && goods.units > 0
    ensures Joined(s, kids, s, g, Ahead(kids, dest, item, true), dest, item, goods, (g, goods.units), item)
  {
  }

  /** Nothing is left. */
  lemma JoinedNone(s: set<Item>, g: map<Item, Goods>, kids: map<Item, seq<Item>>, dest: Item, item: Item, goods: Goods)
    requires g.Keys == kids.Keys == s && goods.units > 0
    ensures Joined(s, kids, s, g, kids, dest, item, goods, (g, 0), null)
  {
  }

  /** A stack of what is left is added, or vanishes if nothing is left of it in turn. */
  lemma JoinedRest(s: set<Item>, kids: map<Item, seq<Item>>, rem: Item, s': set<Item>, g': map<Item, Goods>, kids': map<Item, seq<Item>>,
                   c: Item, item: Item, goods: Goods, units: nat, poured: (map<Item, Goods>, nat), put: Item?)
    requires rem !in s && c in s && item in s && kids.Keys == s && poured.1 <= units < goods.units
    requires Joined(s + {rem}, kids[rem := []], s', g', kids', c, rem, Goods(goods.id, units),
                    (poured.0[rem := Goods(goods.id, units)], poured.1), put)
    ensures Joined(s, kids, s', g', kids', c, item, goods, poured, put)
  {
  }

  lemma PouredEmpty(g: map<Item, Goods>, id: nat, units: nat)
    ensures Poured(g, [], id, units) == (g, units)
  {
  }

  lemma AddAnswerIs(c: Item, index: int, item: Item, flags: Flags, autoStack: bool, maxInside: nat, s: set<Item>)
    requires Valid(Shape(s)) && c in s && item in s && index >= INDEX_WHEREEVER
    ensures var d := c.Destination(index, item, autoStack);
      && d.0 in s && var verdict := d.0.AddVerdict(d.1, item, flags, maxInside, s);
         AddAnswer(c, index, item, flags, autoStack, maxInside, s)
         == if verdict != NoError then verdict else c.QueryMaxCount(INDEX_WHEREEVER, item, item.count, flags).0
  {
    hide Valid, Shape;
    DestinationSettles(c, index, item, autoStack, s);
  }

  lemma KidsIn(s: set<Item>, c: Item)
    requires Valid(Shape(s)) && c in s
    ensures forall k :: k in c.itemlist ==> k in s
  {
    hide Valid, Shape;
    forall k | k in c.itemlist
      ensures k in s
    {
      HeldBy(s, c, k);
    }
  }

  /** Game::internalAddItem. If it answers no error, it adds exactly the units of the item to the
      destination and takes nothing from anyone; otherwise, or in a test, nothing changes.
   */
  method InternalAddItem(toCylinder: Item, item: Item, index: int, flags: Flags, test: bool,
                         autoStack: bool, maxInside: nat, ghost s: set<Item>)
    returns (ret: ReturnValue, remainderCount: nat, ghost put: Item?, ghost s': set<Item>)
    requires Ready(s) && Valid(Shape(s)) && toCylinder in s && item in s && item.parent == null
    requires index >= INDEX_WHEREEVER && !flags.childIsOwner && forall x :: x in s ==> x.types == item.types
    modifies s`parent, s`itemlist, s`rank, s`amountOfItems, s`totalWeight, s`id, s`count
    ensures Ready(s') && s <= s' && fresh(s' - s) && remainderCount == 0
    ensures ret == old(AddAnswer(toCylinder, index, item, flags, autoStack, maxInside, s))
    ensures ret != NoError || test ==> s' == s && Shape(s) == old(Shape(s)) && Stock(s) == old(Stock(s))
    ensures ret == NoError && !test ==>
      Balance(s, old(Shape(s)), old(Stock(s)), Shape(s'), Stock(s'), old(toCylinder.Destination(index, item, autoStack).0),
              old(item.id), 0 - old(GoodsOf(item).units))
    ensures !flags.noLimit ==> WithinLimits(s, old(Shape(s)), Shape(s'))
    ensures ret == NoError && !test ==>
      Joined(s, old(Shape(s).kids), s', Stock(s'), Shape(s').kids, old(toCylinder.Destination(index, item, autoStack).0),
             item, old(GoodsOf(item)), old(Added(toCylinder, index, item, autoStack, s)), put)
    decreases item.count, 4
  {
    hide Valid, Shape, Units, Ready, Up, Balance, Stock, Settled, Held, WithinLimits, Grows, AddAnswer, Item.Destination,
      Item.AddVerdict, Item.QueryMaxCount, Joined, Added;
    put := null;
    GrowsSame(s, Shape(s), item);
    AddAnswerIs(toCylinder, index, item, flags, autoStack, maxInside, s);
    remainderCount, s' := 0, s;
    KidsIn(s, toCylinder);
    DestinationSettles(toCylinder, index, item, autoStack, s);
    var dest, at, target := toCylinder.QueryDestination(index, item, autoStack);
    ret := dest.QueryAdd(at, item, flags, maxInside, s);
    if ret != NoError { return; }
    var most := toCylinder.QueryMaxCount(INDEX_WHEREEVER, item, item.count, flags);
    ret := most.0;
    if ret != NoError || test { return; }
    remainderCount, put, s' := AddAccepted(toCylinder, index, dest, at, target, item, most.1, flags, autoStack, maxInside, s);
  }

  /** What internalAddItem does once all is accepted: merge, split, add. */
  method AddAccepted(c: Item, ghost index: int, dest: Item, at: int, target: Option<Item>, item: Item, maxQueryCount: int,
                     flags: Flags, autoStack: bool, maxInside: nat, ghost s: set<Item>)
    returns (remainderCount: nat, ghost put: Item?, ghost s': set<Item>)
    requires Ready(s) && Valid(Shape(s)) && c in s && item in s && item.parent == null
    requires !flags.childIsOwner && forall x :: x in s ==> x.types == item.types
    requires Settled(dest, at, target, item, s) && (dest == c || (at == INDEX_WHEREEVER && target == None))
    requires index >= INDEX_WHEREEVER && (dest, at, target) == c.Destination(index, item, autoStack)
    requires at >= INDEX_WHEREEVER && dest.AddVerdict(at, item, flags, maxInside, s) == NoError
    requires c.QueryMaxCount(INDEX_WHEREEVER, item, item.count, flags) == (NoError, maxQueryCount)
    modifies s`parent, s`itemlist, s`rank, s`amountOfItems, s`totalWeight, s`id, s`count
    ensures Ready(s') && s <= s' && fresh(s' - s) && remainderCount == 0
    ensures Balance(s, old(Shape(s)), old(Stock(s)), Shape(s'), Stock(s'), dest, old(item.id), 0 - old(GoodsOf(item).units))
    ensures !flags.noLimit ==> WithinLimits(s, old(Shape(s)), Shape(s'))
    ensures Joined(s, old(Shape(s).kids), s', Stock(s'), Shape(s').kids, dest, item, old(GoodsOf(item)),
                   old(Added(c, index, item, autoStack, s)), put)
    decreases item.count, 3
  {
    hide Valid, Shape, Units, Ready, Up, Balance, Stock, Settled, Held, WithinLimits, Grows, Joined, Added, Item.Destination,
      Rest, Ahead, More;
    SettledFacts(dest, at, target, item, s);
    ShapeKeys(s);
    AddedIs(c, index, item, autoStack, s);
    if item.IsStackable() && target.Some? {
      RoomForAll(c, item, flags);
      remainderCount, put, s' := AddOnto(c, at, target, item, maxQueryCount, flags, autoStack, maxInside, s);
    } else {
      remainderCount, s', put := 0, s, item;
      JoinedWhole(s, Stock(s), Shape(s).kids, dest, item, GoodsOf(item));
      PutAccepted(c, dest, at, target, item, flags, maxInside, s);
    }
  }

  lemma MergedBounds(item: Item, target: Item)
    requires item.IsStackable() && item.count > 0 && target.types == item.types && (target.IsStackable() ==> target.count <= 100)
    ensures 0 <= Merged(item, Some(target), item.count) <= item.count
    ensures target.id == item.id && target.count < 100 ==> Merged(item, Some(target), item.count) > 0
  {
  }

  /** Without a free slot all of it must merge. */
  lemma RoomFor(c: Item, item: Item, most: int, flags: Flags)
    requires c.QueryMaxCount(INDEX_WHEREEVER, item, item.count, flags) == (NoError, most) && item.IsStackable() && item.count > 0
    ensures !flags.noLimit ==> c.FreeSlots() > 0
  {
  }

  lemma RoomForAll(c: Item, item: Item, flags: Flags)
    requires c.QueryMaxCount(INDEX_WHEREEVER, item, item.count, flags).0 == NoError && item.IsStackable()
    ensures c.QueryMaxCount(INDEX_WHEREEVER, item, item.count, flags).1 >= item.count
  {
  }

  /** Units are merged into a stack, and what does not fit is added. */
  method AddOnto(c: Item, at: int, target: Option<Item>, item: Item, maxQueryCount: int,
                 flags: Flags, autoStack: bool, maxInside: nat, ghost s: set<Item>)
    returns (remainderCount: nat, ghost put: Item?, ghost s': set<Item>)
    requires Ready(s) && Valid(Shape(s)) && c in s && item in s && item.parent == null && item.IsStackable() && target.Some?
    requires !flags.childIsOwner && forall x :: x in s ==> x.types == item.types
    requires Settled(c, at, target, item, s)
    requires at >= INDEX_WHEREEVER && c.AddVerdict(at, item, flags, maxInside, s) == NoError
    requires c.QueryMaxCount(INDEX_WHEREEVER, item, item.count, flags) == (NoError, maxQueryCount) && maxQueryCount >= item.count
    modifies s`parent, s`itemlist, s`rank, s`amountOfItems, s`totalWeight, s`id, s`count
    ensures Ready(s') && s <= s' && fresh(s' - s) && remainderCount == 0
    ensures Balance(s, old(Shape(s)), old(Stock(s)), Shape(s'), Stock(s'), c, old(item.id), 0 - old(item.count))
    ensures !flags.noLimit ==> WithinLimits(s, old(Shape(s)), Shape(s'))
    ensures var n := old(Merged(item, target, item.count));
      && 0 <= n <= old(item.count)
      && Joined(s, old(Shape(s).kids), s', Stock(s'), Shape(s').kids, c, item, old(GoodsOf(item)),
                if n == 0 then (old(Stock(s)), old(item.count))
                else Rest(More(old(Stock(s)), target, n), old(c.itemlist), autoStack, old(item.id), old(item.count) - n), put)
    decreases item.count, 2
  {
    hide Valid, Shape, Units, Ready, Up, Balance, Stock, Settled, Held, WithinLimits, Grows, Joined, Rest, Merged, Item.Capacity,
      Item.AddVerdict, Item.QueryMaxCount;
    SettledFacts(c, at, target, item, s);
    ReadyStacks(s, item);
    ReadyStacks(s, target.value);
    MergedBounds(item, target.value);
    HeldBy(s, c, target.value);
    RoomFor(c, item, maxQueryCount, flags);
    ghost var f, g, id := Shape(s), Stock(s), item.id;
    var m: nat := Min(item.count, maxQueryCount);
    var n := MergeInto(c, target, item, m, s);
    ghost var g1 := Stock(s);
    remainderCount, put, s' := AddLeft(c, at, item, m - n, flags, autoStack, maxInside, s);
    ghost var merged: int, left: int := n, m - n;
    BalancesAdd(s, f, g, f, g1, Shape(s'), Stock(s'), c, id, -merged, -left);
  }

  /** Adds what was not merged: a new stack if some was, the item itself if none was, nothing if all was. */
  method AddLeft(c: Item, at: int, item: Item, left: nat, flags: Flags, autoStack: bool, maxInside: nat, ghost s: set<Item>)
    returns (remainderCount: nat, ghost put: Item?, ghost s': set<Item>)
    requires Ready(s) && Valid(Shape(s)) && c in s && item in s && item.parent == null && item.IsStackable()
    requires left <= item.count && !flags.childIsOwner && forall x :: x in s ==> x.types == item.types
    requires at > INDEX_WHEREEVER && c.AddVerdict(at, item, flags, maxInside, s) == NoError
    requires left == item.count ==> at < c.Capacity()
    requires left > 0 && !flags.noLimit ==> c.FreeSlots() > 0
    modifies s`parent, s`itemlist, s`rank, s`amountOfItems, s`totalWeight, s`id, s`count
    ensures Ready(s') && s <= s' && fresh(s' - s) && remainderCount == 0
    ensures Balance(s, old(Shape(s)), old(Stock(s)), Shape(s'), Stock(s'), c, old(item.id), 0 - left)
    ensures !flags.noLimit ==> WithinLimits(s, old(Shape(s)), Shape(s'))
    ensures Joined(s, old(Shape(s).kids), s', Stock(s'), Shape(s').kids, c, item, old(GoodsOf(item)),
                   if left == old(item.count) then (old(Stock(s)), left)
                   else Rest(old(Stock(s)), old(c.itemlist), autoStack, old(item.id), left), put)
    decreases item.count, 1
  {
    hide Valid, Shape, Units, Ready, Up, Balance, Stock, Held, WithinLimits, Grows, Joined, Rest, Ahead;
    remainderCount, s', put := 0, s, item;
    ReadyStacks(s, item);
    ShapeKeys(s);
    GoodsAre(item);
    if left == 0 {
      put := null;
      GrowsSame(s, Shape(s), item);
      NothingMoves(s, Shape(s), Stock(s), c, item.id);
      NoneLeft(Stock(s), c.itemlist, autoStack, item.id);
      JoinedNone(s, Stock(s), Shape(s).kids, c, item, GoodsOf(item));
    } else if left != item.count {
      remainderCount, put, s' := AddRemainder(c, at, item, left, flags, autoStack, maxInside, s);
    } else {
      JoinedWhole(s, Stock(s), Shape(s).kids, c, item, GoodsOf(item));
      PutAccepted(c, c, at, None, item, flags, maxInside, s);
    }
  }

  lemma NoneLeft(g: map<Item, Goods>, list: seq<Item>, autoStack: bool, id: nat)
    ensures Rest(g, list, autoStack, id, 0) == (g, 0)
  {
    PouredNone(g, list, id);
  }

  method PutAccepted(c: Item, dest: Item, at: int, target: Option<Item>, item: Item, flags: Flags, maxInside: nat, ghost s: set<Item>)
    requires Ready(s) && Valid(Shape(s)) && c in s && item in s && item.parent == null && dest in s
    requires at < dest.Capacity() && !flags.childIsOwner && dest.AddVerdict(at, item, flags, maxInside, s) == NoError
    requires !flags.noLimit && at != INDEX_WHEREEVER ==> dest.FreeSlots() > 0
    modifies s`parent, s`itemlist, s`rank, s`amountOfItems, s`totalWeight
    ensures Ready(s)
    ensures Balance(s, old(Shape(s)), Stock(s), Shape(s), Stock(s), dest, item.id, 0 - GoodsOf(item).units as int)
    ensures !flags.noLimit ==> WithinLimits(s, old(Shape(s)), Shape(s))
    ensures Stock(s) == old(Stock(s)) && Shape(s).kids == Ahead(old(Shape(s).kids), dest, item, true)
  {
    hide Valid, Shape, Units, Ready, Up, Balance, Stock, Held, WithinLimits, Grows, Attach, Ahead;
    ghost var f := Shape(s);
    ShapeKeys(s);
    HeldIs(s, dest);
    AheadIs(f, dest, item);
    Put(dest, at, item, s);
    if !flags.noLimit {
      GrowsWithin(s, f, Shape(s), dest, 1);
    }
  }

  lemma BalancesAdd(s: set<Item>, f: Forest<Item>, g: map<Item, Goods>, f1: Forest<Item>, g1: map<Item, Goods>,
                    f2: Forest<Item>, g2: map<Item, Goods>, c: Item, id: nat, first: int, second: int)
    requires Balance(s, f, g, f1, g1, c, id, first) && Balance(s, f1, g1, f2, g2, c, id, second)
    ensures Balance(s, f, g, f2, g2, c, id, first + second)
  {
    hide Units;
  }

  /** Units that a stack could not take go to the container as a stack of their own. */
  method AddRemainder(c: Item, at: int, item: Item, units: nat, flags: Flags, autoStack: bool, maxInside: nat, ghost s: set<Item>)
    returns (remainderCount: nat, ghost put: Item?, ghost s': set<Item>)
    requires Ready(s) && Valid(Shape(s)) && c in s && item in s && item.parent == null
    requires forall x :: x in s ==> x.types == item.types
    requires item.IsStackable() && 1 <= units < item.count <= 100 && !flags.childIsOwner
    requires at != INDEX_WHEREEVER && c.AddVerdict(at, item, flags, maxInside, s) == NoError
    requires flags.noLimit || c.FreeSlots() > 0
    modifies s`parent, s`itemlist, s`rank, s`amountOfItems, s`totalWeight, s`id, s`count
    ensures Ready(s') && s <= s' && fresh(s' - s) && remainderCount == 0
    ensures Balance(s, old(Shape(s)), old(Stock(s)), Shape(s'), Stock(s'), c, old(item.id), 0 - units)
    ensures !flags.noLimit ==> WithinLimits(s, old(Shape(s)), Shape(s'))
    ensures Joined(s, old(Shape(s).kids), s', Stock(s'), Shape(s').kids, c, item, old(GoodsOf(item)),
                   old(Rest(Stock(s), c.itemlist, autoStack, item.id, units)), put)
    decreases item.count, 0
  {
    hide Valid, Shape, Units, Ready, Up, Balance, Stock, Held, WithinLimits, Grows, Joined, Added, Rest, Item.Destination;
    ShapeKeys(s);
    KidsIn(s, c);
    ghost var list, goods := c.itemlist, GoodsOf(item);
    ghost var f, g, id := Shape(s), Stock(s), item.id;
    var remainder, s1 := CreateStack(c, item.types, item.id, units, s);
    ghost var f1, g1 := Shape(s1), Stock(s1);
    GoodsAre(remainder);
    RemainderAccepted(c, at, item, remainder, flags, autoStack, maxInside, s, s1);
    RemainderAdded(c, remainder, autoStack, g, s1);
    var ret;
    ret, remainderCount, put, s' := InternalAddItem(c, remainder, INDEX_WHEREEVER, flags, false, autoStack, maxInside, s1);
    if ret != NoError {
      remainderCount := units;
    }
    JoinedRest(s, f.kids, remainder, s', Stock(s'), Shape(s').kids, c, item, goods, units, Rest(g, list, autoStack, id, units), put);
    BalanceCompose(s, s1, f, g, f1, g1, Shape(s'), Stock(s'), c, id, 0 - units);
    if !flags.noLimit {
      WithinThen(s, s1, f, f1, Shape(s'), c);
    }
  }

  lemma RestApart(g: map<Item, Goods>, list: seq<Item>, autoStack: bool, id: nat, units: nat, x: Item, y: Goods)
    requires x !in list
    ensures var (h, left) := Rest(g, list, autoStack, id, units);
      left <= units && Rest(g[x := y], list, autoStack, id, units) == (h[x := y], left)
  {
    PouredApart(g, list, id, units, x, y);
    PouredKeys(g, list, id, units);
  }

  lemma RemainderAdded(c: Item, rem: Item, autoStack: bool, g: map<Item, Goods>, s: set<Item>)
    requires Ready(s) && Valid(Shape(s)) && c in s && rem in s && rem.parent == null && rem.IsStackable()
    requires rem !in c.itemlist && Stock(s) == g[rem := Goods(rem.id, rem.count)] && forall x :: x in s ==> x.types == rem.types
    ensures var (h, left) := Rest(g, c.itemlist, autoStack, rem.id, rem.count);
      && left <= rem.count && GoodsOf(rem) == Goods(rem.id, rem.count)
      && Added(c, INDEX_WHEREEVER, rem, autoStack, s) == (h[rem := Goods(rem.id, rem.count)], left)
  {
    hide Valid, Shape, Ready, Stock, Rest, Added;
    AddedIs(c, INDEX_WHEREEVER, rem, autoStack, s);
    RestApart(g, c.itemlist, autoStack, rem.id, rem.count, rem, Goods(rem.id, rem.count));
  }

  lemma RemainderAccepted(c: Item, at: int, item: Item, rem: Item, flags: Flags, autoStack: bool, maxInside: nat, s: set<Item>, s1: set<Item>)
    requires Ready(s) && Valid(Shape(s)) && c in s && item in s && s1 == s + {rem} && rem !in s
    requires Outside(s, s1, c, rem)
    requires item.IsStackable() && rem.IsStackable() && rem.id == item.id && rem.types == item.types
    requires rem.parent == null && rem.amountOfItems == 1 && 1 <= rem.count <= 100 && !flags.childIsOwner
    requires at != INDEX_WHEREEVER && c.AddVerdict(at, item, flags, maxInside, s) == NoError
    requires flags.noLimit || c.FreeSlots() > 0
    ensures c.Destination(INDEX_WHEREEVER, rem, autoStack).0 == c
    ensures AddAnswer(c, INDEX_WHEREEVER, rem, flags, autoStack, maxInside, s1) == NoError
  {
    hide Valid, Shape, Up, Consistent;
    ReadyValid(s);
    NodeFacts(s, c);
    AmountIsSize(s, item);
    SelfDown(Shape(s), item);
  }
}
