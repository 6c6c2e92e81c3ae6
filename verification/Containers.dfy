/** Items and containers: who holds what, and the totals every container keeps of its contents. */
module Containers {
  import opened Wrappers
  import opened Forests

  datatype ItemType = ItemType(stackable: bool, pickupable: bool, moveable: bool, weight: nat, currency: nat)

  type ItemTypes = nat -> ItemType

  const INDEX_WHEREEVER: int := -1

  datatype ReturnValue =
    | NoError | NotPossible | NotMoveable | CannotPickup | ThisIsImpossible
    | ContainerNotEnoughRoom | ContainerHasTooManyItems

  datatype Flags = Flags(noLimit: bool, childIsOwner: bool, ignoreNotMoveable: bool)

  const NO_FLAGS := Flags(false, false, false)

  /** The first position of x in s, or the length of s. */
  function IndexOf<T(==)>(s: seq<T>, x: T): (i: nat)
    ensures i <= |s| && (i < |s| <==> x in s)
    ensures i < |s| ==> s[i] == x
    ensures x !in s[..i]
  {
    if s == [] || s[0] == x then 0 else 1 + IndexOf(s[1..], x)
  }

  class Item {
    const types: ItemTypes
    var id: nat
    var count: nat
    var parent: Item?
    // The container part: empty and unused for plain items.
    const isContainer: bool
    const maxSize: nat
    var totalWeight: int
    var amountOfItems: int
    var itemlist: seq<Item>
    /** Grows from holder to held. */
    ghost var rank: nat

    constructor (types: ItemTypes, id: nat, count: nat, isContainer: bool, maxSize: nat)
      ensures this.types == types && this.id == id && this.count == count
      ensures this.isContainer == isContainer && this.maxSize == maxSize
      ensures parent == null && itemlist == [] && totalWeight == 0 && amountOfItems == 1
    {
      this.types, this.id, this.count := types, id, count;
      this.isContainer, this.maxSize := isContainer, maxSize;
      parent, itemlist, totalWeight, amountOfItems, rank := null, [], 0, 1, 0;
    }

    function Holder(): Option<Item>
      reads this`parent
    {
      if parent == null then None else var p: Item := parent; Some(p)
    }

    function IsStackable(): bool
      reads this`id
    {
      types(id).stackable
    }

    function IsPickupable(): bool
      reads this`id
    {
      types(id).pickupable
    }

    /** Item::getWeight. */
    function OwnWeight(): int
      reads this`id, this`count
    {
      if IsStackable() then types(id).weight * Max(1, count) else types(id).weight
    }

    /** Container::getWeight. */
    function Weight(): int
      reads this`id, this`count, this`totalWeight
    {
      OwnWeight() + totalWeight
    }

    function Capacity(): nat
      reads this`itemlist
    {
      if maxSize != 0 then maxSize else Min(255, |itemlist| + 1)
    }

    method UpdateAmountOfItems(diff: int, ghost s: set<Item>)
      requires this in s && Valid(Shape(s))
      modifies s`amountOfItems
      ensures Amounts(s) == Bump(old(Amounts(s)), Up(Shape(s), this), diff)
      decreases rank
    {
      hide Shape, Valid, Up, Bump;
      ghost var f, was := Shape(s), Amounts(s);
      HolderFacts(s, this);
      BumpStep(f, was, this, diff);
      amountOfItems := amountOfItems + diff;
      assert Amounts(s) == was[this := was[this] + diff];
      if parent != null {
        parent.UpdateAmountOfItems(diff, s);
      }
    }

    method UpdateItemWeight(diff: int, ghost s: set<Item>)
      requires this in s && Valid(Shape(s))
      modifies s`totalWeight
      ensures Weights(s) == Bump(old(Weights(s)), Up(Shape(s), this), diff)
      decreases rank
    {
      hide Shape, Valid, Up, Bump;
      ghost var f, was := Shape(s), Weights(s);
      HolderFacts(s, this);
      BumpStep(f, was, this, diff);
      totalWeight := totalWeight + diff;
      assert Weights(s) == was[this := was[this] + diff];
      if parent != null {
        parent.UpdateItemWeight(diff, s);
      }
    }

    /** setParent and push_front. */
    method LinkFront(item: Item, ghost s: set<Item>)
      requires Valid(Shape(s)) && this in s && item in s
      modifies item`parent, this`itemlist, s`rank
      ensures Shape(s) == Attach(old(Shape(s)), this, item, 0)
    {
      hide Valid, Up, Attach;
      ghost var f := Shape(s);
      ghost var r := rank;
      item.parent := this;
      itemlist := [item] + itemlist;
      forall x | x in s && item in Up(f, x) {
        x.rank := x.rank + r + 1;
      }
      assert Insert(f.kids[this], 0, item) == [item] + f.kids[this];
      ShapeInserted(f, s, this, item, 0);
    }

    /** __internalAddThing, and what __addThing does once its index is accepted. */
    method InternalAddThing(item: Item, ghost s: set<Item>)
      requires Consistent(s) && this in s && item in s && item.parent == null && item !in Up(Shape(s), this)
      modifies item`parent, this`itemlist, s`rank, s`amountOfItems, s`totalWeight
      ensures Consistent(s) && Shape(s) == Attach(old(Shape(s)), this, item, 0)
    {
      hide Valid, Up, Bump, Summed, Attach, Shape, Amounts, Weights, OwnWeights, Consistent;
      ConsistentValid(s);
      AddKeeps(s, this, item, 0);
      LinkFront(item, s);
      UpdateAmountOfItems(item.amountOfItems, s);
      UpdateItemWeight(item.Weight(), s);
      MakeConsistent(s);
    }

    /** How many items are nested in this container, by walking over them. */
    method GetItemHoldingCount(ghost s: set<Item>) returns (counter: nat)
      requires Consistent(s) && this in s
      ensures counter + 1 == amountOfItems && counter + 1 == |Down(Shape(s), this)|
    {
      hide Valid, Shape, Consistent, Total, Bfs, Down;
      ConsistentValid(s);
      ghost var f := Shape(s);
      NodeFacts(s, this);
      TotalKids(f, this);
      AmountIsSize(s, this);
      var iter := new ContainerIterator.Begin(this);
      counter := 0;
      while !iter.AtEnd()
        invariant fresh(iter) && iter.Ok() && (forall x :: x in iter.Pending() ==> x in f.parent)
        invariant counter + Total(f, iter.Pending()) == Total(f, itemlist)
        decreases Total(f, iter.Pending())
      {
        NodeFacts(s, iter.Current());
        TotalStep(f, iter.Pending());
        counter := counter + 1;
        iter.Next();
      }
      TotalNone(f);
    }

    /** Whether the item is nested anywhere in this container. */
    method IsHoldingItem(item: Item, ghost s: set<Item>) returns (found: bool)
      requires Consistent(s) && this in s && item in s
      ensures found <==> item != this && item in Down(Shape(s), this)
    {
      hide Valid, Shape, Consistent, Total, Bfs, Down, ContainerIterator.Ok, ContainerIterator.Pending;
      ConsistentValid(s);
      ghost var f := Shape(s);
      KidsAre(s, this);
      BfsExactlyOnce(f, this);
      var iter := new ContainerIterator.Begin(this);
      while !iter.AtEnd()
        invariant fresh(iter) && iter.Ok() && (forall x :: x in iter.Pending() ==> x in f.parent)
        invariant item in Bfs(f, itemlist) <==> item in Bfs(f, iter.Pending())
        decreases Total(f, iter.Pending())
      {
        iter.StillPending();
        var current := iter.Current();
        KidsAre(s, current);
        BfsNext(f, iter.Pending(), item);
        if current == item { return true; }
        iter.Next();
      }
      iter.StillPending();
      BfsNone(f);
      return false;
    }

    /** __getIndexOfThing: -1 if the thing is not in the list. */
    method GetIndexOfThing(thing: Item) returns (index: int)
      ensures index == if thing in itemlist then IndexOf(itemlist, thing) else -1
    {
      index := 0;
      while index < |itemlist|
        invariant 0 <= index <= |itemlist| && thing !in itemlist[..index]
        invariant IndexOf(itemlist, thing) == index + IndexOf(itemlist[index..], thing)
      {
        if itemlist[index] == thing {
          return;
        }
        assert itemlist[index..][1..] == itemlist[index + 1..];
        index := index + 1;
      }
      return -1;
    }

    /** __getThing. */
    function GetThing(index: int): Option<Item>
      reads this`itemlist
    {
      if 0 <= index < |itemlist| then Some(itemlist[index]) else None
    }

    /** __queryRemove. */
    function QueryRemove(item: Item, count: int, flags: Flags): (r: ReturnValue)
      reads this`itemlist, item`id, item`count
      ensures r == NoError <==>
        && item in itemlist && count != 0 && (item.IsStackable() ==> count <= item.count)
        && (item.types(item.id).moveable || flags.ignoreNotMoveable)
      ensures r == NotMoveable ==> !item.types(item.id).moveable && !flags.ignoreNotMoveable
      ensures r in {NoError, NotPossible, NotMoveable}
    {
      if item !in itemlist then NotPossible
      else if count == 0 || (item.IsStackable() && count > item.count) then NotPossible
      else if !item.types(item.id).moveable && !flags.ignoreNotMoveable then NotMoveable
      else NoError
    }

    function FreeSlots(): nat
      reads this`itemlist
    {
      Less(Capacity(), |itemlist|)
    }

    /** What is missing to a full stack in a slot, if it has a stack of the same id. */
    function Missing(index: int, item: Item): int
      reads this, itemlist, item
    {
      if 0 <= index < |itemlist| && itemlist[index].id == item.id then 100 - itemlist[index].count else 0
    }

    /** Without limits, all that is asked for; with them, a stack for every slot that is free, and what the stack in the slot
        still takes.
     */
    ghost function MostThatFits(index: int, item: Item, count: nat, flags: Flags): (ReturnValue, int)
      reads this, itemlist, item
    {
      var most: int :=
        if flags.noLimit then (if count == 0 then 1 else count)
        else if item.IsStackable() then 100 * Less(Capacity(), |itemlist|) + Missing(index, item)
        else Less(Capacity(), |itemlist|);
      var enough := flags.noLimit || if item.IsStackable() then most >= count else most > 0;
      (if enough then NoError else ContainerNotEnoughRoom, most)
    }

    /** __queryMaxCount: how many units fit, and whether they all do. */
    function QueryMaxCount(index: int, item: Item, count: nat, flags: Flags): (r: (ReturnValue, int))
      reads this, itemlist, item
      ensures r == MostThatFits(index, item, count, flags)
    {
      if flags.noLimit then (NoError, Max(1, count))
      else if item.IsStackable() then
        var dest := GetThing(index);
        var room := if dest.Some? && dest.value.id == item.id then 100 - dest.value.count else 0;
        var fits := FreeSlots() * 100 + room;
        (if fits < count then ContainerNotEnoughRoom else NoError, fits)
      else (if FreeSlots() == 0 then ContainerNotEnoughRoom else NoError, FreeSlots())
    }

    /** The first stack, not the item itself, that units of the item can be merged into. */
    function FirstStack(item: Item, i: nat): (k: nat)
      requires i <= |itemlist|
      reads this, itemlist, item
      ensures i <= k <= |itemlist|
      ensures k < |itemlist| ==> itemlist[k] != item && itemlist[k].id == item.id && itemlist[k].count < 100
      ensures forall j :: i <= j < k ==> itemlist[j] == item || itemlist[j].id != item.id || itemlist[j].count >= 100
      decreases |itemlist| - i
    {
      if i == |itemlist| then i
      else if itemlist[i] != item && itemlist[i].id == item.id && itemlist[i].count < 100 then i
      else FirstStack(item, i + 1)
    }

    /** Where an item offered to this container really goes: the container, the position there
        and the thing at that position.
     */
    function Destination(index: int, item: Item, autoStack: bool): (r: (Item, int, Option<Item>))
      reads this, itemlist, item
    {
      if index == 254 then (if parent != null then parent else this, INDEX_WHEREEVER, None)
      else
        var i := if index == 255 || index >= Capacity() then INDEX_WHEREEVER else index;
        if autoStack && item.IsStackable() && item.parent != this && FirstStack(item, 0) < |itemlist| then
          (this, FirstStack(item, 0), Some(itemlist[FirstStack(item, 0)]))
        else if i == INDEX_WHEREEVER then (this, i, None)
        else
          var dest := GetThing(i);
          if dest.Some? && dest.value.isContainer then (dest.value, INDEX_WHEREEVER, None)
          else (this, i, dest)
    }

    method QueryDestination(index: int, item: Item, autoStack: bool) returns (dest: Item, at: int, target: Option<Item>)
      ensures (dest, at, target) == Destination(index, item, autoStack)
    {
      at := index;
      if at == 254 {
        return if parent != null then parent else this, INDEX_WHEREEVER, None;
      }
      if at == 255 {
        at := INDEX_WHEREEVER;
      } else if at >= Capacity() {
        at := INDEX_WHEREEVER;
      }
      if autoStack && item.IsStackable() && item.parent != this {
        var n := 0;
        while n < |itemlist|
          invariant 0 <= n <= |itemlist| && FirstStack(item, 0) == FirstStack(item, n)
        {
          if itemlist[n] != item && itemlist[n].id == item.id && itemlist[n].count < 100 {
            return this, n, Some(itemlist[n]);
          }
          n := n + 1;
        }
      }
      target := None;
      if at != INDEX_WHEREEVER {
        target := GetThing(at);
        if target.Some? && target.value.isContainer {
          return target.value, INDEX_WHEREEVER, None;
        }
      }
      dest := this;
    }

    /** May the item go into this container? Refuses to put a container into itself or into what it holds. */
    method QueryAdd(index: int, item: Item, flags: Flags, maxInside: nat, ghost s: set<Item>) returns (ret: ReturnValue)
      requires Valid(Shape(s)) && this in s && item in s
      ensures ret == AddVerdict(index, item, flags, maxInside, s)
    {
      hide Valid, Up, Shape;
      if flags.childIsOwner { return NoError; }
      if !item.IsPickupable() { return CannotPickup; }
      UpFacts(s, this);
      if item == this { return ThisIsImpossible; }
      var c := parent;
      while c != null
        invariant c != null ==> c in s
        invariant item in Up(Shape(s), this) <==> c != null && item in Up(Shape(s), c)
        decreases if c == null then 0 else c.rank + 1
      {
        UpFacts(s, c);
        if c == item { return ThisIsImpossible; }
        c := c.parent;
      }
      if index == INDEX_WHEREEVER && !flags.noLimit && |itemlist| >= Capacity() {
        return ContainerNotEnoughRoom;
      }
      if maxInside > 0 {
        c := this;
        while c != null
          invariant c != null ==> c in s
          invariant Crowded(s, Up(Shape(s), this), item, maxInside) <==> c != null && Crowded(s, Up(Shape(s), c), item, maxInside)
          decreases if c == null then 0 else c.rank + 1
        {
          UpFacts(s, c);
          if c.amountOfItems + item.amountOfItems > maxInside + 1 { return ContainerHasTooManyItems; }
          c := c.parent;
        }
      }
      return NoError;
    }

    ghost function AddVerdict(index: int, item: Item, flags: Flags, maxInside: nat, s: set<Item>): ReturnValue
      requires Valid(Shape(s)) && this in s && item in s
      reads s`parent, s`itemlist, s`rank, s`amountOfItems, item`id
    {
      if flags.childIsOwner then NoError
      else if !item.IsPickupable() then CannotPickup
      else if item in Up(Shape(s), this) then ThisIsImpossible
      else if index == INDEX_WHEREEVER && !flags.noLimit && |itemlist| >= Capacity() then ContainerNotEnoughRoom
      else if maxInside > 0 && Crowded(s, Up(Shape(s), this), item, maxInside) then ContainerHasTooManyItems
      else NoError
    }

    method AddThing(index: int, item: Item, ghost s: set<Item>)
      requires Consistent(s) && this in s && item in s && item.parent == null && item !in Up(Shape(s), this)
      modifies item`parent, this`itemlist, s`rank, s`amountOfItems, s`totalWeight
      ensures Consistent(s)
      ensures Shape(s) == if index < old(Capacity()) then Attach(old(Shape(s)), this, item, 0) else old(Shape(s))
    {
      if index >= Capacity() {
        return;
      }
      InternalAddThing(item, s);
    }

    /** Passes on that the own weight of item, just restamped, differs from what it was. */
    method WeightChanged(item: Item, oldWeight: int, ghost owns: map<Item, int>, ghost weights: map<Item, int>, ghost s: set<Item>)
      requires Valid(Shape(s)) && this in s && item in s && item.parent == this
      requires Summed(Shape(s), Ones(Shape(s)), Amounts(s)) && Summed(Shape(s), owns, weights)
      requires item in owns && item in weights
      requires var d := item.Weight() - oldWeight;
        OwnWeights(s) == owns[item := owns[item] + d] && Weights(s) == weights[item := weights[item] + d]
      modifies s`totalWeight
      ensures Consistent(s)
    {
      hide Valid, Up, Bump, Summed, Shape, Amounts, Weights, OwnWeights, Consistent;
      ghost var f, d := Shape(s), item.Weight() - oldWeight;
      UpFacts(s, item);
      BumpStep(f, weights, item, d);
      BumpSummed(f, owns, weights, item, d);
      NodeFacts(s, item);
      UpdateItemWeight(item.Weight() - oldWeight, s);
      MakeConsistent(s);
    }

    /** setID, and setItemCount through setSubType: a count of 0 becomes 1. */
    method Restamp(itemId: nat, newCount: nat, ghost s: set<Item>) returns (oldWeight: int)
      requires this in s
      modifies this`id, this`count
      ensures id == itemId && count == Max(1, newCount % 256)
      ensures var d := Weight() - oldWeight;
        && OwnWeights(s) == old(OwnWeights(s))[this := old(OwnWeights(s)[this]) + d]
        && Weights(s) == old(Weights(s))[this := old(Weights(s)[this]) + d]
    {
      oldWeight := Weight();
      id := itemId;
      count := Max(1, newCount % 256);
    }

    method SetItemCount(newCount: nat, ghost s: set<Item>) returns (oldWeight: int)
      requires this in s && newCount <= 255
      modifies this`count
      ensures count == Max(1, newCount)
      ensures var d := Weight() - oldWeight;
        && OwnWeights(s) == old(OwnWeights(s))[this := old(OwnWeights(s)[this]) + d]
        && Weights(s) == old(Weights(s))[this := old(Weights(s)[this]) + d]
    {
      oldWeight := Weight();
      count := Max(1, newCount);
    }

    method UpdateThing(item: Item, itemId: nat, count: nat, ghost s: set<Item>)
      requires Consistent(s) && this in s && item in s
      modifies item`id, item`count, s`totalWeight
      ensures Consistent(s)
      ensures if item in itemlist then item.id == itemId && item.count == Max(1, count % 256)
              else item.id == old(item.id) && item.count == old(item.count)
    {
      hide Valid, Summed, Shape, Amounts, Weights, OwnWeights;
      ConsistentValid(s);
      var index := GetIndexOfThing(item);
      if index == -1 { return; }
      ghost var owns, weights := OwnWeights(s), Weights(s);
      HeldBy(s, this, item);
      NodeFacts(s, item);
      var oldWeight := item.Restamp(itemId, count, s);
      WeightChanged(item, oldWeight, owns, weights, s);
    }

    /** Takes count units of a stack, or the whole thing, out of this container. What
        queryRemove forbids, more units than the stack has, leaves the totals wrong.
     */
    method RemoveThing(item: Item, count: nat, ghost s: set<Item>)
      requires Consistent(s) && this in s && item in s
      requires 1 <= item.count <= 255
      modifies item`parent, item`count, this`itemlist, s`amountOfItems, s`totalWeight
      ensures var whole := item in old(itemlist) && (!item.IsStackable() || count == old(item.count));
        && Shape(s) == (if whole then Detach(old(Shape(s)), this, IndexOf(old(itemlist), item)) else old(Shape(s)))
        && item.count == (if whole || item !in old(itemlist) then old(item.count) else Max(1, Less(old(item.count), count)))
        && itemlist == (if whole then Remove(old(itemlist), IndexOf(old(itemlist), item)) else old(itemlist))
        && item.parent == (if whole then null else old(item.parent))
      ensures Consistent(s) <==> (item in old(itemlist) && item.IsStackable() ==> count <= old(item.count))
    {
      hide Valid, Summed, Shape, Amounts, Weights, OwnWeights, Up, Bump, Detach, Remove, Consistent;
      var index := GetIndexOfThing(item);
      if index == -1 { return; }
      ConsistentParts(s);
      if item.IsStackable() && count != item.count {
        RemoveUnits(item, count, s);
      } else {
        RemoveWhole(item, index, s);
      }
    }

    method RemoveUnits(item: Item, count: nat, ghost s: set<Item>)
      requires Consistent(s) && this in s && item in itemlist && item in s && 1 <= item.count <= 255
      modifies item`count, s`amountOfItems, s`totalWeight
      ensures item.count == Max(1, Less(old(item.count), count))
      ensures Consistent(s) <==> count < old(item.count)
    {
      hide Valid, Summed, Shape, Amounts, Weights, OwnWeights, Up, Bump, Consistent;
      ConsistentParts(s);
      HeldBy(s, this, item);
      var newCount := Less(item.count, count);
      ghost var owns, weights := OwnWeights(s), Weights(s);
      if newCount == 0 {
        AmountWouldBreak(s, this, item);
        UpdateAmountOfItems(-item.amountOfItems, s);
        var oldWeight := item.SetItemCount(newCount, s);
        UpdateItemWeight(item.Weight() - oldWeight, s);
        BrokenAmounts(s);
      } else {
        var oldWeight := item.SetItemCount(newCount, s);
        WeightChanged(item, oldWeight, owns, weights, s);
      }
    }

    method RemoveWhole(item: Item, index: nat, ghost s: set<Item>)
      requires Consistent(s) && this in s && item in s && index < |itemlist| && itemlist[index] == item
      modifies item`parent, this`itemlist, s`amountOfItems, s`totalWeight
      ensures Consistent(s) && Valid(old(Shape(s))) && Shape(s) == Detach(old(Shape(s)), this, index)
      ensures item.parent == null && itemlist == Remove(old(itemlist), index)
    {
      hide Valid, Summed, Shape, Amounts, Weights, OwnWeights, Up, Bump, Detach, Remove, Consistent;
      ConsistentValid(s);
      NodeFacts(s, this);
      RemoveKeeps(s, this, item, index);
      UpdateItemWeight(-item.Weight(), s);
      UpdateAmountOfItems(-item.amountOfItems, s);
      Unlink(item, index, s);
      MakeConsistent(s);
    }

    /** Puts item in the place of the index-th thing. */
    method ReplaceThing(index: nat, item: Item, ghost s: set<Item>)
      requires Consistent(s) && this in s && item in s && item.parent == null && item !in Up(Shape(s), this)
      modifies item`parent, this, itemlist, s`rank, s`amountOfItems, s`totalWeight
      ensures Consistent(s)
      ensures index >= |old(itemlist)| ==> Shape(s) == old(Shape(s))
      ensures index < |old(itemlist)| ==>
        && Valid(Detach(old(Shape(s)), this, index))
        && Shape(s) == Attach(Detach(old(Shape(s)), this, index), this, item, index)
    {
      hide Valid, Summed, Shape, Amounts, Weights, OwnWeights, Up, Bump, Detach, Attach, Consistent;
      if index >= |itemlist| { return; }
      ConsistentValid(s);
      NodeFacts(s, this);
      var was := itemlist[index];
      ReplaceKeeps(s, this, was, index, item);
      UpdateAmountOfItems(item.amountOfItems - was.amountOfItems, s);
      UpdateItemWeight(item.Weight() - was.Weight(), s);
      Relink(was, index, item, s);
      MakeConsistent(s);
    }

    method Relink(was: Item, index: nat, item: Item, ghost s: set<Item>)
      requires Valid(Shape(s)) && this in s && item in s && was in s
      requires index < |itemlist| && itemlist[index] == was && item != was
      requires Valid(Detach(Shape(s), this, index))
      modifies item`parent, was`parent, this`itemlist, s`rank
      ensures Shape(s) == Attach(Detach(old(Shape(s)), this, index), this, item, index)
    {
      hide Valid, Up, Attach;
      ghost var f, r := Detach(Shape(s), this, index), rank;
      InsertAtRemoved(itemlist, index, item);
      itemlist := itemlist[..index] + [item] + itemlist[index + 1..];
      item.parent := this;
      was.parent := null;
      forall x | x in s && item in Up(f, x) {
        x.rank := x.rank + r + 1;
      }
      ShapeInserted(f, s, this, item, index);
    }

    method Unlink(item: Item, index: nat, ghost s: set<Item>)
      requires Valid(Shape(s)) && this in s && index < |itemlist| && itemlist[index] == item && item in s
      modifies item`parent, this`itemlist
      ensures Shape(s) == Detach(old(Shape(s)), this, index)
      ensures item.parent == null && itemlist == Remove(old(itemlist), index)
    {
      hide Linked, Ranked;
      item.parent := null;
      itemlist := itemlist[..index] + itemlist[index + 1..];
    }
  }

  /** The contents of the containers of a queue, one after the other. */
  ghost function Contents(cs: seq<Item>): seq<Item>
    reads cs
  {
    if cs == [] then [] else cs[0].itemlist + Contents(cs[1..])
  }

  /** Walks over everything nested in a container, breadth first. */
  class ContainerIterator {
    const super: Item
    /** The containers still to be walked; cur points into the first. */
    var over: seq<Item>
    var cur: nat

    constructor Begin(super: Item)
      ensures this.super == super && Ok() && Pending() == super.itemlist
    {
      this.super := super;
      over, cur := if super.itemlist != [] then [super] else [], 0;
    }

    ghost predicate Ok()
      reads this, over
    {
      && (over != [] ==> cur < |over[0].itemlist|)
      && forall c :: c in over ==> c.itemlist != []
    }

    /** What the iterator stands on and what is already known to come after it. */
    ghost function Pending(): seq<Item>
      requires Ok()
      reads this, over
    {
      if over == [] then [] else over[0].itemlist[cur..] + Contents(over[1..])
    }

    /** Whether the iterator equals end(). */
    predicate AtEnd()
      reads this
    {
      over == []
    }

    lemma StillPending()
      requires Ok()
      ensures AtEnd() <==> Pending() == []
    {
    }

    function Current(): (item: Item)
      requires Ok() && !AtEnd()
      reads this, over
      ensures item == Pending()[0]
    {
      over[0].itemlist[cur]
    }

    /** operator++ takes the first pending item away and appends what it holds. */
    method Next()
      requires Ok() && !AtEnd()
      modifies this
      ensures Ok() && Pending() == old(Pending())[1..] + old(Current()).itemlist
    {
      hide Contents;
      StillPending();
      ghost var pending, inside := Pending(), Current().itemlist;
      Push(Current());
      Advance();
      assert (pending + inside)[1..] == pending[1..] + inside;
    }

    /** What an item holds comes after all that is pending. */
    method Push(item: Item)
      requires Ok() && !AtEnd()
      modifies this`over
      ensures Ok() && !AtEnd() && Pending() == old(Pending()) + item.itemlist
    {
      hide Contents;
      PushContents(over[1..], item);
      ghost var queue := over[1..] + if item.itemlist != [] then [item] else [];
      if item.itemlist != [] {
        over := over + [item];
      }
      assert over[1..] == queue;
    }

    /** The first pending item is passed. */
    method Advance()
      requires Ok() && !AtEnd()
      modifies this
      ensures Ok() && Pending() == old(Pending())[1..]
    {
      hide Contents;
      PassOne(over[0].itemlist, cur, Contents(over[1..]));
      cur := cur + 1;
      if cur == |over[0].itemlist| {
        over := over[1..];
        ContentsHead(over);
        cur := 0;
      }
    }
  }

  lemma PassOne(list: seq<Item>, cur: nat, rest: seq<Item>)
    requires cur < |list|
    ensures (list[cur..] + rest)[1..] == list[cur + 1..] + rest
    ensures cur + 1 == |list| ==> (list[cur..] + rest)[1..] == rest
  {
  }

  lemma ContentsHead(cs: seq<Item>)
    ensures Contents(cs) == if cs == [] then [] else cs[0].itemlist + Contents(cs[1..])
  {
  }

  lemma PushContents(cs: seq<Item>, item: Item)
    ensures Contents(cs + if item.itemlist != [] then [item] else []) == Contents(cs) + item.itemlist
  {
    if item.itemlist != [] {
      ContentsConcat(cs, [item]);
      assert Contents([item]) == item.itemlist + Contents([item][1..]);
    } else {
      assert cs + [] == cs;
    }
  }

  lemma {:induction false} ContentsConcat(a: seq<Item>, b: seq<Item>)
    ensures Contents(a + b) == Contents(a) + Contents(b)
    decreases |a|
  {
    if a == [] {
      assert a + b == b;
    } else {
      ContentsConcat(a[1..], b);
      assert (a + b)[1..] == a[1..] + b;
    }
  }

  /** Every container's totals are the sums over what it directly holds. */
  ghost predicate Consistent(s: set<Item>)
    reads s`parent, s`itemlist, s`rank, s`amountOfItems, s`id, s`count, s`totalWeight
  {
    && Valid(Shape(s))
    && Summed(Shape(s), Ones(Shape(s)), Amounts(s))
    && Summed(Shape(s), OwnWeights(s), Weights(s))
  }

  function Less(a: nat, b: nat): nat { if b < a then a - b else 0 }
  function Min(a: nat, b: nat): nat { if a < b then a else b }
  function Max(a: nat, b: nat): nat { if a < b then b else a }

  ghost function Shape(s: set<Item>): Forest<Item>
    reads s`parent, s`itemlist, s`rank
  {
    Forest(map x | x in s :: x.Holder(),
           map x | x in s :: x.itemlist,
           map x | x in s :: x.rank)
  }

  ghost function Amounts(s: set<Item>): (m: map<Item, int>)
    ensures m.Keys == s
    reads s`amountOfItems
  {
    map x | x in s :: x.amountOfItems
  }

  ghost function OwnWeights(s: set<Item>): (m: map<Item, int>)
    ensures m.Keys == s
    reads s`id, s`count
  {
    map x | x in s :: x.OwnWeight()
  }

  /** The weight of every thing without what it holds: that of its type, for each of a stack. */
  ghost function PlainWeights(s: set<Item>): map<Item, int>
    reads s`id, s`count
  {
    map x | x in s :: x.types(x.id).weight * if x.IsStackable() && x.count > 1 then x.count else 1
  }

  lemma PlainWeightsAre(s: set<Item>)
    ensures PlainWeights(s) == OwnWeights(s)
  {
  }

  ghost function Weights(s: set<Item>): (m: map<Item, int>)
    ensures m.Keys == s
    reads s`id, s`count, s`totalWeight
  {
    map x | x in s :: x.Weight()
  }

  lemma InsertAtRemoved(list: seq<Item>, i: nat, x: Item)
    requires i < |list|
    ensures Insert(Remove(list, i), i, x) == list[..i] + [x] + list[i + 1..]
  {
  }

  lemma ShapeInserted(f: Forest<Item>, s: set<Item>, c: Item, it: Item, i: nat)
    requires Valid(f) && f.parent.Keys == s && c in s && it in s && i <= |f.kids[c]|
    requires forall x :: x in s ==> x.Holder() == if x == it then Some(c) else f.parent[x]
    requires forall x :: x in s ==> x.itemlist == if x == c then Insert(f.kids[c], i, it) else f.kids[x]
    requires forall x :: x in s ==> x.rank == if it in Up(f, x) then f.rank[x] + f.rank[c] + 1 else f.rank[x]
    ensures Shape(s) == Attach(f, c, it, i)
  {
    hide Up, Linked, Ranked, Insert, NoDup;
  }

  lemma HolderFacts(s: set<Item>, x: Item)
    requires Valid(Shape(s)) && x in s
    ensures x in Shape(s).parent && Shape(s).parent[x] == x.Holder()
    ensures x.parent != null ==> x.parent in s && x.parent.rank < x.rank
  {
    hide Linked;
    if x.parent != null {
      assert Shape(s).parent[x] == Some(x.parent);
    }
  }

  lemma BumpStep(f: Forest<Item>, v: map<Item, int>, x: Item, d: int)
    requires Valid(f) && x in f.parent && x in v
    ensures Bump(v, Up(f, x), d) ==
            var w := v[x := v[x] + d];
            if f.parent[x].None? then w else Bump(w, Up(f, f.parent[x].value), d)
  {
    hide Linked;
    if f.parent[x].Some? {
      var p := f.parent[x].value;
      if x in Up(f, p) { UpRank(f, p, x); }
    }
  }

  /** Some holder would hold too many items. */
  ghost predicate Crowded(s: set<Item>, a: set<Item>, item: Item, maxInside: nat)
    requires a <= s && item in s
    reads s`amountOfItems
  {
    exists c :: c in a && c.amountOfItems + item.amountOfItems > maxInside + 1
  }

  lemma UpFacts(s: set<Item>, x: Item)
    requires Valid(Shape(s)) && x in s
    ensures x in Shape(s).parent && Shape(s).parent.Keys == s
    ensures x.parent != null ==> x.parent in s && x.parent.rank < x.rank
    ensures Up(Shape(s), x) == {x} + if x.parent == null then {} else Up(Shape(s), x.parent)
  {
    HolderFacts(s, x);
    hide Linked, Ranked;
  }

  lemma ConsistentParts(s: set<Item>)
    requires Consistent(s)
    ensures Valid(Shape(s)) && Summed(Shape(s), Ones(Shape(s)), Amounts(s)) && Summed(Shape(s), OwnWeights(s), Weights(s))
  {
    hide Valid, Summed;
  }

  lemma HeldBy(s: set<Item>, c: Item, it: Item)
    requires Valid(Shape(s)) && c in s && it in c.itemlist
    ensures it in s && it.parent == c
  {
    hide Ranked;
    NodeFacts(s, c);
    assert it in Shape(s).kids[c];
    assert Shape(s).parent[it] == Some(c);
  }

  lemma ConsistentValid(s: set<Item>)
    requires Consistent(s)
    ensures Valid(Shape(s))
  {
    hide Valid, Summed;
  }

  lemma RemoveKeeps(s: set<Item>, c: Item, it: Item, i: nat)
    requires Consistent(s) && c in s && i < |c.itemlist| && c.itemlist[i] == it
    ensures Shape(s).parent.Keys == s && i < |Shape(s).kids[c]| && it in s
    ensures var f := Shape(s); var g := Detach(f, c, i);
      && Valid(g) && Up(g, c) == Up(f, c)
      && Summed(g, Ones(g), Bump(Amounts(s), Up(f, c), -it.amountOfItems))
      && Summed(g, OwnWeights(s), Bump(Weights(s), Up(f, c), -it.Weight()))
  {
    hide Valid, Up, Bump, Summed, Detach, Shape, Amounts, Weights, OwnWeights, Val, Ones;
    ConsistentValid(s);
    var f := Shape(s);
    HeldBy(s, c, it);
    NodeFacts(s, it);
    NodeFacts(s, c);
    DetachValid(f, c, i);
    OnesSame(f, Detach(f, c, i));
    DetachSummed(f, Ones(f), Amounts(s), c, i);
    DetachSummed(f, OwnWeights(s), Weights(s), c, i);
  }

  lemma ReplaceKeeps(s: set<Item>, c: Item, was: Item, i: nat, it: Item)
    requires Consistent(s) && c in s && i < |c.itemlist| && c.itemlist[i] == was
    requires it in s && it.parent == null && it !in Up(Shape(s), c)
    ensures Shape(s).parent.Keys == s && i < |Shape(s).kids[c]| && was in s && was != it
    ensures var f := Shape(s); var h := Detach(f, c, i);
      && Valid(h) && i <= |h.kids[c]|
      && var g := Attach(h, c, it, i);
      && Valid(g)
      && Summed(g, Ones(g), Bump(Amounts(s), Up(f, c), it.amountOfItems - was.amountOfItems))
      && Summed(g, OwnWeights(s), Bump(Weights(s), Up(f, c), it.Weight() - was.Weight()))
  {
    hide Valid, Up, Bump, Summed, Attach, Shape, Amounts, Weights, OwnWeights, Ones;
    var f := Shape(s);
    RemoveKeeps(s, c, was, i);
    NodeFacts(s, it);
    NodeFacts(s, c);
    HeldBy(s, c, was);
    var h := Detach(f, c, i);
    AttachValid(h, c, it, i);
    OnesSame(h, Attach(h, c, it, i));
    ReplaceSummed(f, h, Ones(h), Amounts(s), c, it, i, -was.amountOfItems);
    ReplaceSummed(f, h, OwnWeights(s), Weights(s), c, it, i, -was.Weight());
  }

  lemma ReplaceSummed(f: Forest<Item>, h: Forest<Item>, base: map<Item, int>, v: map<Item, int>,
                      c: Item, it: Item, i: nat, d: int)
    requires Valid(f) && c in f.parent && it in v && it !in Up(f, c)
    requires Valid(h) && c in h.parent && it in h.parent && i <= |h.kids[c]| && Up(h, c) == Up(f, c)
    requires h.parent[it] == None && Summed(h, base, Bump(v, Up(f, c), d))
    ensures Valid(Attach(h, c, it, i))
    ensures Summed(Attach(h, c, it, i), base, Bump(v, Up(f, c), v[it] + d))
  {
    hide Valid, Up, Summed, Attach;
    var w := Bump(v, Up(f, c), d);
    AttachSummed(h, base, w, c, it, i);
    assert Bump(w, Up(f, c), v[it]) == Bump(v, Up(f, c), v[it] + d);
  }

  /** Amounts are positive, so taking one off twice breaks the sums. */
  lemma AmountWouldBreak(s: set<Item>, c: Item, it: Item)
    requires Consistent(s) && c in s && it in s
    ensures Valid(Shape(s)) && c in Shape(s).parent
    ensures !Summed(Shape(s), Ones(Shape(s)), Bump(Amounts(s), Up(Shape(s), c), -it.amountOfItems))
  {
    hide Valid, Up, Shape, Summed, Bump, Amounts, Weights, OwnWeights, Ones;
    ConsistentValid(s);
    NodeFacts(s, it);
    NodeFacts(s, c);
    AmountIsSize(s, it);
    SelfDown(Shape(s), it);
    BumpBreaks(Shape(s), Ones(Shape(s)), Amounts(s), c, -it.amountOfItems);
  }

  lemma SelfDown(f: Forest<Item>, x: Item)
    requires Valid(f) && x in f.parent
    ensures |Down(f, x)| > 0
  {
    hide Valid;
    assert x in Down(f, x);
  }

  lemma BrokenAmounts(s: set<Item>)
    requires !Summed(Shape(s), Ones(Shape(s)), Amounts(s))
    ensures !Consistent(s)
  {
    hide Valid, Shape, Summed, Ones, Amounts, Weights, OwnWeights;
  }

  /** getTotalAmountOfItemsInside is how many items there are, the container itself and all nested ones. */
  lemma AmountIsSize(s: set<Item>, x: Item)
    requires Consistent(s) && x in s
    ensures Valid(Shape(s)) && x in Shape(s).parent && x.amountOfItems == |Down(Shape(s), x)|
  {
    hide Valid, Shape, Summed, Ones, Weights, OwnWeights, Down, Recount;
    ConsistentValid(s);
    NodeFacts(s, x);
    SummedIsRecount(Shape(s), Ones(Shape(s)), Amounts(s), x);
    RecountIsSize(Shape(s), x);
  }

  /** getWeight is the own weights of the container and all nested items, counted afresh. */
  lemma WeightIsRecount(s: set<Item>, x: Item)
    requires Consistent(s) && x in s
    ensures Valid(Shape(s)) && x in Shape(s).parent && x.Weight() == Recount(Shape(s), PlainWeights(s), x)
  {
    hide Valid, Shape, Summed, Ones, Amounts, OwnWeights, Recount, PlainWeights;
    PlainWeightsAre(s);
    ConsistentValid(s);
    NodeFacts(s, x);
    SummedIsRecount(Shape(s), OwnWeights(s), Weights(s), x);
  }

  lemma MakeConsistent(s: set<Item>)
    requires Valid(Shape(s))
    requires Summed(Shape(s), Ones(Shape(s)), Amounts(s)) && Summed(Shape(s), OwnWeights(s), Weights(s))
    ensures Consistent(s)
  {
    hide Valid, Shape, Summed, Ones, Amounts, Weights, OwnWeights;
  }

  lemma NodeFacts(s: set<Item>, x: Item)
    requires x in s
    ensures Shape(s).parent.Keys == s && Shape(s).kids[x] == x.itemlist && Shape(s).parent[x] == x.Holder()
    ensures Val(Amounts(s), x) == x.amountOfItems && Val(Weights(s), x) == x.Weight()
  {
  }

  lemma KidsAre(s: set<Item>, x: Item)
    requires x in s
    ensures Shape(s).parent.Keys == s && x in Shape(s).kids && Shape(s).kids[x] == x.itemlist
  {
  }

  lemma AddKeeps(s: set<Item>, c: Item, it: Item, i: nat)
    requires Consistent(s) && c in s && it in s && i <= |c.itemlist|
    requires it.parent == null && it !in Up(Shape(s), c)
    ensures Shape(s).parent.Keys == s && i <= |Shape(s).kids[c]|
    ensures var f := Shape(s); var g := Attach(f, c, it, i);
      && Valid(g) && Up(g, c) == Up(f, c) && Ones(g) == Ones(f)
      && Summed(g, Ones(g), Bump(Amounts(s), Up(f, c), it.amountOfItems))
      && Summed(g, OwnWeights(s), Bump(Weights(s), Up(f, c), it.Weight()))
  {
    hide Valid, Up, Bump, Summed, Attach, Shape, Amounts, Weights, OwnWeights, Val;
    var f := Shape(s);
    NodeFacts(s, it);
    NodeFacts(s, c);
    AttachValid(f, c, it, i);
    AttachSummed(f, Ones(f), Amounts(s), c, it, i);
    AttachSummed(f, OwnWeights(s), Weights(s), c, it, i);
  }
}
