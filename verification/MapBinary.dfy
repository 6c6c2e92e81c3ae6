/** The binary map store: an item with everything in it as one stretch of bytes. */
module MapBinary {
  import opened Wrappers
  import opened MapItems

  // ---------- Writing ----------

  /** The bytes of an item. */
  function Save(kinds: Kinds, it: Item): (bytes: seq<byte>)
    ensures |bytes| >= 3
  {
    Short(it.id) + Write(Chunks(kinds(it.id), it.attrs))
    + (if kinds(it.id).isContainer then [Word(ATTR_CONTAINER_ITEMS)] + Long(|it.kids|) + SaveBack(kinds, it.kids) else [])
    + [0]
  }

  /** The bytes of a list of items, the last first. */
  function SaveBack(kinds: Kinds, kids: seq<Item>): seq<byte> {
    if kids == [] then [] else Save(kinds, kids[|kids| - 1]) + SaveBack(kinds, kids[..|kids| - 1])
  }

  method SaveItem(kinds: Kinds, it: Item, stream: PropWriteStream)
    modifies stream
    ensures stream.buffer == old(stream.buffer) + Save(kinds, it)
    decreases it, 1
  {
    hide Write, Chunks, Short, Long;
    stream.Add(Short(it.id));
    SerializeAttr(kinds(it.id), it.attrs, stream);
    if kinds(it.id).isContainer {
      SaveItems(kinds, it, stream);
    }
    stream.Add([0]);
  }

  method SaveItems(kinds: Kinds, container: Item, stream: PropWriteStream)
    modifies stream
    ensures stream.buffer
            == old(stream.buffer) + ([Word(ATTR_CONTAINER_ITEMS)] + Long(|container.kids|) + SaveBack(kinds, container.kids))
    decreases container, 0
  {
    hide SaveBack, Save, Long, Word;
    var kids := container.kids;
    stream.Add([Word(ATTR_CONTAINER_ITEMS)]);
    stream.Add(Long(|kids|));
    ghost var start := stream.buffer;
    var i := |kids|;
    SaveBackNone(kinds, kids);
    while i > 0
      invariant 0 <= i <= |kids|
      invariant stream.buffer + SaveBack(kinds, kids[..i]) == start + SaveBack(kinds, kids)
    {
      SaveBackStep(kinds, kids, i);
      i := i - 1;
      ghost var before := stream.buffer;
      SaveItem(kinds, kids[i], stream);
      Joined(before, Save(kinds, kids[i]), SaveBack(kinds, kids[..i]));
    }
    assert stream.buffer == start + SaveBack(kinds, kids);
    Joined(old(stream.buffer) + [Word(ATTR_CONTAINER_ITEMS)], Long(|kids|), SaveBack(kinds, kids));
    Joined(old(stream.buffer), [Word(ATTR_CONTAINER_ITEMS)], Long(|kids|) + SaveBack(kinds, kids));
    Joined([Word(ATTR_CONTAINER_ITEMS)], Long(|kids|), SaveBack(kinds, kids));
  }

  lemma SaveBackNone(kinds: Kinds, kids: seq<Item>)
    ensures kids[..|kids|] == kids && SaveBack(kinds, kids[..0]) == []
  {
  }

  lemma SaveBackStep(kinds: Kinds, kids: seq<Item>, i: nat)
    requires 0 < i <= |kids|
    ensures SaveBack(kinds, kids[..i]) == Save(kinds, kids[i - 1]) + SaveBack(kinds, kids[..i - 1])
  {
    assert kids[..i][..i - 1] == kids[..i - 1];
  }

  // ---------- Reading ----------

  datatype Loaded = LoadFailed | NoItem(p: nat) | Got(item: Item, p: nat)

  /** The end mark of a container, which may be missing at the end of the data. */
  function EndMark(container: Item, s: seq<byte>, p: nat): Loaded
    requires p <= |s|
  {
    if p == |s| then Got(container, p) else if s[p] == 0 then Got(container, p + 1) else LoadFailed
  }

  /** Reads an item that is to come into a container. That is on no tile yet, so that starting its decay does nothing. */
  function Load(kinds: Kinds, s: seq<byte>, p: nat): (r: Loaded)
    requires p <= |s|
    ensures !r.LoadFailed? ==> p <= r.p <= |s|
    decreases |s| - p, 0
  {
    var id, q := if p + 2 <= |s| then ShortAt(s, p) else 0, if p + 2 <= |s| then p + 2 else p;
    if id == 0 || !kinds(id).known then NoItem(q)
    else
      match Read(kinds(id), Created(kinds(id), 0), s, q)
      case Failed => LoadFailed
      case Ended(a, r) => if kinds(id).isContainer then EndMark(NewItem(id, a), s, r) else Got(NewItem(id, a), r)
      case Items(a, r, count) => LoadKids(kinds, s, r, count, NewItem(id, a))
  }

  /** Reads so many items into a container, and its end mark. */
  function LoadKids(kinds: Kinds, s: seq<byte>, p: nat, count: nat, container: Item): (r: Loaded)
    requires p <= |s|
    ensures !r.LoadFailed? ==> p <= r.p <= |s|
    decreases |s| - p, count + 1
  {
    if count == 0 then EndMark(container, s, p)
    else
      match Load(kinds, s, p)
      case LoadFailed => LoadFailed
      case NoItem(q) => LoadKids(kinds, s, q, count - 1, container)
      case Got(it, q) => LoadKids(kinds, s, q, count - 1, PushFront(kinds, container, it))
  }

  method LoadItem(kinds: Kinds, stream: PropStream) returns (r: Loaded)
    requires stream.Valid()
    modifies stream
    ensures stream.Valid() && r == Load(kinds, stream.data, old(stream.p)) && (!r.LoadFailed? ==> stream.p == r.p)
    decreases |stream.data| - stream.p, 0
  {
    var ok, id := stream.GetUint16();
    if id == 0 || !kinds(id).known {
      return NoItem(stream.p);
    }
    var reading := UnserializeAttr(kinds(id), Created(kinds(id), 0), stream);
    match reading {
      case Failed =>
        return LoadFailed;
      case Ended(a, _) =>
        if kinds(id).isContainer {
          r := LoadContainer(kinds, stream, 0, NewItem(id, a));
        } else {
          r := Got(NewItem(id, a), stream.p);
        }
      case Items(a, _, count) =>
        r := LoadContainer(kinds, stream, count, NewItem(id, a));
    }
  }

  method LoadContainer(kinds: Kinds, stream: PropStream, count: nat, empty: Item) returns (r: Loaded)
    requires stream.Valid()
    modifies stream
    ensures stream.Valid() && r == LoadKids(kinds, stream.data, old(stream.p), count, empty) && (!r.LoadFailed? ==> stream.p == r.p)
    decreases |stream.data| - stream.p, count + 1
  {
    var serializationCount, container := count, empty;
    while serializationCount > 0
      invariant 0 <= serializationCount <= count && stream.Valid() && stream.p >= old(stream.p)
      invariant LoadKids(kinds, stream.data, old(stream.p), count, empty)
                == LoadKids(kinds, stream.data, stream.p, serializationCount, container)
    {
      var loaded := LoadItem(kinds, stream);
      match loaded {
        case LoadFailed => return LoadFailed;
        case NoItem(_) =>
        case Got(it, _) => container := PushFront(kinds, container, it);
      }
      serializationCount := serializationCount - 1;
    }
    var _, endAttr := stream.GetUint8();
    if endAttr != 0 {
      return LoadFailed;
    }
    return Got(container, stream.p);
  }

  /** Reads an item that is to come to a tile, where the decay of it and of all it holds is started. */
  function LoadTile(kinds: Kinds, s: seq<byte>, p: nat): (r: Loaded)
    requires p <= |s|
    ensures !r.LoadFailed? ==> p <= r.p <= |s|
  {
    match Load(kinds, s, p)
    case LoadFailed => LoadFailed
    case NoItem(q) => NoItem(q)
    case Got(it, q) => Got(Begun(kinds, it, OnTile(true)), q)
  }

  method LoadItemOnTile(kinds: Kinds, stream: PropStream) returns (r: Loaded)
    requires stream.Valid()
    modifies stream
    ensures stream.Valid() && r == LoadTile(kinds, stream.data, old(stream.p)) && (!r.LoadFailed? ==> stream.p == r.p)
  {
    r := LoadItem(kinds, stream);
    if r.Got? {
      var item := StartDecaying(kinds, r.item, OnTile(true));
      r := Got(item, r.p);
    }
  }

  // ---------- The round trip ----------

  lemma ReadEnd(kind: Kind, a: Attrs, s: seq<byte>, p: nat)
    requires p < |s| && s[p] == 0
    ensures Read(kind, a, s, p) == Ended(a, p + 1)
  {
  }

  lemma ReadItems(kind: Kind, a: Attrs, pre: seq<byte>, count: nat, post: seq<byte>)
    requires kind.isContainer && count < 0x1_0000_0000
    ensures var s := pre + [Word(ATTR_CONTAINER_ITEMS)] + Long(count) + post;
      Read(kind, a, s, |pre|) == Items(a, |pre| + 5, count)
  {
    var s := pre + [Word(ATTR_CONTAINER_ITEMS)] + Long(count) + post;
    LongBack(count, pre + [Word(ATTR_CONTAINER_ITEMS)], post);
    assert s[|pre|] as int == ATTR_CONTAINER_ITEMS;
  }

  lemma LoadPlain(kinds: Kinds, s: seq<byte>, p: nat, a: Attrs, r: nat)
    requires p + 2 <= |s| && ShortAt(s, p) != 0 && kinds(ShortAt(s, p)).known && !kinds(ShortAt(s, p)).isContainer
    requires Read(kinds(ShortAt(s, p)), Created(kinds(ShortAt(s, p)), 0), s, p + 2) == Ended(a, r)
    ensures Load(kinds, s, p) == Got(NewItem(ShortAt(s, p), a), r)
  {
    hide Read, Created;
  }

  lemma LoadBox(kinds: Kinds, s: seq<byte>, p: nat, a: Attrs, r: nat, count: nat)
    requires p + 2 <= |s| && ShortAt(s, p) != 0 && kinds(ShortAt(s, p)).known
    requires Read(kinds(ShortAt(s, p)), Created(kinds(ShortAt(s, p)), 0), s, p + 2) == Items(a, r, count)
    ensures r <= |s| && Load(kinds, s, p) == LoadKids(kinds, s, r, count, NewItem(ShortAt(s, p), a))
  {
    hide Read, Created;
  }

  lemma LoadKidsStep(kinds: Kinds, s: seq<byte>, p: nat, count: nat, container: Item, it: Item, q: nat)
    requires p <= |s| && count > 0 && Load(kinds, s, p) == Got(it, q)
    ensures q <= |s| && LoadKids(kinds, s, p, count, container) == LoadKids(kinds, s, q, count - 1, PushFront(kinds, container, it))
  {
    hide Load;
  }

  lemma LoadKidsEnd(kinds: Kinds, s: seq<byte>, p: nat, container: Item)
    requires p < |s| && s[p] == 0
    ensures LoadKids(kinds, s, p, 0, container) == Got(container, p + 1)
  {
  }

  /** Loading reads back exactly the bytes of an item, whatever stands before and after them. */
  lemma {:induction false} LoadSaved(kinds: Kinds, it: Item, pre: seq<byte>, post: seq<byte>)
    requires Storable(kinds, it)
    ensures Load(kinds, pre + Save(kinds, it) + post, |pre|) == Got(Rebuilt(kinds, it, false), |pre| + |Save(kinds, it)|)
    decreases it, 1
  {
    hide Read, Restored, Created, SaveBack, Write, Chunks, Known, Long, Short, ShortAt, LongAt, Load, LoadKids, Rebuilt, RebuiltAll, Filled;
    var kind := kinds(it.id);
    var a, w := Restored(kind, Created(kind, 0), it.attrs), Write(Chunks(kind, it.attrs));
    var box := if kind.isContainer then [Word(ATTR_CONTAINER_ITEMS)] + Long(|it.kids|) + SaveBack(kinds, it.kids) else [];
    var s := pre + Save(kinds, it) + post;
    IdRead(it.id, pre, w, box + [0] + post);
    AttributesRead(kind, Created(kind, 0), it.attrs, pre + Short(it.id), box + [0] + post);
    assert s == pre + Short(it.id) + w + (box + [0] + post);
    var head := pre + Short(it.id) + w;
    if kind.isContainer {
      assert s == head + (box + [0] + post);
      LoadSavedBox(kinds, it, head, post);
      LoadBox(kinds, s, |pre|, a, |head| + 5, |it.kids|);
    } else {
      ReadEnd(kind, a, s, |head|);
      LoadPlain(kinds, s, |pre|, a, |head| + 1);
      FilledBack(kinds, it, false);
      PlainRebuilt(kinds, it, false);
    }
  }

  /** What a container holds is read back from behind its attributes. */
  lemma {:induction false} LoadSavedBox(kinds: Kinds, it: Item, head: seq<byte>, post: seq<byte>)
    requires Storable(kinds, it) && kinds(it.id).isContainer
    ensures var kind := kinds(it.id);
      var a := Restored(kind, Created(kind, 0), it.attrs);
      var box := [Word(ATTR_CONTAINER_ITEMS)] + Long(|it.kids|) + SaveBack(kinds, it.kids);
      var s := head + (box + [0] + post);
      && Read(kind, a, s, |head|) == Items(a, |head| + 5, |it.kids|) && |head| + 5 <= |s|
      && LoadKids(kinds, s, |head| + 5, |it.kids|, NewItem(it.id, a)) == Got(Rebuilt(kinds, it, false), |head| + |box| + 1)
    decreases it, 0
  {
    hide Read, Restored, Created, SaveBack, Long, LongAt, Load, LoadKids, Rebuilt, RebuiltAll, Filled;
    var kind := kinds(it.id);
    var a, kidsBytes := Restored(kind, Created(kind, 0), it.attrs), SaveBack(kinds, it.kids);
    var pre' := head + [Word(ATTR_CONTAINER_ITEMS)] + Long(|it.kids|);
    var s := pre' + kidsBytes + ([0] + post);
    assert s == head + ([Word(ATTR_CONTAINER_ITEMS)] + Long(|it.kids|) + kidsBytes + [0] + post);
    assert s == head + [Word(ATTR_CONTAINER_ITEMS)] + Long(|it.kids|) + (kidsBytes + [0] + post);
    ReadItems(kind, a, head, |it.kids|, kidsBytes + [0] + post);
    LongLength(|it.kids|);
    LoadSavedBack(kinds, it.kids, pre', [0] + post, NewItem(it.id, a));
    LoadKidsEnd(kinds, s, |pre'| + |kidsBytes|, Filled(kinds, NewItem(it.id, a), RebuiltAll(kinds, it.kids, false)));
    FilledBack(kinds, it, false);
  }

  lemma LongLength(n: int)
    ensures |Long(n)| == 4 && |Short(n)| == 2
  {
  }

  lemma IdRead(id: int, pre: seq<byte>, w: seq<byte>, rest: seq<byte>)
    requires 0 < id < 0x1_0000
    ensures |Short(id)| == 2 && ShortAt(pre + Short(id) + w + rest, |pre|) == id
  {
    ShortBack(id, pre, w + rest);
    assert pre + Short(id) + w + rest == pre + Short(id) + (w + rest);
  }

  lemma SaveBackLast(kinds: Kinds, kids: seq<Item>)
    requires kids != []
    ensures SaveBack(kinds, kids) == Save(kinds, kids[|kids| - 1]) + SaveBack(kinds, kids[..|kids| - 1])
  {
    hide Save;
  }

  lemma FilledLast(kinds: Kinds, container: Item, kids: seq<Item>)
    requires kids != []
    ensures Filled(kinds, container, RebuiltAll(kinds, kids, false))
            == Filled(kinds, PushFront(kinds, container, Rebuilt(kinds, kids[|kids| - 1], false)), RebuiltAll(kinds, kids[..|kids| - 1], false))
  {
    hide Rebuilt, RebuiltAll, PushFront;
    RebuiltLast(kinds, kids, false);
  }

  lemma FilledNone(kinds: Kinds, container: Item)
    ensures Filled(kinds, container, RebuiltAll(kinds, [], false)) == container && SaveBack(kinds, []) == []
  {
  }

  /** So does loading what a container holds. */
  lemma {:induction false} LoadSavedBack(kinds: Kinds, kids: seq<Item>, pre: seq<byte>, post: seq<byte>, container: Item)
    requires forall k :: k in kids ==> Storable(kinds, k)
    ensures var s := pre + SaveBack(kinds, kids) + post;
      LoadKids(kinds, s, |pre|, |kids|, container)
      == LoadKids(kinds, s, |pre| + |SaveBack(kinds, kids)|, 0, Filled(kinds, container, RebuiltAll(kinds, kids, false)))
    decreases kids, 0
  {
    hide Save, SaveBack, Load, LoadKids, Rebuilt, RebuiltAll, PushFront, Filled, Storable;
    if kids == [] {
      FilledNone(kinds, container);
    } else {
      var front, last := kids[..|kids| - 1], kids[|kids| - 1];
      var s, bytes := pre + SaveBack(kinds, kids) + post, Save(kinds, last);
      SaveBackLast(kinds, kids);
      assert s == pre + bytes + (SaveBack(kinds, front) + post) == (pre + bytes) + SaveBack(kinds, front) + post;
      LoadSaved(kinds, last, pre, SaveBack(kinds, front) + post);
      LoadKidsStep(kinds, s, |pre|, |kids|, container, Rebuilt(kinds, last, false), |pre| + |bytes|);
      LoadSavedBack(kinds, front, pre + bytes, post, PushFront(kinds, container, Rebuilt(kinds, last, false)));
      FilledLast(kinds, container, kids);
    }
  }

  /** Saving an item and loading it into a container that is on no tile yet gives it back, with everything in it and
      in the same order, exactly if it is sound; and reading always stops where the item ends.
   */
  lemma BinaryRoundTrip(kinds: Kinds, it: Item, pre: seq<byte>, post: seq<byte>)
    requires Storable(kinds, it)
    ensures var r := Load(kinds, pre + Save(kinds, it) + post, |pre|);
      && r.Got? && r.p == |pre| + |Save(kinds, it)|
      && (r.item == it <==> Sound(kinds, it, Loose))
      && r.item.amountOfItems == ItemsInside(it)
  {
    hide Load, Save, Rebuilt, Sound, Storable, ItemsInside;
    LoadSaved(kinds, it, pre, post);
    BegunLoose(kinds, Rebuilt(kinds, it, false));
    RebuiltSame(kinds, it, false, Loose);
    RebuiltAmount(kinds, it, false);
  }

  /** Loading an item onto its tile then starts the decay of all it holds: it is what it was exactly if it is sound
      for a load that does. An item that has decayed at once stays in the result, marked as spent.
   */
  lemma TileRoundTrip(kinds: Kinds, it: Item, pre: seq<byte>, post: seq<byte>)
    requires Storable(kinds, it)
    ensures var r := LoadTile(kinds, pre + Save(kinds, it) + post, |pre|);
      && r.Got? && r.p == |pre| + |Save(kinds, it)|
      && (r.item == it <==> Sound(kinds, it, OnTile(true)))
      && r.item.amountOfItems == ItemsInside(it)
  {
    hide Load, Save, Rebuilt, Sound, Storable, ItemsInside, Begun;
    LoadSaved(kinds, it, pre, post);
    RebuiltSame(kinds, it, false, OnTile(true));
    RebuiltAmount(kinds, it, false);
  }
}
