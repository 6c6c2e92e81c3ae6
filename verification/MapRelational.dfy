/** The relational map store: a row for every item, numbered breadth first, with the number of its container. */
module MapRelational {
  import opened Wrappers
  import opened MapItems

  datatype Row = Row(sid: int, pid: int, itemtype: nat, count: nat, attributes: seq<byte>)

  function RowOf(kinds: Kinds, sid: int, pid: int, it: Item): Row {
    Row(sid, pid, it.id, SubType(kinds(it.id), it.attrs), Write(Chunks(kinds(it.id), it.attrs)))
  }

  /** The numbers, from one on, of the rows inside a container. */
  function KidsFrom(rows: seq<Row>, pid: int, k: nat): (s: seq<int>)
    ensures forall n :: n in s ==> k < n <= |rows|
    decreases |rows| - k
  {
    if k >= |rows| then [] else (if rows[k].pid == pid then [k + 1] else []) + KidsFrom(rows, pid, k + 1)
  }

  lemma {:induction false} KidsAppend(rows: seq<Row>, r: Row, pid: int, k: nat)
    requires k <= |rows|
    ensures KidsFrom(rows + [r], pid, k) == KidsFrom(rows, pid, k) + if r.pid == pid then [|rows| + 1] else []
    decreases |rows| - k
  {
    if k < |rows| {
      KidsAppend(rows, r, pid, k + 1);
    } else {
      assert KidsFrom(rows + [r], pid, k + 1) == [];
    }
  }

  /** The items of some rows. */
  function Named(trees: seq<Item>, sids: seq<int>): seq<Item> {
    seq(|sids|, i requires 0 <= i < |sids| => TreeAt(trees, sids[i]))
  }

  /** The item of a row. */
  function TreeAt(trees: seq<Item>, sid: int): Item {
    if 1 <= sid <= |trees| then trees[sid - 1] else NewItem(0, PLAIN)
  }

  /** Every row stands for an item, and lies in a row before it or in none. */
  predicate Numbered(kinds: Kinds, rows: seq<Row>, trees: seq<Item>) {
    && |rows| == |trees|
    && forall k :: 0 <= k < |rows| ==> 0 <= rows[k].pid <= k && rows[k] == RowOf(kinds, k + 1, rows[k].pid, trees[k])
  }

  /** The rows inside a row are those of the items inside its item, in the same order. */
  predicate Complete(rows: seq<Row>, trees: seq<Item>, sid: int) {
    Named(trees, KidsFrom(rows, sid, 0)) == TreeAt(trees, sid).kids
  }

  predicate AllComplete(rows: seq<Row>, trees: seq<Item>, done: int) {
    forall sid :: 1 <= sid <= done ==> Complete(rows, trees, sid)
  }

  /** The first rows are those of the items of a tile itself; all others lie inside a row. */
  predicate Rooted(rows: seq<Row>, trees: seq<Item>, tile: seq<Item>) {
    && |tile| <= |trees| == |rows| && trees[..|tile|] == tile
    && forall k :: 0 <= k < |rows| ==> (rows[k].pid == 0 <==> k < |tile|)
  }

  /** The rows store exactly the items of a tile and everything inside them. */
  predicate Stores(kinds: Kinds, rows: seq<Row>, trees: seq<Item>, tile: seq<Item>) {
    Numbered(kinds, rows, trees) && AllComplete(rows, trees, |rows|) && Rooted(rows, trees, tile)
  }

  lemma NamedAppend(trees: seq<Item>, t: Item, sids: seq<int>)
    requires forall n :: n in sids ==> 1 <= n <= |trees|
    ensures Named(trees + [t], sids) == Named(trees, sids)
  {
    forall i | 0 <= i < |sids|
      ensures TreeAt(trees + [t], sids[i]) == TreeAt(trees, sids[i])
    {
      assert sids[i] in sids;
    }
  }

  /** A further row changes nothing inside the rows it does not lie in. */
  lemma KidsKept(rows: seq<Row>, trees: seq<Item>, r: Row, t: Item, pid: int)
    requires |rows| == |trees|
    ensures Named(trees + [t], KidsFrom(rows + [r], pid, 0))
            == Named(trees, KidsFrom(rows, pid, 0)) + if r.pid == pid then [t] else []
  {
    KidsAppend(rows, r, pid, 0);
    NamedAppend(trees, t, KidsFrom(rows, pid, 0));
  }

  lemma AllCompleteKept(rows: seq<Row>, trees: seq<Item>, r: Row, t: Item, done: int)
    requires |rows| == |trees| && AllComplete(rows, trees, done) && done <= |rows| && r.pid > done
    ensures AllComplete(rows + [r], trees + [t], done)
  {
    hide KidsFrom, Named;
    forall sid | 1 <= sid <= done
      ensures Complete(rows + [r], trees + [t], sid)
    {
      assert Complete(rows, trees, sid);
      KidsKept(rows, trees, r, t, sid);
    }
  }

  // ---------- Saving ----------

  /** The containers whose contents still have to be stored: all from a row on. */
  function Queue(kinds: Kinds, trees: seq<Item>, done: int): seq<(Item, int)> {
    if |trees| <= done || trees == [] then []
    else
      var last := trees[|trees| - 1];
      Queue(kinds, trees[..|trees| - 1], done) + if kinds(last.id).isContainer then [(last, |trees|)] else []
  }

  lemma QueueAppend(kinds: Kinds, trees: seq<Item>, t: Item, done: int)
    requires done <= |trees|
    ensures Queue(kinds, trees + [t], done) == Queue(kinds, trees, done) + if kinds(t.id).isContainer then [(t, |trees| + 1)] else []
  {
    assert (trees + [t])[..|trees|] == trees;
  }

  /** The first container of the queue; nothing between the rows that are done and it is one. */
  lemma {:induction false} QueueFirst(kinds: Kinds, trees: seq<Item>, done: int)
    requires 0 <= done && Queue(kinds, trees, done) != []
    ensures var sid := Queue(kinds, trees, done)[0].1;
      && done < sid <= |trees| && Queue(kinds, trees, done)[0].0 == trees[sid - 1] && kinds(trees[sid - 1].id).isContainer
      && (forall k :: done <= k < sid - 1 ==> !kinds(trees[k].id).isContainer)
      && Queue(kinds, trees, sid) == Queue(kinds, trees, done)[1..]
    decreases |trees|
  {
    var front, last := trees[..|trees| - 1], trees[|trees| - 1];
    if Queue(kinds, front, done) != [] {
      QueueFirst(kinds, front, done);
      var sid := Queue(kinds, front, done)[0].1;
      assert Queue(kinds, trees, done)[0] == Queue(kinds, front, done)[0];
    } else {
      QueueEmpty(kinds, front, done);
      assert Queue(kinds, trees, |trees|) == [];
    }
  }

  lemma {:induction false} QueueEmpty(kinds: Kinds, trees: seq<Item>, done: int)
    requires 0 <= done && Queue(kinds, trees, done) == []
    ensures forall k :: done <= k < |trees| ==> !kinds(trees[k].id).isContainer
    decreases |trees|
  {
    if done < |trees| {
      QueueEmpty(kinds, trees[..|trees| - 1], done);
    }
  }

  predicate PidsUpTo(rows: seq<Row>, done: int) {
    forall k :: 0 <= k < |rows| ==> rows[k].pid <= done
  }

  predicate AllStorable(kinds: Kinds, trees: seq<Item>) {
    forall i :: 0 <= i < |trees| ==> Storable(kinds, trees[i])
  }

  lemma {:induction false} NoneInside(rows: seq<Row>, pid: int, k: nat)
    requires forall i :: k <= i < |rows| ==> rows[i].pid != pid
    ensures KidsFrom(rows, pid, k) == []
    decreases |rows| - k
  {
    if k < |rows| {
      NoneInside(rows, pid, k + 1);
    }
  }

  /** Rows of items that hold nothing are complete. */
  lemma PlainComplete(kinds: Kinds, rows: seq<Row>, trees: seq<Item>, done: int, upto: int)
    requires AllComplete(rows, trees, done) && PidsUpTo(rows, done) && AllStorable(kinds, trees)
    requires 0 <= done <= upto <= |trees| && forall k :: done <= k < upto ==> !kinds(trees[k].id).isContainer
    ensures AllComplete(rows, trees, upto) && PidsUpTo(rows, upto)
  {
    hide KidsFrom, Storable;
    forall sid | 1 <= sid <= upto
      ensures Complete(rows, trees, sid)
    {
      if sid <= done {
        assert Complete(rows, trees, sid);
      } else {
        NoneInside(rows, sid, 0);
        StorablePlain(kinds, trees[sid - 1]);
      }
    }
  }

  lemma StorablePlain(kinds: Kinds, it: Item)
    requires Storable(kinds, it)
    ensures !kinds(it.id).isContainer ==> it.kids == []
    ensures AllStorable(kinds, it.kids)
  {
  }

  /** Rows and a queue after the rows of some items inside a row, or on the tile, were added. */
  function Added(kinds: Kinds, rows: seq<Row>, queue: seq<(Item, int)>, pid: int, items: seq<Item>): (r: (seq<Row>, seq<(Item, int)>))
    ensures |r.0| == |rows| + |items|
    decreases |items|
  {
    if items == [] then (rows, queue)
    else
      var (before, waiting) := Added(kinds, rows, queue, pid, items[..|items| - 1]);
      var it := items[|items| - 1];
      (before + [RowOf(kinds, |before| + 1, pid, it)],
       waiting + if kinds(it.id).isContainer then [(it, |before| + 1)] else [])
  }

  /** All rows, once those of the contents of the queued containers, and of what they queue, have been added. */
  function AllAdded(kinds: Kinds, rows: seq<Row>, queue: seq<(Item, int)>): seq<Row>
    decreases Insides(queue)
  {
    if queue == [] then rows
    else
      var (container, parentid) := queue[0];
      AddedLess(kinds, rows, queue);
      var (more, waiting) := Added(kinds, rows, queue[1..], parentid, container.kids);
      AllAdded(kinds, more, waiting)
  }

  /** The rows of a tile. */
  function Stored(kinds: Kinds, tile: seq<Item>): seq<Row> {
    var (rows, queue) := Added(kinds, [], [], 0, tile);
    AllAdded(kinds, rows, queue)
  }

  function Insides(queue: seq<(Item, int)>): nat {
    if queue == [] then 0 else Insides(queue[..|queue| - 1]) + ItemsInside(queue[|queue| - 1].0)
  }

  lemma {:induction false} InsidesAdded(kinds: Kinds, rows: seq<Row>, queue: seq<(Item, int)>, pid: int, items: seq<Item>)
    ensures Insides(Added(kinds, rows, queue, pid, items).1) <= Insides(queue) + ItemsInAll(items)
    decreases |items|
  {
    hide RowOf, ItemsInside;
    if items != [] {
      var front, it := items[..|items| - 1], items[|items| - 1];
      InsidesAdded(kinds, rows, queue, pid, front);
      var (before, waiting) := Added(kinds, rows, queue, pid, front);
      assert (waiting + [(it, |before| + 1)])[..|waiting|] == waiting;
      assert waiting + [] == waiting;
    }
  }

  /** The first container of the queue goes, and only what it holds can come. */
  lemma AddedLess(kinds: Kinds, rows: seq<Row>, queue: seq<(Item, int)>)
    requires queue != []
    ensures Insides(Added(kinds, rows, queue[1..], queue[0].1, queue[0].0.kids).1) < Insides(queue)
  {
    hide Added;
    InsidesAdded(kinds, rows, queue[1..], queue[0].1, queue[0].0.kids);
    InsidesFirst(queue);
  }

  lemma {:induction false} InsidesJoin(a: seq<(Item, int)>, b: seq<(Item, int)>)
    ensures Insides(a + b) == Insides(a) + Insides(b)
    decreases |b|
  {
    hide ItemsInside;
    if b == [] {
      assert a + b == a;
    } else {
      assert (a + b)[..|a + b| - 1] == a + b[..|b| - 1];
      InsidesJoin(a, b[..|b| - 1]);
    }
  }

  lemma InsidesFirst(queue: seq<(Item, int)>)
    requires queue != []
    ensures Insides(queue) == 1 + ItemsInAll(queue[0].0.kids) + Insides(queue[1..])
  {
    InsidesJoin([queue[0]], queue[1..]);
    assert [queue[0]] + queue[1..] == queue;
    assert Insides([queue[0]]) == Insides([queue[0]][..0]) + ItemsInside(queue[0].0);
  }

  /** Adds the row of an item. */
  method AddRow(kinds: Kinds, rows: seq<Row>, pid: int, it: Item) returns (rows': seq<Row>)
    ensures rows' == rows + [RowOf(kinds, |rows| + 1, pid, it)]
  {
    hide Write, Chunks;
    var stream := new PropWriteStream();
    SerializeAttr(kinds(it.id), it.attrs, stream);
    assert stream.buffer == Write(Chunks(kinds(it.id), it.attrs));
    rows' := rows + [Row(|rows| + 1, pid, it.id, SubType(kinds(it.id), it.attrs), stream.buffer)];
  }

  /** Adds the rows of the items on a tile, or of what a container holds, and queues the containers among them. */
  method SaveInside(kinds: Kinds, rows0: seq<Row>, queue0: seq<(Item, int)>, parentid: int, items: seq<Item>)
    returns (rows: seq<Row>, queue: seq<(Item, int)>)
    ensures (rows, queue) == Added(kinds, rows0, queue0, parentid, items)
  {
    hide RowOf;
    var runningID := |rows0|;
    rows, queue := rows0, queue0;
    for i := 0 to |items|
      invariant runningID == |rows| && (rows, queue) == Added(kinds, rows0, queue0, parentid, items[..i])
    {
      var item := items[i];
      runningID := runningID + 1;
      assert items[..i + 1][..i] == items[..i];
      assert queue + [] == queue;
      rows := AddRow(kinds, rows, parentid, item);
      if kinds(item.id).isContainer {
        queue := queue + [(item, runningID)];
      }
    }
    assert items[..|items|] == items;
  }

  /** Stores the items of a tile: first those on it, then what the containers hold, container by container. */
  method SaveItems(kinds: Kinds, tile: seq<Item>) returns (rows: seq<Row>)
    ensures rows == Stored(kinds, tile)
  {
    hide Added, Insides;
    var containerStackList;
    rows, containerStackList := SaveInside(kinds, [], [], 0, tile);
    while containerStackList != []
      invariant AllAdded(kinds, rows, containerStackList) == Stored(kinds, tile)
      decreases Insides(containerStackList)
    {
      var (container, parentid) := containerStackList[0];
      AddedLess(kinds, rows, containerStackList);
      rows, containerStackList := SaveInside(kinds, rows, containerStackList[1..], parentid, container.kids);
    }
  }

  // ---------- What is stored ----------

  /** What holds between the containers: everything up to a row is complete, and the queue has the containers after it. */
  ghost predicate Saving(kinds: Kinds, rows: seq<Row>, trees: seq<Item>, queue: seq<(Item, int)>, done: int, tile: seq<Item>) {
    && Numbered(kinds, rows, trees) && AllStorable(kinds, trees) && 0 <= done <= |rows|
    && AllComplete(rows, trees, done) && PidsUpTo(rows, done) && queue == Queue(kinds, trees, done)
    && Rooted(rows, trees, tile)
  }

  lemma NumberedAppend(kinds: Kinds, rows: seq<Row>, trees: seq<Item>, pid: int, it: Item)
    requires Numbered(kinds, rows, trees) && 0 <= pid <= |rows|
    ensures Numbered(kinds, rows + [RowOf(kinds, |rows| + 1, pid, it)], trees + [it])
  {
    hide RowOf;
    PidOf(kinds, |rows| + 1, pid, it);
  }

  lemma PidOf(kinds: Kinds, sid: int, pid: int, it: Item)
    ensures RowOf(kinds, sid, pid, it).pid == pid
  {
  }

  /** Adding the rows of items inside a row, or on the tile, adds exactly these rows inside it, and queues their containers. */
  lemma {:induction false} AddedKeeps(kinds: Kinds, rows: seq<Row>, trees: seq<Item>, queue: seq<(Item, int)>, pid: int, items: seq<Item>, done: int)
    requires Numbered(kinds, rows, trees) && 0 <= pid <= |rows| && done <= |rows| && queue == Queue(kinds, trees, done)
    requires AllComplete(rows, trees, pid - 1) && PidsUpTo(rows, pid)
    ensures var (more, waiting) := Added(kinds, rows, queue, pid, items);
      && Numbered(kinds, more, trees + items) && PidsUpTo(more, pid) && AllComplete(more, trees + items, pid - 1)
      && waiting == Queue(kinds, trees + items, done)
      && Named(trees + items, KidsFrom(more, pid, 0)) == Named(trees, KidsFrom(rows, pid, 0)) + items
      && rows <= more && forall k :: |rows| <= k < |more| ==> more[k].pid == pid
    decreases |items|
  {
    hide RowOf, KidsFrom, Named, AllComplete, Queue, Numbered;
    if items == [] {
      assert trees + items == trees;
    } else {
      var front, it := items[..|items| - 1], items[|items| - 1];
      AddedKeeps(kinds, rows, trees, queue, pid, front, done);
      NumberedSizes(kinds, rows, trees);
      var (before, waiting) := Added(kinds, rows, queue, pid, front);
      var row := RowOf(kinds, |before| + 1, pid, it);
      assert trees + items == (trees + front) + [it];
      PidOf(kinds, |before| + 1, pid, it);
      NumberedAppend(kinds, before, trees + front, pid, it);
      KidsKept(before, trees + front, row, it, pid);
      AllCompleteKept(before, trees + front, row, it, pid - 1);
      QueueAppend(kinds, trees + front, it, done);
    }
  }

  lemma NumberedSizes(kinds: Kinds, rows: seq<Row>, trees: seq<Item>)
    requires Numbered(kinds, rows, trees)
    ensures |rows| == |trees|
  {
  }

  lemma InsideStart(rows: seq<Row>, trees: seq<Item>, sid: int)
    requires PidsUpTo(rows, sid - 1)
    ensures Named(trees, KidsFrom(rows, sid, 0)) == []
  {
    NoneInside(rows, sid, 0);
  }

  lemma InsideComplete(rows: seq<Row>, trees: seq<Item>, sid: int)
    requires AllComplete(rows, trees, sid - 1) && Complete(rows, trees, sid)
    ensures AllComplete(rows, trees, sid)
  {
    hide Complete;
  }

  lemma StorableAll(kinds: Kinds, trees: seq<Item>, sid: int)
    requires AllStorable(kinds, trees) && 1 <= sid <= |trees|
    ensures AllStorable(kinds, trees + trees[sid - 1].kids)
  {
    StorablePlain(kinds, trees[sid - 1]);
  }

  /** The rows of a tile's own items. */
  lemma TileSaved(kinds: Kinds, tile: seq<Item>)
    requires AllStorable(kinds, tile)
    ensures var (rows, queue) := Added(kinds, [], [], 0, tile); Saving(kinds, rows, tile, queue, 0, tile)
  {
    hide RowOf, Added, Storable;
    assert Queue(kinds, [], 0) == [];
    AddedKeeps(kinds, [], [], [], 0, tile, 0);
    assert [] + tile == tile && tile[..|tile|] == tile;
  }

  /** The rows of what the first container of the queue holds. */
  lemma ContainerSaved(kinds: Kinds, rows: seq<Row>, trees: seq<Item>, queue: seq<(Item, int)>, done: int, tile: seq<Item>)
    requires Saving(kinds, rows, trees, queue, done, tile) && queue != []
    ensures var (container, parentid) := queue[0];
      var (more, waiting) := Added(kinds, rows, queue[1..], parentid, container.kids);
      Saving(kinds, more, trees + container.kids, waiting, parentid, tile)
  {
    hide RowOf, Queue, Added, Storable, KidsFrom, Named, AllComplete, AllStorable, Numbered;
    NumberedSizes(kinds, rows, trees);
    QueueFirst(kinds, trees, done);
    var (container, parentid) := queue[0];
    PlainComplete(kinds, rows, trees, done, parentid - 1);
    StorableAll(kinds, trees, parentid);
    InsideStart(rows, trees, parentid);
    assert PidsUpTo(rows, parentid);
    AddedKeeps(kinds, rows, trees, queue[1..], parentid, container.kids, parentid);
    var (more, waiting) := Added(kinds, rows, queue[1..], parentid, container.kids);
    NumberedSizes(kinds, more, trees + container.kids);
    assert TreeAt(trees + container.kids, parentid) == container;
    InsideComplete(more, trees + container.kids, parentid);
  }

  lemma {:induction false} QueueSaved(kinds: Kinds, rows: seq<Row>, trees: seq<Item>, queue: seq<(Item, int)>, done: int, tile: seq<Item>)
    returns (all: seq<Item>)
    requires Saving(kinds, rows, trees, queue, done, tile)
    ensures Stores(kinds, AllAdded(kinds, rows, queue), all, tile) && AllStorable(kinds, all)
    decreases Insides(queue)
  {
    hide RowOf, Queue, Added, Storable, KidsFrom, Named, AllComplete, AllStorable, Insides, Numbered, Rooted;
    NumberedSizes(kinds, rows, trees);
    if queue == [] {
      QueueEmpty(kinds, trees, done);
      PlainComplete(kinds, rows, trees, done, |rows|);
      all := trees;
    } else {
      var (container, parentid) := queue[0];
      ContainerSaved(kinds, rows, trees, queue, done, tile);
      AddedLess(kinds, rows, queue);
      var (more, waiting) := Added(kinds, rows, queue[1..], parentid, container.kids);
      all := QueueSaved(kinds, more, trees + container.kids, waiting, parentid, tile);
    }
  }

  /** The stored rows are those of the items of the tile and of everything inside them, each once, numbered so that
      everything comes after what it lies in, and what a row holds in its order.
   */
  lemma StoredStores(kinds: Kinds, tile: seq<Item>) returns (trees: seq<Item>)
    requires AllStorable(kinds, tile)
    ensures Stores(kinds, Stored(kinds, tile), trees, tile) && AllStorable(kinds, trees)
  {
    hide Added, AllAdded, Saving, Stores;
    TileSaved(kinds, tile);
    var (rows, queue) := Added(kinds, [], [], 0, tile);
    trees := QueueSaved(kinds, rows, tile, queue, 0, tile);
  }

  // ---------- Loading ----------

  /** The item of a row, before anything is put into it. */
  function RowItem(kinds: Kinds, row: Row): Option<Item> {
    if row.itemtype == 0 || !kinds(row.itemtype).known then None
    else
      match Read(kinds(row.itemtype), Created(kinds(row.itemtype), row.count), row.attributes, 0)
      case Failed => None
      case Ended(a, _) => Some(NewItem(row.itemtype, a))
      case Items(a, _, _) => Some(NewItem(row.itemtype, a))
  }

  method LoadRow(kinds: Kinds, row: Row) returns (item: Option<Item>)
    ensures item == RowItem(kinds, row)
  {
    if row.itemtype == 0 || !kinds(row.itemtype).known {
      return None;
    }
    var propStream := new PropStream(row.attributes);
    var reading := UnserializeAttr(kinds(row.itemtype), Created(kinds(row.itemtype), row.count), propStream);
    match reading {
      case Failed => return None;
      case Ended(a, _) => return Some(NewItem(row.itemtype, a));
      case Items(a, _, _) => return Some(NewItem(row.itemtype, a));
    }
  }

  type ItemMap = map<int, (Item, int)>

  /** A row lies in a row before it or in none, and its attributes, if its type is known, can be read to their end. */
  predicate Loadable(kinds: Kinds, row: Row) {
    && row.pid < row.sid && 1 <= row.sid
    && (row.itemtype == 0 || !kinds(row.itemtype).known ||
        var r := Read(kinds(row.itemtype), Created(kinds(row.itemtype), row.count), row.attributes, 0);
        r.Ended? && r.p == |row.attributes|)
  }

  /** An item that lies in no other one comes to the tile at once; what a container will hold is not in it yet. */
  function Arrival(pid: int): Stage {
    if pid == 0 then OnTile(false) else Loose
  }

  /** The items of some rows by number, each with the number of its container. */
  function ItemsOf(kinds: Kinds, result: seq<Row>): ItemMap {
    if result == [] then map[]
    else
      var m, row := ItemsOf(kinds, result[..|result| - 1]), result[|result| - 1];
      match RowItem(kinds, row)
      case None => m
      case Some(item) => m[row.sid := (Begun(kinds, item, Arrival(row.pid)), row.pid)]
  }

  /** The highest number of a row, or 0. */
  function LastOf(result: seq<Row>): nat {
    if result == [] then 0
    else
      var last, row := LastOf(result[..|result| - 1]), result[|result| - 1];
      if row.sid > last then row.sid else last
  }

  /** The item with a number comes into its container, if that is there and is one. Its decay is started if the
      container is on the tile: a container that lies in another one comes there only later.
   */
  function Placed(kinds: Kinds, m: ItemMap, sid: int): ItemMap {
    if sid in m && m[sid].1 in m && kinds(m[m[sid].1].0.id).isContainer then
      var pid := m[sid].1;
      var item := Begun(kinds, m[sid].0, if m[pid].1 == 0 then Put else Loose);
      m[sid := (item, pid)][pid := (PushFront(kinds, m[pid].0, item), m[pid].1)]
    else m
  }

  /** All items up to a number come into their containers, the highest number first. */
  function AllPlaced(kinds: Kinds, m: ItemMap, last: nat): ItemMap {
    if last == 0 then m else AllPlaced(kinds, Placed(kinds, m, last), last - 1)
  }

  function Loaded(kinds: Kinds, result: seq<Row>): ItemMap {
    AllPlaced(kinds, ItemsOf(kinds, result), LastOf(result))
  }

  /** Creates the items of the rows, and then puts each into its container, the highest number first. */
  method LoadItems(kinds: Kinds, result: seq<Row>) returns (itemMap: ItemMap)
    requires forall r :: r in result ==> Loadable(kinds, r)
    ensures itemMap == Loaded(kinds, result)
  {
    hide RowItem, Loadable, PushFront, Begun;
    var last := 0;
    itemMap := map[];
    for i := 0 to |result|
      invariant itemMap == ItemsOf(kinds, result[..i]) && last == LastOf(result[..i])
    {
      var row := result[i];
      assert result[..i + 1][..i] == result[..i];
      var item := LoadRow(kinds, row);
      if item.Some? {
        var arrived := StartDecaying(kinds, item.value, Arrival(row.pid));
        itemMap := itemMap[row.sid := (arrived, row.pid)];
      }
      if row.sid > last {
        last := row.sid;
      }
    }
    assert result[..|result|] == result;
    var sid := last;
    while sid > 0
      invariant sid >= 0 && AllPlaced(kinds, itemMap, sid) == Loaded(kinds, result)
    {
      if sid in itemMap {
        var (item, pid) := itemMap[sid];
        if pid in itemMap {
          var (container, itsPid) := itemMap[pid];
          if kinds(container.id).isContainer {
            item := StartDecaying(kinds, item, if itsPid == 0 then Put else Loose);
            itemMap := itemMap[sid := (item, pid)][pid := (PushFront(kinds, container, item), itsPid)];
          }
        }
      }
      sid := sid - 1;
    }
  }

  // ---------- What is loaded ----------

  /** An item with restored attributes and these things inside. */
  function Package(kinds: Kinds, it: Item, kids: seq<Item>): Item {
    Item(it.id, Restored(kinds(it.id), CreatedBack(kinds, it, true), it.attrs), kids, 1 + Amounts(kids), Weights(kinds, kids))
  }

  lemma RowRestored(kinds: Kinds, sid: int, pid: int, it: Item)
    requires Storable(kinds, it)
    ensures RowItem(kinds, RowOf(kinds, sid, pid, it)) == Some(Package(kinds, it, []))
  {
    hide Restored, Created, Write, Chunks, Read, SubType;
    var kind := kinds(it.id);
    var w, plain := Write(Chunks(kind, it.attrs)), Created(kind, SubType(kind, it.attrs));
    AttributesRead(kind, plain, it.attrs, [], []);
    assert [] + w + [] == w;
    ReadAtEnd(kind, Restored(kind, plain, it.attrs), w);
  }

  lemma ReadAtEnd(kind: Kind, a: Attrs, s: seq<byte>)
    ensures Read(kind, a, s, |s|) == Ended(a, |s|)
  {
  }

  /** What a row's item holds once all rows after some row have been put into their containers. */
  function Inside(kinds: Kinds, rows: seq<Row>, trees: seq<Item>, sid: int, k: nat): seq<Item> {
    RebuiltAll(kinds, Named(trees, KidsFrom(rows, sid, k)), true)
  }

  lemma {:induction false} RebuiltFront(kinds: Kinds, t: Item, ts: seq<Item>)
    ensures RebuiltAll(kinds, [t] + ts, true) == [Rebuilt(kinds, t, true)] + RebuiltAll(kinds, ts, true)
    decreases |ts|
  {
    hide Rebuilt;
    var all := [t] + ts;
    if ts == [] {
      assert all[..0] == [] && RebuiltAll(kinds, all[..0], true) == [];
    } else {
      var front := ts[..|ts| - 1];
      assert all[..|all| - 1] == [t] + front;
      RebuiltFront(kinds, t, front);
    }
  }

  lemma {:induction false} TotalsFront(kinds: Kinds, t: Item, ts: seq<Item>)
    ensures Amounts([t] + ts) == t.amountOfItems + Amounts(ts) && Weights(kinds, [t] + ts) == Weight(kinds, t) + Weights(kinds, ts)
    decreases |ts|
  {
    hide Weight;
    var all := [t] + ts;
    if ts == [] {
      assert all[..0] == [] && Amounts(all[..0]) == 0 && Weights(kinds, all[..0]) == 0;
    } else {
      var front := ts[..|ts| - 1];
      assert all[..|all| - 1] == [t] + front;
      TotalsFront(kinds, t, front);
    }
  }

  /** Putting one more item to the front of a package. */
  lemma PackageFront(kinds: Kinds, it: Item, t: Item, kids: seq<Item>)
    ensures PushFront(kinds, Package(kinds, it, kids), t) == Package(kinds, it, [t] + kids)
  {
    hide Restored, CreatedBack, Weight;
    TotalsFront(kinds, t, kids);
  }

  /** No row lies in one that comes after it. */
  lemma {:induction false} KidsLate(kinds: Kinds, rows: seq<Row>, trees: seq<Item>, sid: int, k: nat)
    requires Numbered(kinds, rows, trees) && k <= sid
    ensures KidsFrom(rows, sid, 0) == KidsFrom(rows, sid, k)
  {
    hide RowOf;
    if k > 0 {
      KidsLate(kinds, rows, trees, sid, k - 1);
      if k - 1 < |rows| {
        assert rows[k - 1].pid != sid;
        assert KidsFrom(rows, sid, k - 1) == [] + KidsFrom(rows, sid, k);
      }
    }
  }

  /** Putting the item of row k + 1 into its container. */
  lemma InsideStep(kinds: Kinds, rows: seq<Row>, trees: seq<Item>, sid: int, k: nat)
    requires Numbered(kinds, rows, trees) && k < |rows|
    ensures Inside(kinds, rows, trees, sid, k)
            == (if rows[k].pid == sid then [Rebuilt(kinds, trees[k], true)] else []) + Inside(kinds, rows, trees, sid, k + 1)
  {
    hide Rebuilt, RebuiltAll, RowOf;
    var rest := Named(trees, KidsFrom(rows, sid, k + 1));
    if rows[k].pid == sid {
      RebuiltFront(kinds, trees[k], rest);
      assert Named(trees, KidsFrom(rows, sid, k)) == [trees[k]] + rest;
    } else {
      assert KidsFrom(rows, sid, k) == KidsFrom(rows, sid, k + 1);
    }
  }

  /** A row that no later row is still to be put into is complete. */
  lemma InsideAll(kinds: Kinds, rows: seq<Row>, trees: seq<Item>, sid: int, k: nat)
    requires Numbered(kinds, rows, trees) && AllComplete(rows, trees, |rows|) && 1 <= sid <= |rows| && k <= sid
    ensures Package(kinds, trees[sid - 1], Inside(kinds, rows, trees, sid, k)) == Rebuilt(kinds, trees[sid - 1], true)
  {
    hide Restored, CreatedBack, KidsFrom, RowOf, Named, Amounts, Weights;
    KidsLate(kinds, rows, trees, sid, k);
    assert Complete(rows, trees, sid);
  }

  /** A container's row holds rows only if it is a container. */
  lemma HolderIsContainer(kinds: Kinds, rows: seq<Row>, trees: seq<Item>, k: nat)
    requires Numbered(kinds, rows, trees) && AllComplete(rows, trees, |rows|) && AllStorable(kinds, trees)
    requires k < |rows| && rows[k].pid > 0
    ensures kinds(trees[rows[k].pid - 1].id).isContainer
  {
    hide RowOf, Storable;
    var sid := rows[k].pid;
    assert Complete(rows, trees, sid);
    StorablePlain(kinds, trees[sid - 1]);
    KidsHas(rows, sid, 0, k);
  }

  lemma {:induction false} KidsHas(rows: seq<Row>, sid: int, i: nat, k: nat)
    requires i <= k < |rows| && rows[k].pid == sid
    ensures KidsFrom(rows, sid, i) != []
    decreases k - i
  {
    if i < k {
      KidsHas(rows, sid, i + 1, k);
    }
  }

  /** The map has the numbers of all rows. */
  predicate Numbers(m: ItemMap, n: int) {
    && (forall sid :: sid in m ==> 1 <= sid <= n)
    && (forall sid :: 1 <= sid <= n ==> sid in m)
  }

  /** How far the decay of the item of a row has been started once all rows after row k have been placed. */
  function StageOf(rows: seq<Row>, sid: int, k: nat): Stage {
    if !(1 <= sid <= |rows|) then Loose
    else if rows[sid - 1].pid == 0 then OnTile(false)
    else if sid > k && 1 <= rows[sid - 1].pid <= |rows| && rows[rows[sid - 1].pid - 1].pid == 0 then Put
    else Loose
  }

  /** The item of a row holds those of all rows after row k that lie in it. */
  ghost predicate LoadedAt(kinds: Kinds, rows: seq<Row>, trees: seq<Item>, m: ItemMap, k: nat, sid: int) {
    && 1 <= sid <= |rows| && sid in m
    && m[sid] == (Begun(kinds, Package(kinds, TreeAt(trees, sid), Inside(kinds, rows, trees, sid, k)), StageOf(rows, sid, k)),
                  rows[sid - 1].pid)
  }

  /** All rows after row k have been put into their containers. */
  ghost predicate LoadedFrom(kinds: Kinds, rows: seq<Row>, trees: seq<Item>, m: ItemMap, k: nat) {
    Numbers(m, |rows|) && forall sid :: sid in m ==> LoadedAt(kinds, rows, trees, m, k, sid)
  }

  /** Where the item of row k + 1 goes, and what it is by then. */
  lemma StepFacts(kinds: Kinds, rows: seq<Row>, trees: seq<Item>, m: ItemMap, k: nat)
    requires Numbered(kinds, rows, trees) && AllComplete(rows, trees, |rows|) && AllStorable(kinds, trees)
    requires k < |rows| && LoadedFrom(kinds, rows, trees, m, k + 1)
    ensures k + 1 in m && m[k + 1] == (Begun(kinds, Rebuilt(kinds, trees[k], true), Arrival(rows[k].pid)), rows[k].pid)
    ensures Package(kinds, trees[k], Inside(kinds, rows, trees, k + 1, k + 1)) == Rebuilt(kinds, trees[k], true)
    ensures var pid := rows[k].pid;
      && 0 <= pid <= k && (pid == 0 <==> pid !in m)
      && (pid != 0 ==> kinds(m[pid].0.id).isContainer && m[pid].1 == rows[pid - 1].pid)
  {
    hide RowOf, Inside, Package, Storable, Complete, AllComplete, AllStorable, Rebuilt, Begun;
    var pid := rows[k].pid;
    assert LoadedAt(kinds, rows, trees, m, k + 1, k + 1);
    InsideAll(kinds, rows, trees, k + 1, k + 1);
    if pid != 0 {
      HolderIsContainer(kinds, rows, trees, k);
      assert LoadedAt(kinds, rows, trees, m, k + 1, pid);
      PackageId(kinds, trees[pid - 1], Inside(kinds, rows, trees, pid, k + 1));
    }
  }

  /** The step of the second loop, for the row with the number k + 1. */
  lemma LoadedStep(kinds: Kinds, rows: seq<Row>, trees: seq<Item>, m: ItemMap, k: nat)
    requires Numbered(kinds, rows, trees) && AllComplete(rows, trees, |rows|) && AllStorable(kinds, trees)
    requires k < |rows| && LoadedFrom(kinds, rows, trees, m, k + 1)
    ensures LoadedFrom(kinds, rows, trees, Placed(kinds, m, k + 1), k)
  {
    hide Numbered, AllComplete, AllStorable, Inside, Package, PushFront, Rebuilt, RowOf, Begun;
    NumberedSizes(kinds, rows, trees);
    StepFacts(kinds, rows, trees, m, k);
    BegunLoose(kinds, Rebuilt(kinds, trees[k], true));
    var pid, m' := rows[k].pid, Placed(kinds, m, k + 1);
    forall sid | 1 <= sid <= |rows|
      ensures LoadedAt(kinds, rows, trees, m', k, sid)
    {
      assert LoadedAt(kinds, rows, trees, m, k + 1, sid);
      InsideStep(kinds, rows, trees, sid, k);
      var inside := Inside(kinds, rows, trees, sid, k + 1);
      assert [] + inside == inside;
      if sid == pid {
        PackageFront(kinds, TreeAt(trees, pid), Rebuilt(kinds, trees[k], true), inside);
        BegunFront(kinds, Package(kinds, TreeAt(trees, pid), inside), Rebuilt(kinds, trees[k], true), StageOf(rows, pid, k));
      }
    }
  }

  lemma PackageId(kinds: Kinds, it: Item, kids: seq<Item>)
    ensures Package(kinds, it, kids).id == it.id
  {
  }

  lemma {:induction false} AllPlacedLoads(kinds: Kinds, rows: seq<Row>, trees: seq<Item>, m: ItemMap, k: nat)
    requires Numbered(kinds, rows, trees) && AllComplete(rows, trees, |rows|) && AllStorable(kinds, trees)
    requires k <= |rows| && LoadedFrom(kinds, rows, trees, m, k)
    ensures LoadedFrom(kinds, rows, trees, AllPlaced(kinds, m, k), 0)
    decreases k
  {
    hide Numbered, AllComplete, AllStorable, LoadedFrom, Placed;
    if k > 0 {
      LoadedStep(kinds, rows, trees, m, k - 1);
      AllPlacedLoads(kinds, rows, trees, Placed(kinds, m, k), k - 1);
    }
  }

  lemma AllLoaded(kinds: Kinds, rows: seq<Row>, trees: seq<Item>, m: ItemMap)
    requires Numbered(kinds, rows, trees) && AllComplete(rows, trees, |rows|) && LoadedFrom(kinds, rows, trees, m, 0)
    ensures Numbers(m, |rows|)
    ensures forall sid :: sid in m ==>
      m[sid] == (Begun(kinds, Rebuilt(kinds, TreeAt(trees, sid), true), StageOf(rows, sid, 0)), rows[sid - 1].pid)
  {
    hide Complete, AllComplete, Inside, Package, Rebuilt, RowOf, Begun;
    forall n | n in m
      ensures m[n] == (Begun(kinds, Rebuilt(kinds, TreeAt(trees, n), true), StageOf(rows, n, 0)), rows[n - 1].pid)
    {
      assert LoadedAt(kinds, rows, trees, m, 0, n);
      InsideAll(kinds, rows, trees, n, 0);
    }
  }

  /** The items of rows, in whatever order they come. */
  lemma {:induction false} RowsLoaded(kinds: Kinds, rows: seq<Row>, trees: seq<Item>, result: seq<Row>)
    requires Numbered(kinds, rows, trees) && AllStorable(kinds, trees) && forall r :: r in result ==> r in rows
    ensures LastOf(result) <= |rows| && forall r :: r in result ==> r.sid <= LastOf(result) && r.sid in ItemsOf(kinds, result)
    ensures forall sid :: sid in ItemsOf(kinds, result) ==>
      && 1 <= sid <= |rows|
      && ItemsOf(kinds, result)[sid]
         == (Begun(kinds, Package(kinds, TreeAt(trees, sid), []), Arrival(rows[sid - 1].pid)), rows[sid - 1].pid)
  {
    hide RowItem, RowOf, Package, Storable, Numbered, AllStorable, Begun;
    if result != [] {
      var row := result[|result| - 1];
      RowsLoaded(kinds, rows, trees, result[..|result| - 1]);
      RowKnown(kinds, rows, trees, row);
    }
  }

  /** Before any of them is put into its container. */
  lemma AllRowsLoaded(kinds: Kinds, rows: seq<Row>, trees: seq<Item>, result: seq<Row>)
    requires Numbered(kinds, rows, trees) && AllStorable(kinds, trees) && forall r :: r in result <==> r in rows
    ensures LastOf(result) == |rows| && LoadedFrom(kinds, rows, trees, ItemsOf(kinds, result), |rows|)
  {
    hide RowItem, RowOf, Package, Storable, ItemsOf, LastOf, Numbered, AllStorable, Begun;
    RowsLoaded(kinds, rows, trees, result);
    forall sid | 1 <= sid <= |rows|
      ensures sid in ItemsOf(kinds, result) && sid <= LastOf(result) && Inside(kinds, rows, trees, sid, |rows|) == []
    {
      assert rows[sid - 1] in rows && rows[sid - 1] in result;
      SidOf(kinds, rows, trees, sid - 1);
    }
    assert |rows| > 0 ==> |rows| in ItemsOf(kinds, result);
  }

  lemma SidOf(kinds: Kinds, rows: seq<Row>, trees: seq<Item>, k: int)
    requires Numbered(kinds, rows, trees) && 0 <= k < |rows|
    ensures rows[k].sid == k + 1
  {
  }

  lemma RowKnown(kinds: Kinds, rows: seq<Row>, trees: seq<Item>, row: Row)
    requires Numbered(kinds, rows, trees) && AllStorable(kinds, trees) && row in rows
    ensures 1 <= row.sid <= |rows| && rows[row.sid - 1] == row
    ensures RowItem(kinds, row) == Some(Package(kinds, TreeAt(trees, row.sid), []))
  {
    hide RowItem, Package, Storable;
    var k :| 0 <= k < |rows| && rows[k] == row;
    RowRestored(kinds, k + 1, row.pid, trees[k]);
  }

  /** Whatever order the rows of a tile come in, they can be loaded, and what is loaded for the items of the tile
      are these items, each exactly as it was, with all it holds, if and only if it is sound for a load that starts
      the decay of what lies on the tile or in a container on it; and the totals always count what is inside. An
      item that has decayed at once stays in the result, marked as spent.
   */
  lemma RelationalRoundTrip(kinds: Kinds, tile: seq<Item>, result: seq<Row>)
    requires AllStorable(kinds, tile) && forall r :: r in result <==> r in Stored(kinds, tile)
    ensures forall r :: r in result ==> Loadable(kinds, r)
    ensures var m := Loaded(kinds, result);
      && (forall sid :: sid in m <==> 1 <= sid <= |Stored(kinds, tile)|)
      && |tile| <= |Stored(kinds, tile)|
      && forall sid :: 1 <= sid <= |Stored(kinds, tile)| ==>
           && (m[sid].1 == 0 <==> sid <= |tile|)
           && (sid <= |tile| ==>
                 && (m[sid].0 == tile[sid - 1] <==> Sound(kinds, tile[sid - 1], OnTile(false)))
                 && m[sid].0.amountOfItems == ItemsInside(tile[sid - 1]))
  {
    hide Numbered, AllComplete, Rebuilt, Sound, Storable, ItemsInside, Stored, AllStorable, LoadedFrom, Loadable, AllPlaced, ItemsOf, LastOf, Begun;
    var trees := StoredStores(kinds, tile);
    var rows := Stored(kinds, tile);
    AllRowsLoaded(kinds, rows, trees, result);
    AllPlacedLoads(kinds, rows, trees, ItemsOf(kinds, result), |rows|);
    AllLoaded(kinds, rows, trees, Loaded(kinds, result));
    forall r | r in result
      ensures Loadable(kinds, r)
    {
      RowLoadable(kinds, rows, trees, r);
    }
    forall sid | 1 <= sid <= |tile|
      ensures TreeAt(trees, sid) == tile[sid - 1]
      ensures Begun(kinds, Rebuilt(kinds, tile[sid - 1], true), OnTile(false)) == tile[sid - 1] <==> Sound(kinds, tile[sid - 1], OnTile(false))
      ensures Rebuilt(kinds, tile[sid - 1], true).amountOfItems == ItemsInside(tile[sid - 1])
    {
      assert trees[..|tile|][sid - 1] == tile[sid - 1];
      StorableAt(kinds, tile, sid - 1);
      RebuiltSame(kinds, tile[sid - 1], true, OnTile(false));
      RebuiltAmount(kinds, tile[sid - 1], true);
    }
  }

  lemma StorableAt(kinds: Kinds, trees: seq<Item>, i: int)
    requires AllStorable(kinds, trees) && 0 <= i < |trees|
    ensures Storable(kinds, trees[i])
  {
  }

  lemma RowLoadable(kinds: Kinds, rows: seq<Row>, trees: seq<Item>, row: Row)
    requires Numbered(kinds, rows, trees) && AllStorable(kinds, trees) && row in rows
    ensures Loadable(kinds, row)
  {
    hide Package, Storable, Read, Restored, Write, Chunks, Created, SubType;
    var k :| 0 <= k < |rows| && rows[k] == row;
    var kind, it := kinds(trees[k].id), trees[k];
    StorableAt(kinds, trees, k);
    RowRestored(kinds, k + 1, row.pid, it);
    ReadToEnd(kind, it, row.count);
  }

  lemma ReadToEnd(kind: Kind, it: Item, count: nat)
    requires it.attrs.Typed()
    ensures var w := Write(Chunks(kind, it.attrs));
      Read(kind, Created(kind, count), w, 0) == Ended(Restored(kind, Created(kind, count), it.attrs), |w|)
  {
    hide Restored, Created, Write, Chunks, Read, SubType;
    var w := Write(Chunks(kind, it.attrs));
    AttributesRead(kind, Created(kind, count), it.attrs, [], []);
    assert [] + w + [] == w;
    ReadAtEnd(kind, Restored(kind, Created(kind, count), it.attrs), w);
  }
}
