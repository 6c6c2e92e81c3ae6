/** FileLoader: reading node files through a three-slot block cache, and writing them. */
module NodeFiles {
  import opened NodeFormat
  import opened Wrappers

  const CACHE_BLOCKS: nat := 3
  const NO_VALID_CACHE: nat := 0xFFFFFFFF

  /** x & ~m, bit by bit. */
  function ClearBits(x: nat, m: nat): (r: nat)
    ensures r <= x <= r + m
  {
    if x == 0 then 0
    else 2 * ClearBits(x / 2, m / 2) + (if m % 2 == 0 then x % 2 else 0)
  }

  function Min(a: nat, b: nat): nat { if a < b then a else b }
  function Max(a: nat, b: nat): nat { if a < b then b else a }

  /** The block size openFile chooses for a file: not always a power of two. */
  function CacheSizeFor(fileSize: nat): (c: nat)
    ensures 0 < c <= 32768
  {
    ClearBits(Min(32768, Max(fileSize / 20, 8192)), 0x1FFF)
  }

  /** The offset at which the block that holds pos begins. */
  function BlockBase(pos: nat, cacheSize: nat): (base: nat)
    requires cacheSize > 0
    ensures base <= pos < base + cacheSize
  {
    ClearBits(pos, cacheSize - 1)
  }

  /** What fread returns for a block of the file. */
  function BlockAt(f: seq<byte>, base: nat, cacheSize: nat): (r: seq<byte>)
    requires base <= |f|
    ensures |r| == Min(cacheSize, |f| - base)
    ensures forall k :: 0 <= k < |r| ==> r[k] == f[base + k]
  {
    f[base..Min(base + cacheSize, |f|)]
  }

  /** The bytes of its block that follow pos: what one turn of readBytes can copy. */
  function Available(fileSize: nat, cacheSize: nat, pos: nat): (r: nat)
    requires cacheSize > 0 && pos <= fileSize
    ensures pos + r <= fileSize && (r == 0 ==> pos == fileSize)
  {
    var base := BlockBase(pos, cacheSize);
    base + Min(cacheSize, fileSize - base) - pos
  }

  /** The bytes readBytes still has to read after a number of turns of its loop. */
  function LeftAfter(fileSize: nat, cacheSize: nat, pos: nat, remain: nat, turns: nat): nat
    requires cacheSize > 0 && pos <= fileSize
    decreases turns
  {
    if turns == 0 then remain
    else
      var reading := Min(remain, Available(fileSize, cacheSize, pos));
      LeftAfter(fileSize, cacheSize, pos + reading, remain - reading, turns - 1)
  }

  lemma {:induction false} LeftAfterBounds(fileSize: nat, cacheSize: nat, pos: nat, remain: nat, turns: nat)
    requires cacheSize > 0 && pos <= fileSize
    ensures LeftAfter(fileSize, cacheSize, pos, remain, turns) >= pos + remain - fileSize
    ensures turns >= remain && pos + remain <= fileSize ==> LeftAfter(fileSize, cacheSize, pos, remain, turns) == 0
    decreases turns
  {
    if turns > 0 {
      var reading := Min(remain, Available(fileSize, cacheSize, pos));
      LeftAfterBounds(fileSize, cacheSize, pos + reading, remain - reading, turns - 1);
    }
  }

  /** The loop of readBytes ends if and only if the bytes asked for are in the file. */
  lemma ReadBytesEnds(fileSize: nat, cacheSize: nat, pos: nat, size: nat)
    requires cacheSize > 0 && pos <= fileSize
    ensures (exists turns: nat :: LeftAfter(fileSize, cacheSize, pos, size, turns) == 0) <==> pos + size <= fileSize
  {
    if turns: nat :| LeftAfter(fileSize, cacheSize, pos, size, turns) == 0 {
      LeftAfterBounds(fileSize, cacheSize, pos, size, turns);
    }
    LeftAfterBounds(fileSize, cacheSize, pos, size, size);
  }

  /** t with the given bytes copied over it from offset at on. */
  function Overlay(t: seq<byte>, at: nat, bytes: seq<byte>): (r: seq<byte>)
    requires at + |bytes| <= |t|
    ensures |r| == |t|
  {
    t[..at] + bytes + t[at + |bytes|..]
  }

  lemma OverlayNone(t: seq<byte>)
    ensures Overlay(t, 0, []) == t
  {
  }

  lemma OverlayPrefix(t: seq<byte>, bytes: seq<byte>)
    requires |bytes| <= |t|
    ensures Overlay(t, 0, bytes)[..|bytes|] == bytes
  {
  }

  lemma ChunkJoins(f: seq<byte>, start: nat, pos: nat, reading: nat, was: seq<byte>)
    requires start <= pos && pos + reading <= |f| && pos - start + reading <= |was|
    ensures Overlay(Overlay(was, 0, f[start..pos]), pos - start, f[pos..pos + reading])
            == Overlay(was, 0, f[start..pos + reading])
  {
    assert f[start..pos] + f[pos..pos + reading] == f[start..pos + reading];
  }

  datatype CacheBlock = CacheBlock(loaded: bool, base: nat, data: seq<byte>)

  function Abs(x: int): nat { if x < 0 then -x else x }

  function FirstFree(s: seq<CacheBlock>, i: nat): (k: nat)
    requires i <= |s|
    ensures i <= k <= |s|
    decreases |s| - i
  {
    if i == |s| || !s[i].loaded then i else FirstFree(s, i + 1)
  }

  function FirstFar(s: seq<CacheBlock>, i: nat, base: nat, cacheSize: nat): (k: nat)
    requires i <= |s|
    ensures i <= k <= |s|
    decreases |s| - i
  {
    if i == |s| || Abs(s[i].base - base) > 2 * cacheSize then i else FirstFar(s, i + 1, base, cacheSize)
  }

  /** The slot a block is loaded into: the first free one, or else the first that is
      more than two blocks away, or else the first.
   */
  function Victim(s: seq<CacheBlock>, base: nat, cacheSize: nat): (k: nat)
    requires |s| > 0
    ensures k < |s|
  {
    if FirstFree(s, 0) < |s| then FirstFree(s, 0)
    else if FirstFar(s, 0, base, cacheSize) < |s| then FirstFar(s, 0, base, cacheSize)
    else 0
  }

  class NodeStruct {
    var start: nat
    var propsSize: nat
    var typ: byte
    var next: NodeStruct?
    var child: NodeStruct?

    constructor (start: nat)
      ensures this.start == start && propsSize == 0 && typ == 0 && next == null && child == null
    {
      this.start := start;
      propsSize, typ, next, child := 0, 0, null, null;
    }
  }

  /** The nodes reachable from n, all among those of fp, are the ones of net. */
  ghost predicate Reps(n: NodeStruct?, net: Net, fp: set<NodeStruct>)
    reads fp
    decreases net
  {
    match net
    case NoNode => n == null
    case NetNode(start, propsSize, typ, child, next) =>
      && n != null && n in fp
      && n.start == start && n.propsSize == propsSize && n.typ == typ
      && Reps(n.child, child, fp) && Reps(n.next, next, fp)
  }

  lemma {:induction false} RepsMono(n: NodeStruct?, net: Net, fp: set<NodeStruct>, more: set<NodeStruct>)
    requires Reps(n, net, fp) && fp <= more
    ensures Reps(n, net, more)
    decreases net
  {
    if net.NetNode? {
      RepsMono(n.child, net.child, fp, more);
      RepsMono(n.next, net.next, fp, more);
    }
  }

  /** Nodes linked by next, all but the last of them finished: done says what they hold. */
  ghost predicate Chain(rows: seq<NodeStruct>, done: seq<Net>, fp: set<NodeStruct>)
    requires |rows| == |done| + 1
    reads fp
  {
    forall i :: 0 <= i < |done| ==>
      && done[i].NetNode? && rows[i] in fp
      && rows[i].start == done[i].start && rows[i].propsSize == done[i].propsSize && rows[i].typ == done[i].typ
      && rows[i].next == rows[i + 1] && Reps(rows[i].child, done[i].child, fp)
  }

  /** Links finished nodes in front of a row. */
  function Attach(done: seq<Net>, tail: Net): Net {
    if done == [] then tail
    else
      var last := done[|done| - 1];
      Attach(done[..|done| - 1], if last.NetNode? then last.(next := tail) else tail)
  }

  function Wrap(done: seq<Net>, r: Option<Parsed>): Option<Parsed> {
    if r.None? then None else Some(Parsed(Attach(done, r.value.net), r.value.end))
  }

  lemma WrapNil(r: Option<Parsed>)
    ensures Wrap([], r) == r
  {
  }

  lemma WrapExtend(done: seq<Net>, rec: Net, r: Option<Parsed>)
    requires rec.NetNode?
    ensures Wrap(done + [rec], r) ==
            if r.None? then None else Wrap(done, Some(Parsed(rec.(next := r.value.net), r.value.end)))
  {
    assert (done + [rec])[..|done|] == done;
  }

  lemma ChainNil(rows: seq<NodeStruct>, fp: set<NodeStruct>)
    requires |rows| == 1
    ensures Chain(rows, [], fp)
  {
  }

  lemma RepsNull(n: NodeStruct?, fp: set<NodeStruct>)
    requires n == null
    ensures Reps(n, NoNode, fp)
  {
  }

  lemma ChainExtend(rows: seq<NodeStruct>, done: seq<Net>, fp: set<NodeStruct>,
                    n: NodeStruct, rec: Net, kids: set<NodeStruct>, next: NodeStruct)
    requires |rows| == |done| + 1 && rows[|done|] == n && Chain(rows, done, fp)
    requires rec.NetNode? && n.start == rec.start && n.propsSize == rec.propsSize && n.typ == rec.typ
    requires n.next == next && Reps(n.child, rec.child, kids)
    ensures Chain(rows + [next], done + [rec], fp + kids + {n})
  {
    var all := fp + kids + {n};
    hide Reps;
    forall i | 0 <= i < |done|
      ensures Reps(rows[i].child, done[i].child, all)
    {
      RepsMono(rows[i].child, done[i].child, fp, all);
    }
    RepsMono(n.child, rec.child, kids, all);
  }

  lemma {:induction false} ChainFolds(rows: seq<NodeStruct>, done: seq<Net>, fp: set<NodeStruct>, tail: Net)
    requires |rows| == |done| + 1 && Chain(rows, done, fp) && Reps(rows[|done|], tail, fp)
    ensures Reps(rows[0], Attach(done, tail), fp)
    decreases |done|
  {
    if done != [] {
      var k := |done| - 1;
      ChainFolds(rows[..k + 1], done[..k], fp, done[k].(next := tail));
    }
  }

  /** The state of parseNode between two nodes of its row: the nodes before the current
      one are finished, and what is left to parse decides the rest.
   */
  ghost predicate RowState(f: seq<byte>, start: nat, node: NodeStruct, rows: seq<NodeStruct>, done: seq<Net>,
                           fp: set<NodeStruct>, current: NodeStruct, at: nat)
    reads fp
  {
    && |rows| == |done| + 1 && rows[0] == node && rows[|done|] == current
    && Chain(rows, done, fp) && current !in fp
    && ParseRow(f, start) == Wrap(done, ParseRow(f, at))
  }

  lemma RowBegins(f: seq<byte>, node: NodeStruct)
    ensures RowState(f, node.start, node, [node], [], {}, node, node.start)
  {
    hide ParseRow;
    ChainNil([node], {});
    WrapNil(ParseRow(f, node.start));
  }

  /** The current node holds what rec says. */
  ghost predicate Finished(n: NodeStruct, rec: Net, next: NodeStruct?, kids: set<NodeStruct>)
    reads n, kids
  {
    && rec.NetNode? && n.start == rec.start && n.propsSize == rec.propsSize && n.typ == rec.typ
    && rec.next == NoNode && n.next == next && Reps(n.child, rec.child, kids)
  }

  lemma FinishedNode(n: NodeStruct, rec: Net, kids: set<NodeStruct>)
    requires rec.NetNode? && n.start == rec.start && n.propsSize == rec.propsSize && n.typ == rec.typ
    requires rec.next == NoNode && Reps(n.child, rec.child, kids)
    ensures Finished(n, rec, n.next, kids)
  {
    hide Reps;
  }

  lemma RowContinues(f: seq<byte>, start: nat, node: NodeStruct, rows: seq<NodeStruct>, done: seq<Net>,
                     fp: set<NodeStruct>, n: NodeStruct, rec: Net, kids: set<NodeStruct>, next: NodeStruct)
    requires RowState(f, start, node, rows, done, fp, n, n.start) && Finished(n, rec, next, kids)
    requires next !in fp + kids + {n}
    requires var rest := ParseRow(f, next.start);
      ParseRow(f, n.start) == if rest.None? then None
                              else Some(Parsed(rec.(next := rest.value.net), rest.value.end))
    ensures RowState(f, start, node, rows + [next], done + [rec], fp + kids + {n}, next, next.start)
  {
    hide ParseRow, Chain, Reps, Wrap;
    ChainExtend(rows, done, fp, n, rec, kids, next);
    WrapExtend(done, rec, ParseRow(f, next.start));
    assert Wrap(done, None) == None by { WrapNone(done); }
  }

  lemma WrapNone(done: seq<Net>)
    ensures Wrap(done, None) == None
  {
  }

  lemma RowEnds(f: seq<byte>, start: nat, node: NodeStruct, rows: seq<NodeStruct>, done: seq<Net>,
                fp: set<NodeStruct>, n: NodeStruct, rec: Net, kids: set<NodeStruct>, end: nat)
    requires RowState(f, start, node, rows, done, fp, n, n.start) && Finished(n, rec, null, kids)
    requires ParseRow(f, n.start) == Some(Parsed(rec, end))
    ensures ParseRow(f, start) == Some(Parsed(Attach(done, rec), end))
    ensures Reps(node, Attach(done, rec), fp + kids + {n})
  {
    hide ParseRow, Chain, Reps, Attach;
    var all := fp + kids + {n};
    ChainMono(rows, done, fp, all);
    RepsMono(n.child, rec.child, kids, all);
    RepsLast(n, rec, all);
    ChainFolds(rows, done, all, rec);
  }

  lemma RepsLast(n: NodeStruct, rec: Net, all: set<NodeStruct>)
    requires rec.NetNode? && n in all && n.start == rec.start && n.propsSize == rec.propsSize && n.typ == rec.typ
    requires rec.next == NoNode && n.next == null && Reps(n.child, rec.child, all)
    ensures Reps(n, rec, all)
  {
  }

  lemma RowFails(f: seq<byte>, start: nat, node: NodeStruct, rows: seq<NodeStruct>, done: seq<Net>,
                 fp: set<NodeStruct>, n: NodeStruct)
    requires RowState(f, start, node, rows, done, fp, n, n.start) && ParseRow(f, n.start).None?
    ensures ParseRow(f, start).None?
  {
    hide ParseRow, Chain;
  }

  lemma ChainMono(rows: seq<NodeStruct>, done: seq<Net>, fp: set<NodeStruct>, all: set<NodeStruct>)
    requires |rows| == |done| + 1 && Chain(rows, done, fp) && fp <= all
    ensures Chain(rows, done, all)
  {
    hide Reps;
    forall i | 0 <= i < |done|
      ensures Reps(rows[i].child, done[i].child, all)
    {
      RepsMono(rows[i].child, done[i].child, fp, all);
    }
  }

  lemma ScanStep(f: seq<byte>, p: nat)
    ensures p >= |f| ==> Scan(f, p) == None
    ensures p < |f| && IsDelimiter(f[p]) ==> Scan(f, p) == Some(p)
    ensures p < |f| && f[p] == ESCAPE_CHAR ==> Scan(f, p) == if p + 1 < |f| then Scan(f, p + 2) else None
    ensures p < |f| && !IsSpecial(f[p]) ==> Scan(f, p) == Scan(f, p + 1)
  {
  }

  lemma ParseRowFails(f: seq<byte>, start: nat)
    requires start + 1 >= |f| || Scan(f, start + 2).None?
    ensures ParseRow(f, start).None?
  {
    hide Scan;
  }

  lemma ParseRowFailsInside(f: seq<byte>, start: nat, q: nat)
    requires Scan(f, start + 2) == Some(q) && f[q] == NODE_START
    requires ParseRow(f, q).None? || ParseRow(f, q).value.end >= |f|
    ensures ParseRow(f, start).None?
  {
    hide Scan;
  }

  lemma ParseAfterEndCases(f: seq<byte>, start: nat, q: nat, kid: Parsed)
    requires start + 2 <= q <= kid.end < |f|
    ensures var n := kid.end + 1;
      var rec := NetNode(start, q - start - 2, f[start + 1], kid.net, NoNode);
      ParseAfterEnd(f, start, q, kid) ==
        if n >= |f| || f[n] == NODE_END then Some(Parsed(rec, n))
        else if f[n] == NODE_START then
          var rest := ParseRow(f, n);
          if rest.None? then None else Some(Parsed(rec.(next := rest.value.net), rest.value.end))
        else None
  {
  }

  /** What writeData emits for some bytes. */
  function Written(data: seq<byte>, unescape: bool): seq<byte> {
    if unescape then Escape(data) else data
  }

  lemma WrittenStep(data: seq<byte>, i: nat, unescape: bool)
    requires i < |data|
    ensures Written(data[i..], unescape)
            == (if unescape then EscapeByte(data[i]) else [data[i]]) + Written(data[i + 1..], unescape)
  {
    assert data[i..] == [data[i]] + data[i + 1..];
  }

  lemma WrittenEnds(data: seq<byte>, unescape: bool)
    ensures Written([], unescape) == []
    ensures Written(data, unescape) == if unescape then Escape(data) else data
  {
  }

  const WILDCARD: seq<byte> := [0, 0, 0, 0]

  /** The files that openFile loads. */
  predicate Accepts(f: seq<byte>, acceptIdentifier: seq<byte>) {
    && |f| > 4 && (f[..4] == acceptIdentifier || f[..4] == WILDCARD)
    && f[4] == NODE_START && ParseRow(f, 4).Some?
  }

  /** The version bytes and a printed row: what a writer leaves behind. */
  function WrittenFile(row: Row): seq<byte> {
    WILDCARD + Print(row)
  }

  /** A written file opens and decodes to the row that was written exactly when the row is readable. */
  lemma WrittenFileLoads(row: Row, acceptIdentifier: seq<byte>)
    requires row.Node?
    ensures Readable(row) <==>
            && Accepts(WrittenFile(row), acceptIdentifier)
            && var net := ParseRow(WrittenFile(row), 4).value.net;
               Tiles(WrittenFile(row), net, 4) && Decode(WrittenFile(row), net, 4) == row
  {
    hide ParseRow, Tiles, Decode, Readable, NetOf;
    RoundTrip(WILDCARD, row, []);
    assert WILDCARD + Print(row) + [] == WrittenFile(row);
  }

  /** Every node of a row. */
  function Nodes(net: Net): set<Net> {
    match net
    case NoNode => {}
    case NetNode(_, _, _, child, next) => {net} + Nodes(child) + Nodes(next)
  }

  /** Whatever file was parsed, getProps can be asked for any of its nodes. */
  lemma {:induction false} NodePropsReadable(f: seq<byte>, net: Net, lo: nat, n: Net)
    requires Tiles(f, net, lo) && n in Nodes(net)
    ensures n.NetNode? && n.start + 2 + n.propsSize <= |f|
    ensures Escaped(f[n.start + 2..n.start + 2 + n.propsSize])
    decreases net
  {
    hide Escaped;
    var q := lo + 2 + net.propsSize;
    if n in Nodes(net.child) {
      NodePropsReadable(f, net.child, q, n);
    } else if n in Nodes(net.next) {
      NodePropsReadable(f, net.next, q + Size(net.child) + 1, n);
    }
  }

  /** The children of a node are parsed. */
  ghost predicate HasChild(f: seq<byte>, node: NodeStruct, q: nat, kid: Parsed, fp: set<NodeStruct>)
    reads node, fp
  {
    && Scan(f, node.start + 2) == Some(q) && node.propsSize == q - node.start - 2
    && f[q] == NODE_START && ParseRow(f, q) == Some(kid)
    && Reps(node.child, kid.net, fp)
  }

  lemma ChildrenEnd(f: seq<byte>, node: NodeStruct, q: nat, kid: Parsed, fp: set<NodeStruct>)
    requires HasChild(f, node, q, kid, fp) && kid.end < |f|
    ensures node.start + 2 <= q <= kid.end && node.propsSize == q - node.start - 2
    ensures ParseRow(f, node.start) == ParseAfterEnd(f, node.start, q, kid)
    ensures Reps(node.child, kid.net, fp)
  {
    hide Scan, ParseRow, ParseAfterEnd, Reps;
    ParseRowStep(f, node.start, q, kid);
  }

  lemma ChildrenUnended(f: seq<byte>, node: NodeStruct, q: nat, kid: Parsed, fp: set<NodeStruct>)
    requires HasChild(f, node, q, kid, fp) && kid.end >= |f|
    ensures ParseRow(f, node.start).None?
  {
    hide Scan, ParseRow, Reps;
    ParseRowFailsInside(f, node.start, q);
  }

  /** A size doubled until it is above what is needed. */
  function Grown(size: nat, needed: nat): nat
    requires size > 0
    decreases needed - size
  {
    if needed < size then size else Grown(size * 2, needed)
  }

  class FileLoader {
    var file: seq<byte>
    var filePos: nat
    var useCache: bool
    var cacheSize: nat
    const cachedData: array<CacheBlock>
    var cacheIndex: nat
    var cacheOffset: nat
    var buffer: array<byte>
    var root: NodeStruct?

    constructor ()
      ensures file == [] && filePos == 0 && !useCache && root == null
      ensures fresh(cachedData) && fresh(buffer) && buffer.Length == 1024 && CacheOk() && Ready()
      ensures cacheIndex == cacheOffset == NO_VALID_CACHE && forall i :: 0 <= i < CACHE_BLOCKS ==> !cachedData[i].loaded
    {
      file, filePos, useCache, cacheSize := [], 0, false, 0;
      cachedData := new CacheBlock[CACHE_BLOCKS](_ => CacheBlock(false, 0, []));
      cacheIndex, cacheOffset := NO_VALID_CACHE, NO_VALID_CACHE;
      buffer := new byte[1024];
      root := null;
    }

    /** Every loaded slot holds the bytes of the file that its base says. */
    ghost predicate CacheOk()
      reads this, cachedData
    {
      && cachedData.Length == CACHE_BLOCKS
      && (useCache ==>
            && cacheSize > 0
            && forall i :: 0 <= i < CACHE_BLOCKS && cachedData[i].loaded ==>
                 cachedData[i].base <= |file|
                 && cachedData[i].data == BlockAt(file, cachedData[i].base, cacheSize))
    }

    /** The reader stands somewhere in the file. */
    ghost predicate Ready()
      reads this, cachedData
    {
      && CacheOk()
      && (if useCache then
            && cacheIndex < CACHE_BLOCKS && cachedData[cacheIndex].loaded
            && cacheOffset <= |cachedData[cacheIndex].data|
          else filePos <= |file|)
    }

    /** The offset a plain file would be at. */
    ghost function Pos(): (p: nat)
      requires Ready()
      reads this, cachedData
      ensures p <= |file|
    {
      if useCache then cachedData[cacheIndex].base + cacheOffset else filePos
    }

    // ---------- Opening and writing ----------

    /** Reading a file: the four identifier bytes, the choice of the cache, and the tree. */
    method OpenFile(content: seq<byte>, acceptIdentifier: seq<byte>, caching: bool)
      returns (ok: bool, ghost result: Parsed, ghost fp: set<NodeStruct>)
      requires |acceptIdentifier| == 4
      requires CacheOk() && !useCache && forall i :: 0 <= i < CACHE_BLOCKS ==> !cachedData[i].loaded
      modifies this, cachedData
      ensures file == content && CacheOk() && buffer == old(buffer)
      ensures ok <==> Accepts(content, acceptIdentifier)
      ensures ok ==> useCache == caching && (caching ==> cacheSize == CacheSizeFor(|content|))
      ensures ok ==> ParseRow(content, 4) == Some(result) && Reps(root, result.net, fp) && fresh(fp)
    {
      hide ParseRow, Reps, Pos;
      result, fp := Parsed(NoNode, 0), {};
      file, filePos := content, 0;
      if |content| < 4 {
        return false, result, fp;
      }
      var identifier := content[..4];
      filePos := 4;
      if identifier != acceptIdentifier && identifier != WILDCARD {
        return false, result, fp;
      }
      if caching {
        useCache := true;
        cacheSize := CacheSizeFor(|content|);
      }
      ok, result, fp := ParseRoot();
    }

    /** The part of openFile that builds the tree, cached or not. */
    method ParseRoot() returns (ok: bool, ghost result: Parsed, ghost fp: set<NodeStruct>)
      requires CacheOk() && |file| >= 4
      modifies `root, `cacheIndex, `cacheOffset, `filePos, cachedData
      ensures CacheOk()
      ensures ok <==> |file| > 4 && file[4] == NODE_START && ParseRow(file, 4).Some?
      ensures ok ==> ParseRow(file, 4) == Some(result) && Reps(root, result.net, fp) && fresh(fp)
    {
      hide ParseRow, Reps, Pos;
      result, fp := Parsed(NoNode, 0), {};
      SafeSeek(4);
      var node := new NodeStruct(4);
      root := node;
      SafeSeek(4);
      var got, byte := ReadByte();
      if got && byte == NODE_START {
        ok, result, fp := ParseNode(node);
      } else {
        ok := false;
      }
    }

    method OpenForWriting()
      modifies this
      ensures file == WILDCARD && unchanged(`useCache) && unchanged(`buffer) && unchanged(`root)
    {
      file := [];
      WriteData([0, 0, 0, 0], false);
    }

    method WriteData(data: seq<byte>, unescape: bool)
      modifies `file
      ensures file == old(file) + if unescape then Escape(data) else data
    {
      hide Escape, Written;
      ghost var was := file;
      var i := 0;
      assert data[0..] == data;
      while i < |data|
        invariant i <= |data|
        invariant was + Written(data, unescape) == file + Written(data[i..], unescape)
      {
        var c := data[i];
        WrittenStep(data, i, unescape);
        if unescape && IsSpecial(c) {
          file := file + [ESCAPE_CHAR];
        }
        file := file + [c];
        i := i + 1;
      }
      assert data[i..] == [];
      WrittenEnds(data, unescape);
    }

    method StartNode(typ: byte)
      modifies `file
      ensures file == old(file) + StartBytes(typ)
    {
      WriteData([NODE_START], false);
      WriteData([typ], true);
      assert Escape([typ]) == EscapeByte(typ) + Escape([]);
    }

    /** The size is an unsigned short. */
    method SetProps(data: seq<byte>)
      requires |data| <= 65535
      modifies `file
      ensures file == old(file) + Escape(data)
    {
      WriteData(data, true);
    }

    method EndNode()
      modifies `file
      ensures file == old(file) + [NODE_END]
    {
      WriteData([NODE_END], false);
    }

    // ---------- The block cache ----------

    method LoadCacheBlock(pos: nat) returns (slot: nat)
      requires CacheOk() && useCache && pos <= |file|
      modifies cachedData
      ensures CacheOk() && slot == Victim(old(cachedData[..]), BlockBase(pos, cacheSize), cacheSize)
      ensures slot < CACHE_BLOCKS && cachedData[slot].loaded && cachedData[slot].base == BlockBase(pos, cacheSize)
      ensures forall i :: 0 <= i < CACHE_BLOCKS && i != slot ==> cachedData[i] == old(cachedData[i])
    {
      ghost var s := cachedData[..];
      var basePos := BlockBase(pos, cacheSize);
      var i := 0;
      while i < CACHE_BLOCKS && cachedData[i].loaded
        invariant i <= CACHE_BLOCKS
        invariant FirstFree(s, 0) == FirstFree(s, i)
      {
        i := i + 1;
      }
      slot := i;
      if slot == CACHE_BLOCKS {
        i := 0;
        while i < CACHE_BLOCKS && Abs(cachedData[i].base - basePos) <= 2 * cacheSize
          invariant i <= CACHE_BLOCKS
          invariant FirstFar(s, 0, basePos, cacheSize) == FirstFar(s, i, basePos, cacheSize)
        {
          i := i + 1;
        }
        slot := if i < CACHE_BLOCKS then i else 0;
      }
      cachedData[slot] := CacheBlock(true, basePos, BlockAt(file, basePos, cacheSize));
    }

    method GetCacheBlock(pos: nat) returns (slot: nat)
      requires CacheOk() && useCache && pos <= |file|
      modifies cachedData
      ensures CacheOk()
      ensures slot < CACHE_BLOCKS && cachedData[slot].loaded && cachedData[slot].base == BlockBase(pos, cacheSize)
      ensures (exists i :: 0 <= i < CACHE_BLOCKS && old(cachedData[i]).loaded && old(cachedData[i]).base == BlockBase(pos, cacheSize))
              ==> cachedData[..] == old(cachedData[..])
    {
      var basePos := BlockBase(pos, cacheSize);
      slot := 0;
      while slot < CACHE_BLOCKS && !(cachedData[slot].loaded && cachedData[slot].base == basePos)
        invariant slot <= CACHE_BLOCKS
        invariant forall i :: 0 <= i < slot ==> !(cachedData[i].loaded && cachedData[i].base == basePos)
      {
        slot := slot + 1;
      }
      if slot == CACHE_BLOCKS {
        slot := LoadCacheBlock(pos);
      }
    }

    // ---------- Reading: a plain file behind the cache ----------

    method SafeSeek(pos: nat)
      requires CacheOk() && pos <= |file|
      modifies `cacheIndex, `cacheOffset, `filePos, cachedData
      ensures CacheOk() && Ready() && Pos() == pos
    {
      if useCache {
        var slot := GetCacheBlock(pos);
        cacheIndex := slot;
        cacheOffset := pos - cachedData[slot].base;
      } else {
        filePos := pos;
      }
    }

    /** The offset of the byte read last. */
    method SafeTell() returns (pos: int)
      requires Ready()
      ensures CacheOk() && pos == Pos() - 1
    {
      if useCache {
        pos := cachedData[cacheIndex].base + cacheOffset - 1;
      } else {
        pos := filePos - 1;
      }
    }

    method ReadByte() returns (ok: bool, value: byte)
      requires Ready()
      modifies `cacheIndex, `cacheOffset, `filePos, cachedData
      ensures CacheOk() && Ready() && (ok <==> old(Pos()) < |file|)
      ensures ok ==> value == file[old(Pos())] && Pos() == old(Pos()) + 1
      ensures !ok ==> Pos() == old(Pos())
    {
      hide BlockAt, BlockBase;
      value := 0;
      if useCache {
        if cacheOffset >= |cachedData[cacheIndex].data| {
          var pos := cacheOffset + cachedData[cacheIndex].base;
          var slot := GetCacheBlock(pos);
          cacheIndex := slot;
          cacheOffset := pos - cachedData[slot].base;
          if cacheOffset >= |cachedData[cacheIndex].data| {
            return false, 0;
          }
        }
        value := cachedData[cacheIndex].data[cacheOffset];
        cacheOffset := cacheOffset + 1;
        ok := true;
      } else if filePos >= |file| {
        ok := false;
      } else {
        value := file[filePos];
        filePos := filePos + 1;
        ok := true;
      }
    }

    /** One turn of the loop of readBytes: as much of the block of pos as is wanted. */
    method ReadChunk(target: array<byte>, bufferPos: nat, pos: nat, remain: nat) returns (reading: nat)
      requires CacheOk() && useCache && pos + remain <= |file| && bufferPos + remain <= target.Length
      modifies `cacheIndex, `cacheOffset, cachedData, target
      ensures CacheOk() && Ready() && Pos() == pos + reading
      ensures reading <= remain && (remain > 0 ==> reading > 0)
      ensures target[..] == Overlay(old(target[..]), bufferPos, file[pos..pos + reading])
    {
      hide BlockAt, BlockBase;
      var slot := GetCacheBlock(pos);
      cacheIndex := slot;
      cacheOffset := pos - cachedData[slot].base;
      var block := cachedData[slot].data;
      reading := Min(remain, |block| - cacheOffset);
      forall k | 0 <= k < reading {
        target[bufferPos + k] := block[cacheOffset + k];
      }
      cacheOffset := cacheOffset + reading;
    }

    method ReadBytesCached(target: array<byte>, size: nat, start: nat)
      requires CacheOk() && useCache && start + size <= |file| && size <= target.Length
      modifies `cacheIndex, `cacheOffset, cachedData, target
      ensures Ready() && Pos() == start + size
      ensures target[..] == Overlay(old(target[..]), 0, file[start..start + size])
    {
      hide Overlay, BlockAt, BlockBase, CacheOk, Ready, Pos;
      OverlayNone(target[..]);
      ghost var was := target[..];
      var remain: nat, bufferPos: nat, pos: nat := size, 0, start;
      assert file[start..start] == [];
      while true
        invariant CacheOk() && useCache
        invariant bufferPos + remain == size && pos == start + bufferPos
        invariant target[..] == Overlay(was, 0, file[start..pos])
        decreases remain
      {
        var reading := ReadChunk(target, bufferPos, pos, remain);
        ChunkJoins(file, start, pos, reading, was);
        remain := remain - reading;
        bufferPos := bufferPos + reading;
        pos := pos + reading;
        if remain == 0 { break; }
      }
    }

    method ReadBytes(target: array<byte>, size: nat, start: nat)
      requires CacheOk() && start + size <= |file| && size <= target.Length
      modifies `cacheIndex, `cacheOffset, `filePos, cachedData, target
      ensures Ready() && Pos() == start + size
      ensures target[..] == Overlay(old(target[..]), 0, file[start..start + size])
    {
      if useCache {
        ReadBytesCached(target, size, start);
      } else {
        forall k | 0 <= k < size {
          target[k] := file[start + k];
        }
        filePos := start + size;
      }
    }

    // ---------- parseNode ----------

    /** One node of a row: its type, its properties, its children and its NODE_END. */
    method ParseBody(node: NodeStruct) returns (ok: bool, ghost q: nat, ghost kid: Parsed, ghost fp: set<NodeStruct>)
      requires Ready() && Pos() == node.start + 1 && node.child == null
      modifies `cacheIndex, `cacheOffset, `filePos, cachedData, node
      ensures Ready() && node.start == old(node.start) && node.next == old(node.next)
      ensures !ok ==> ParseRow(file, node.start).None?
      ensures ok ==>
        && node.start + 2 <= q <= kid.end < |file| && Pos() == kid.end + 1
        && ParseRow(file, node.start) == ParseAfterEnd(file, node.start, q, kid)
        && node.propsSize == q - node.start - 2 && node.typ == file[node.start + 1]
        && Reps(node.child, kid.net, fp) && fresh(fp)
      decreases |file| - node.start, 1
    {
      hide HasChild, Reps, Scan, ParseAfterEnd, ParseRow, Ready, CacheOk, Pos;
      q, kid, fp := 0, Parsed(NoNode, 0), {};
      var got, byte := ReadByte();
      if !got {
        ParseRowFails(file, node.start);
        return false, q, kid, fp;
      }
      node.typ := byte;
      var setPropsSize := false;
      while true
        invariant Ready() && node.start == old(node.start) && node.next == old(node.next)
        invariant node.start + 2 <= Pos() && node.typ == file[node.start + 1]
        invariant fresh(fp)
        invariant !setPropsSize ==> node.child == null && Scan(file, node.start + 2) == Scan(file, Pos())
        invariant setPropsSize ==> HasChild(file, node, q, kid, fp) && Pos() == kid.end
        invariant setPropsSize && Pos() < |file| ==> file[Pos()] == NODE_END
        decreases |file| - Pos()
      {
        ghost var p := Pos();
        got, byte := ReadByte();
        ScanStep(file, p);
        if !got {
          if setPropsSize { ChildrenUnended(file, node, q, kid, fp); } else { ParseRowFails(file, node.start); }
          return false, q, kid, fp;
        }
        if byte == NODE_START {
          setPropsSize, q := true, p;
          ok, kid, fp := ParseChild(node);
          if !ok {
            ParseRowFailsInside(file, node.start, q);
            return false, q, kid, fp;
          }
        } else if byte == NODE_END {
          if setPropsSize {
            ChildrenEnd(file, node, q, kid, fp);
          } else {
            q := EndChildless(node);
            kid := Parsed(NoNode, q);
            RepsNull(node.child, fp);
          }
          return true, q, kid, fp;
        } else if byte == ESCAPE_CHAR {
          got, byte := ReadByte();
          if !got {
            ParseRowFails(file, node.start);
            return false, q, kid, fp;
          }
        }
      }
    }

    /** A node ends that has no children: its properties end with it. */
    method EndChildless(node: NodeStruct) returns (ghost q: nat)
      requires Ready() && node.start + 2 < Pos() && file[Pos() - 1] == NODE_END
      requires Scan(file, node.start + 2) == Some(Pos() - 1)
      modifies node`propsSize
      ensures q == Pos() - 1 && node.propsSize == q - node.start - 2
      ensures ParseRow(file, node.start) == ParseAfterEnd(file, node.start, q, Parsed(NoNode, q))
    {
      hide Scan, ParseAfterEnd, ParseRow, Ready, CacheOk, Pos;
      var pos := SafeTell();
      node.propsSize := pos - node.start - 2;
      q := pos;
      ParseRowStep(file, node.start, q, Parsed(NoNode, q));
    }

    /** The first child of a node. The reader has just passed its NODE_START byte. */
    method ParseChild(node: NodeStruct) returns (ok: bool, ghost kid: Parsed, ghost fp: set<NodeStruct>)
      requires Ready() && node.start + 2 < Pos()
      requires Scan(file, node.start + 2) == Some(Pos() - 1) && file[Pos() - 1] == NODE_START
      modifies `cacheIndex, `cacheOffset, `filePos, cachedData, node
      ensures Ready() && node.start == old(node.start) && node.next == old(node.next) && node.typ == old(node.typ)
      ensures !ok ==> ParseRow(file, old(Pos()) - 1).None?
      ensures ok ==> Pos() == kid.end && HasChild(file, node, old(Pos()) - 1, kid, fp) && fresh(fp)
      ensures ok ==> old(Pos()) <= Pos() && (Pos() < |file| ==> file[Pos()] == NODE_END)
      decreases |file| - node.start, 0
    {
      hide Scan, Reps, ParseRow, Ready, CacheOk, Pos;
      var pos := SafeTell();
      var childNode := new NodeStruct(pos);
      node.propsSize := pos - node.start - 2;
      node.child := childNode;
      ok, kid, fp := ParseNode(childNode);
    }

    /** Links a new node behind the current one, which is finished. */
    method StartNext(node: NodeStruct, ghost rec: Net, ghost kids: set<NodeStruct>) returns (nextNode: NodeStruct)
      requires Ready() && Pos() > 0 && node !in kids && Finished(node, rec, null, kids)
      modifies node`next
      ensures fresh(nextNode) && nextNode.start == Pos() - 1 && nextNode.child == null && nextNode.next == null
      ensures Finished(node, rec, nextNode, kids)
    {
      hide Reps, Ready, CacheOk, Pos;
      var pos := SafeTell();
      nextNode := new NodeStruct(pos);
      node.next := nextNode;
    }

    /** A row of siblings. The reader has just passed the NODE_START byte of the first. */
    method ParseNode(node: NodeStruct) returns (ok: bool, ghost result: Parsed, ghost fp: set<NodeStruct>)
      requires Ready() && Pos() == node.start + 1 && node.child == null && node.next == null
      modifies `cacheIndex, `cacheOffset, `filePos, cachedData, node
      ensures Ready()
      ensures ParseRow(file, old(node.start)) == if ok then Some(result) else None
      ensures ok ==> Pos() == result.end && Reps(node, result.net, fp) && fresh(fp - {node})
      decreases |file| - node.start, 2
    {
      hide Reps, Scan, ParseRow, ParseAfterEnd, Attach, Ready, CacheOk, Pos, RowState, Finished;
      ghost var start := node.start;
      var currentNode := node;
      ghost var rows, done := [node], [];
      fp := {};
      result := Parsed(NoNode, 0);
      RowBegins(file, node);
      while true
        invariant Ready() && Pos() == currentNode.start + 1
        invariant currentNode.child == null && currentNode.next == null
        invariant currentNode == node || fresh(currentNode)
        invariant RowState(file, start, node, rows, done, fp, currentNode, currentNode.start)
        invariant fresh(fp - {node}) && currentNode !in fp
        invariant currentNode.start >= start
        decreases |file| - currentNode.start
      {
        ghost var q, kid, kids;
        ok, q, kid, kids := ParseBody(currentNode);
        if !ok {
          RowFails(file, start, node, rows, done, fp, currentNode);
          return false, result, fp;
        }
        ghost var rec := NetNode(currentNode.start, currentNode.propsSize, currentNode.typ, kid.net, NoNode);
        FinishedNode(currentNode, rec, kids);
        var got, byte := ReadByte();
        ParseAfterEndCases(file, currentNode.start, q, kid);
        if !got {
          RowEnds(file, start, node, rows, done, fp, currentNode, rec, kids, kid.end + 1);
          return true, Parsed(Attach(done, rec), kid.end + 1), fp + kids + {currentNode};
        }
        if byte == NODE_START {
          var nextNode := StartNext(currentNode, rec, kids);
          RowContinues(file, start, node, rows, done, fp, currentNode, rec, kids, nextNode);
          rows, done, fp := rows + [nextNode], done + [rec], fp + kids + {currentNode};
          currentNode := nextNode;
        } else if byte == NODE_END {
          var pos := SafeTell();
          SafeSeek(pos);
          RowEnds(file, start, node, rows, done, fp, currentNode, rec, kids, kid.end + 1);
          return true, Parsed(Attach(done, rec), kid.end + 1), fp + kids + {currentNode};
        } else {
          RowFails(file, start, node, rows, done, fp, currentNode);
          return false, result, fp;
        }
      }
    }

    // ---------- getProps ----------

    method GetProps(node: NodeStruct) returns (size: nat)
      requires CacheOk() && buffer.Length > 0
      requires node.start + 2 + node.propsSize <= |file|
      requires Escaped(file[node.start + 2..node.start + 2 + node.propsSize])
      modifies this, cachedData, buffer
      ensures Ready() && file == old(file) && useCache == old(useCache) && cacheSize == old(cacheSize) && root == old(root)
      ensures buffer.Length == Grown(old(buffer.Length), node.propsSize)
      ensures if buffer.Length == old(buffer.Length) then buffer == old(buffer) else fresh(buffer)
      ensures size <= buffer.Length
      ensures buffer[..size] == Unescape(file[node.start + 2..node.start + 2 + node.propsSize])
    {
      hide Escaped, Unescape, Overlay, Pos;
      var bufferSize := buffer.Length;
      while node.propsSize >= bufferSize
        invariant bufferSize >= buffer.Length > 0 && Grown(buffer.Length, node.propsSize) == Grown(bufferSize, node.propsSize)
        decreases node.propsSize - bufferSize
      {
        bufferSize := bufferSize * 2;
      }
      if bufferSize != buffer.Length {
        buffer := new byte[bufferSize];
      }
      ghost var was := buffer[..];
      ReadBytes(buffer, node.propsSize, node.start + 2);
      OverlayPrefix(was, file[node.start + 2..node.start + 2 + node.propsSize]);
      size := UnescapeInPlace(buffer, node.propsSize);
    }
  }

  lemma UnescapeSkip(raw: seq<byte>, i: nat)
    requires i < |raw| && Escaped(raw[i..])
    ensures raw[i] == ESCAPE_CHAR ==>
              i + 1 < |raw| && Escaped(raw[i + 2..]) && Unescape(raw[i..]) == [raw[i + 1]] + Unescape(raw[i + 2..])
    ensures raw[i] != ESCAPE_CHAR ==>
              Escaped(raw[i + 1..]) && Unescape(raw[i..]) == [raw[i]] + Unescape(raw[i + 1..])
  {
    var s := raw[i..];
    assert s[1..] == raw[i + 1..];
    if raw[i] == ESCAPE_CHAR {
      assert s[2..] == raw[i + 2..];
    }
  }

  /** Moving the next plain byte behind what is unescaped already. */
  lemma UnescapeMoves(before: seq<byte>, raw: seq<byte>, i: nat, after: seq<byte>)
    requires i < |raw| && Escaped(raw[i..])
    requires var k := if raw[i] == ESCAPE_CHAR then i + 1 else i;
      k < |raw| && after == before + [raw[k]]
    ensures var k := if raw[i] == ESCAPE_CHAR then i + 1 else i;
      Escaped(raw[k + 1..]) && before + Unescape(raw[i..]) == after + Unescape(raw[k + 1..])
  {
    hide Escaped, Unescape;
    UnescapeSkip(raw, i);
  }

  /** The displacement loop of getProps: unescapes the first n bytes of the buffer over themselves. */
  method UnescapeInPlace(buffer: array<byte>, n: nat) returns (j: nat)
    requires n <= buffer.Length && Escaped(buffer[..n])
    modifies buffer
    ensures j <= n && buffer[..j] == Unescape(old(buffer[..n]))
  {
    hide Escaped, Unescape;
    ghost var raw := buffer[..n];
    var escaped := false;
    var i := 0;
    j := 0;
    assert raw[0..] == raw;
    while i < n
      invariant j <= i <= n && (!escaped ==> i == j)
      invariant Escaped(raw[i..])
      invariant forall k :: i <= k < n ==> buffer[k] == raw[k]
      invariant buffer[..j] + Unescape(raw[i..]) == Unescape(raw)
    {
      ghost var before, at := buffer[..j], i;
      UnescapeSkip(raw, i);
      if buffer[i] == ESCAPE_CHAR {
        i := i + 1;
        buffer[j] := buffer[i];
        escaped := true;
      } else if escaped {
        buffer[j] := buffer[i];
      }
      assert buffer[..j + 1] == before + [raw[i]];
      UnescapeMoves(before, raw, at, buffer[..j + 1]);
      i := i + 1;
      j := j + 1;
    }
    assert raw[n..] == [];
    assert Unescape([]) == [] by { UnescapeNil(); }
    assert buffer[..j] + [] == buffer[..j];
  }

  lemma UnescapeNil()
    ensures Escaped([]) && Unescape([]) == []
  {
  }
}
