/** The node-file format of FileLoader: trees of typed nodes with byte-stuffed
    properties, written as START type props children END and linked by
    first child and next sibling.
 */
module NodeFormat {
  import opened Wrappers

  const NODE_START: byte := 0xFE
  const NODE_END: byte := 0xFF
  const ESCAPE_CHAR: byte := 0xFD

  predicate IsSpecial(b: byte) {
    b == NODE_START || b == NODE_END || b == ESCAPE_CHAR
  }

  predicate IsDelimiter(b: byte) {
    b == NODE_START || b == NODE_END
  }

  // ---------- Byte stuffing ----------

  function EscapeByte(b: byte): (r: seq<byte>)
    ensures |r| >= 1
  {
    if IsSpecial(b) then [ESCAPE_CHAR, b] else [b]
  }

  function Escape(s: seq<byte>): seq<byte> {
    if s == [] then [] else EscapeByte(s[0]) + Escape(s[1..])
  }

  /** A region in which every special byte is an escape character followed by its partner. */
  predicate Escaped(s: seq<byte>) {
    if s == [] then true
    else if s[0] == ESCAPE_CHAR then |s| >= 2 && Escaped(s[2..])
    else !IsDelimiter(s[0]) && Escaped(s[1..])
  }

  function Unescape(s: seq<byte>): (r: seq<byte>)
    requires Escaped(s)
    ensures |r| <= |s|
  {
    if s == [] then []
    else if s[0] == ESCAPE_CHAR then [s[1]] + Unescape(s[2..])
    else [s[0]] + Unescape(s[1..])
  }

  lemma {:induction false} UnescapeEscape(s: seq<byte>)
    ensures Escaped(Escape(s)) && Unescape(Escape(s)) == s
  {
    if s == [] {
    } else {
      UnescapeEscape(s[1..]);
      var e := Escape(s);
      if IsSpecial(s[0]) {
        assert e[2..] == Escape(s[1..]);
      } else {
        assert e[1..] == Escape(s[1..]);
      }
      assert s == [s[0]] + s[1..];
    }
  }

  // ---------- The parser, by file offset ----------

  /** What NodeStruct holds: offsets into the file, first child and next sibling. */
  datatype Net = NoNode | NetNode(start: nat, propsSize: nat, typ: byte, child: Net, next: Net)

  datatype Parsed = Parsed(net: Net, end: nat)

  /** The offset of the first delimiter at or after p that is not escaped. */
  function Scan(f: seq<byte>, p: nat): (q: Option<nat>)
    ensures q.Some? ==> p <= q.value < |f| && IsDelimiter(f[q.value])
    decreases |f| - p
  {
    if p >= |f| then None
    else if IsDelimiter(f[p]) then Some(p)
    else if f[p] == ESCAPE_CHAR then
      if p + 1 >= |f| then None else Scan(f, p + 2)
    else Scan(f, p + 1)
  }

  /** Parses the row of siblings whose first NODE_START byte is at start. The end
      is the offset the reader is left at: the delimiter of the enclosing node, or
      the end of the file.
   */
  function ParseRow(f: seq<byte>, start: nat): (r: Option<Parsed>)
    ensures r.Some? ==> r.value.net.NetNode? && start < r.value.end <= |f|
    ensures r.Some? && r.value.end < |f| ==> f[r.value.end] == NODE_END
    decreases |f| - start
  {
    if start + 1 >= |f| then None
    else
      var scan := Scan(f, start + 2);
      if scan.None? then None
      else
        var q := scan.value;
        var kid := if f[q] == NODE_START then ParseRow(f, q) else Some(Parsed(NoNode, q));
        if kid.None? || kid.value.end >= |f| then None
        else
          ParseAfterEnd(f, start, q, kid.value)
  }

  /** What follows the NODE_END of the node that starts at start. */
  function ParseAfterEnd(f: seq<byte>, start: nat, q: nat, kid: Parsed): (r: Option<Parsed>)
    requires start + 2 <= q <= kid.end < |f|
    ensures r.Some? ==> r.value.net.NetNode? && start < r.value.end <= |f|
    ensures r.Some? && r.value.end < |f| ==> f[r.value.end] == NODE_END
    decreases |f| - start, 0
  {
    var n := kid.end + 1;
    var node := NetNode(start, q - start - 2, f[start + 1], kid.net, NoNode);
    if n >= |f| then Some(Parsed(node, n))
    else if f[n] == NODE_END then Some(Parsed(node, n))
    else if f[n] == NODE_START then
      var rest := ParseRow(f, n);
      if rest.None? then None
      else Some(Parsed(node.(next := rest.value.net), rest.value.end))
    else None
  }

  // ---------- What the parser accepts ----------

  /** The number of bytes a row of nodes takes in the file. */
  function Size(net: Net): nat {
    match net
    case NoNode => 0
    case NetNode(_, propsSize, _, child, next) => 3 + propsSize + Size(child) + Size(next)
  }

  /** A start byte at lo, the type, and an escaped property region up to q. */
  predicate Header(f: seq<byte>, lo: nat, typ: byte, q: nat) {
    && lo + 2 <= q <= |f|
    && f[lo] == NODE_START && f[lo + 1] == typ && Escaped(f[lo + 2..q])
  }

  predicate EndAt(f: seq<byte>, e: nat) {
    e < |f| && f[e] == NODE_END
  }

  /** The bytes of f from lo on are exactly the nodes of net, one after the other:
      a start byte, the type, an escaped property region, the children and an end byte.
   */
  predicate Tiles(f: seq<byte>, net: Net, lo: nat) {
    match net
    case NoNode => lo <= |f|
    case NetNode(start, propsSize, typ, child, next) =>
      var q := lo + 2 + propsSize;
      var e := q + Size(child);
      start == lo && Header(f, lo, typ, q) && Tiles(f, child, q) && EndAt(f, e) && Tiles(f, next, e + 1)
  }

  lemma TilesNode(f: seq<byte>, lo: nat, q: nat, typ: byte, child: Net, e: nat, next: Net)
    requires lo + 2 <= q && Header(f, lo, typ, q) && Tiles(f, child, q)
    requires e == q + Size(child) && EndAt(f, e) && Tiles(f, next, e + 1)
    ensures var net := NetNode(lo, q - lo - 2, typ, child, next);
      Tiles(f, net, lo) && Size(net) == e + 1 + Size(next) - lo
  {
    hide Header, EndAt;
  }

  /** A row is followed by the end of its parent or by the end of the file. */
  predicate Terminated(f: seq<byte>, end: nat) {
    end == |f| || (end < |f| && f[end] == NODE_END)
  }

  lemma {:induction false} ScanExact(f: seq<byte>, p: nat, q: nat)
    requires p <= q
    ensures Scan(f, p) == Some(q) <==> q < |f| && Escaped(f[p..q]) && IsDelimiter(f[q])
    decreases |f| - p
  {
    if p < q < |f| {
      var s := f[p..q];
      if f[p] == ESCAPE_CHAR {
        if p + 2 <= q {
          assert s[2..] == f[p + 2..q];
          ScanExact(f, p + 2, q);
        }
      } else {
        assert s[1..] == f[p + 1..q];
        ScanExact(f, p + 1, q);
      }
    }
  }

  lemma ParseRowStep(f: seq<byte>, start: nat, q: nat, kid: Parsed)
    requires Scan(f, start + 2) == Some(q) && q <= kid.end < |f|
    requires f[q] == NODE_START ==> ParseRow(f, q) == Some(kid)
    requires f[q] != NODE_START ==> kid == Parsed(NoNode, q)
    ensures ParseRow(f, start) == ParseAfterEnd(f, start, q, kid)
  {
    hide Scan;
  }

  lemma ParseRowParts(f: seq<byte>, start: nat) returns (q: nat, kid: Parsed)
    requires ParseRow(f, start).Some?
    ensures Scan(f, start + 2) == Some(q) && q <= kid.end < |f|
    ensures f[q] == NODE_START ==> ParseRow(f, q) == Some(kid)
    ensures f[q] != NODE_START ==> kid == Parsed(NoNode, q)
    ensures ParseRow(f, start) == ParseAfterEnd(f, start, q, kid)
  {
    hide Scan;
    q := Scan(f, start + 2).value;
    kid := (if f[q] == NODE_START then ParseRow(f, q) else Some(Parsed(NoNode, q))).value;
  }

  lemma {:induction false} ParseSound(f: seq<byte>, start: nat)
    requires start < |f| && f[start] == NODE_START
    requires ParseRow(f, start).Some?
    ensures var p := ParseRow(f, start).value;
      Tiles(f, p.net, start) && p.end == start + Size(p.net) && Terminated(f, p.end)
    decreases |f| - start
  {
    hide Escaped, Scan, ParseRow, Tiles, Size;
    var q, kid := ParseRowParts(f, start);
    ScanExact(f, start + 2, q);
    if f[q] == NODE_START {
      ParseSound(f, q);
    } else {
      NoNodeTiles(f, q);
    }
    var n := kid.end + 1;
    var next := NoNode;
    if n < |f| && f[n] == NODE_START {
      ParseSound(f, n);
      next := ParseRow(f, n).value.net;
    } else {
      NoNodeTiles(f, n);
    }
    TilesNode(f, start, q, f[start + 1], kid.net, kid.end, next);
  }

  lemma NoNodeTiles(f: seq<byte>, lo: nat)
    requires lo <= |f|
    ensures Tiles(f, NoNode, lo) && Size(NoNode) == 0
  {
  }

  lemma {:induction false} TilesStart(f: seq<byte>, net: Net, lo: nat)
    requires Tiles(f, net, lo)
    ensures net.NetNode? ==> Size(net) >= 3 && f[lo] == NODE_START
    ensures net.NoNode? ==> Size(net) == 0
    ensures lo + Size(net) <= |f|
    decreases net
  {
    hide Escaped;
    if net.NetNode? {
      var e := lo + 2 + net.propsSize + Size(net.child);
      TilesStart(f, net.child, lo + 2 + net.propsSize);
      TilesStart(f, net.next, e + 1);
    }
  }

  lemma {:induction false} ParseComplete(f: seq<byte>, net: Net, start: nat)
    requires net.NetNode? && Tiles(f, net, start) && Terminated(f, start + Size(net))
    ensures ParseRow(f, start) == Some(Parsed(net, start + Size(net)))
    decreases net
  {
    hide Escaped, Scan, ParseRow, Tiles, Size;
    TilesParts(f, net, start);
    var q := start + 2 + net.propsSize;
    var e := q + Size(net.child);
    TilesStart(f, net.child, q);
    TilesStart(f, net.next, e + 1);
    ScanExact(f, start + 2, q);
    if net.child.NetNode? {
      ParseComplete(f, net.child, q);
    }
    if net.next.NetNode? {
      ParseComplete(f, net.next, e + 1);
    }
    ParseRowStep(f, start, q, Parsed(net.child, e));
  }

  lemma TilesParts(f: seq<byte>, net: Net, lo: nat)
    requires net.NetNode? && Tiles(f, net, lo)
    ensures var q := lo + 2 + net.propsSize; var e := q + Size(net.child);
      && net.start == lo && Header(f, lo, net.typ, q) && Tiles(f, net.child, q)
      && EndAt(f, e) && Tiles(f, net.next, e + 1)
      && Size(net) == e + 1 + Size(net.next) - lo
  {
    hide Header, EndAt;
  }

  /** The parser accepts exactly the byte strings that a row of nodes tiles, and
      returns that row: nothing else is accepted, and no file has two readings.
   */
  lemma ParseExact(f: seq<byte>, start: nat, net: Net, end: nat)
    requires start < |f| && f[start] == NODE_START
    ensures ParseRow(f, start) == Some(Parsed(net, end)) <==>
            net.NetNode? && Tiles(f, net, start) && end == start + Size(net) && Terminated(f, end)
  {
    if ParseRow(f, start) == Some(Parsed(net, end)) {
      ParseSound(f, start);
    }
    if net.NetNode? && Tiles(f, net, start) && end == start + Size(net) && Terminated(f, end) {
      ParseComplete(f, net, start);
    }
  }

  // ---------- Property ranges ----------

  /** The property range of every node, in the order the nodes start in the file. */
  function Ranges(net: Net): seq<(nat, nat)> {
    match net
    case NoNode => []
    case NetNode(start, propsSize, _, child, next) =>
      [(start + 2, start + 2 + propsSize)] + Ranges(child) + Ranges(next)
  }

  /** Ranges inside [lo, hi), each one over before the next one begins. */
  ghost predicate Separated(rs: seq<(nat, nat)>, lo: nat, hi: nat) {
    && (forall i :: 0 <= i < |rs| ==> lo <= rs[i].0 <= rs[i].1 <= hi)
    && (forall i, j :: 0 <= i < j < |rs| ==> rs[i].1 < rs[j].0)
  }

  lemma SeparatedConcat(a: seq<(nat, nat)>, b: seq<(nat, nat)>, lo: nat, mid: nat, hi: nat)
    requires lo <= mid < hi && Separated(a, lo, mid) && Separated(b, mid + 1, hi)
    ensures Separated(a + b, lo, hi)
  {
  }

  lemma {:induction false} RangesSeparated(f: seq<byte>, net: Net, lo: nat)
    requires Tiles(f, net, lo)
    ensures net.NetNode? ==> Separated(Ranges(net), lo + 2, lo + Size(net) - 1)
    ensures net.NoNode? ==> Ranges(net) == []
    decreases net
  {
    hide Header, EndAt, Separated;
    TilesStart(f, net, lo);
    if net.NetNode? {
      var q := lo + 2 + net.propsSize;
      var e := q + Size(net.child);
      TilesStart(f, net.child, q);
      TilesStart(f, net.next, e + 1);
      RangesSeparated(f, net.child, q);
      RangesSeparated(f, net.next, e + 1);
      RangesJoin(lo + 2, q, Ranges(net.child), e, Ranges(net.next), lo + Size(net) - 1);
    }
  }

  lemma RangesJoin(lo: nat, q: nat, kids: seq<(nat, nat)>, e: nat, rest: seq<(nat, nat)>, hi: nat)
    requires lo <= q <= e <= hi
    requires kids == [] || (q + 3 <= e && Separated(kids, q + 2, e - 1))
    requires rest == [] || (e + 3 <= hi && Separated(rest, e + 3, hi))
    ensures Separated([(lo, q)] + kids + rest, lo, hi)
  {
    var own := [(lo, q)];
    var ownKids := own + kids;
    assert Separated(ownKids, lo, e) by {
      if kids != [] { SeparatedConcat(own, kids, lo, q, e - 1); }
    }
    if rest == [] {
      assert ownKids + rest == ownKids;
    } else {
      SeparatedConcat(ownKids, rest, lo, e, hi);
    }
  }

  /** On arbitrary bytes, a successful parse hands out property ranges that lie in
      the file and never overlap, a parent's before its children's.
   */
  lemma ParsedRangesDisjoint(f: seq<byte>, start: nat)
    requires start < |f| && f[start] == NODE_START
    requires ParseRow(f, start).Some?
    ensures Separated(Ranges(ParseRow(f, start).value.net), start + 2, |f| - 1)
  {
    hide ParseRow, Ranges, Tiles, Size;
    ParseSound(f, start);
    TilesStart(f, ParseRow(f, start).value.net, start);
    RangesSeparated(f, ParseRow(f, start).value.net, start);
  }

  // ---------- The printer ----------

  /** A node tree as a client sees it: unescaped properties, first child, next sibling. */
  datatype Row = Empty | Node(typ: byte, props: seq<byte>, child: Row, next: Row)

  function StartBytes(typ: byte): seq<byte> {
    [NODE_START] + EscapeByte(typ)
  }

  function Print(row: Row): seq<byte> {
    match row
    case Empty => []
    case Node(typ, props, child, next) =>
      StartBytes(typ) + (Escape(props) + (Print(child) + ([NODE_END] + Print(next))))
  }

  /** What a client reads back from a parsed row: types, and properties through getProps. */
  function Decode(f: seq<byte>, net: Net, lo: nat): Row
    requires Tiles(f, net, lo)
  {
    match net
    case NoNode => Empty
    case NetNode(start, propsSize, typ, child, next) =>
      var q := lo + 2 + propsSize;
      Node(typ, Unescape(f[lo + 2..q]), Decode(f, child, q), Decode(f, next, q + Size(child) + 1))
  }

  /** What follows the type byte of a printed node, up to its first delimiter. */
  function Raw(typ: byte, props: seq<byte>): seq<byte> {
    EscapeByte(typ)[1..] + Escape(props)
  }

  function NetOf(row: Row, lo: nat): Net {
    match row
    case Empty => NoNode
    case Node(typ, props, child, next) =>
      var q := lo + 2 + |Raw(typ, props)|;
      NetNode(lo, |Raw(typ, props)|, EscapeByte(typ)[0], NetOf(child, q), NetOf(next, q + |Print(child)| + 1))
  }

  /** The first byte of props other than the escape character exists and is not special. */
  predicate LeadReadable(props: seq<byte>) {
    props != [] && (if props[0] == ESCAPE_CHAR then LeadReadable(props[1..]) else !IsSpecial(props[0]))
  }

  /** The nodes a reader gets back as they were written. The writer escapes the type
      byte and the reader does not unescape it, so a special type byte is lost unless
      it is the escape character and the bytes after it happen to line up again.
   */
  predicate NodeReadable(typ: byte, props: seq<byte>) {
    !IsSpecial(typ) || (typ == ESCAPE_CHAR && LeadReadable(props))
  }

  predicate Readable(row: Row) {
    match row
    case Empty => true
    case Node(typ, props, child, next) => NodeReadable(typ, props) && Readable(child) && Readable(next)
  }

  lemma UnescapePair(b: byte, t: seq<byte>)
    requires Escaped(t)
    ensures Escaped([ESCAPE_CHAR, b] + t) && Unescape([ESCAPE_CHAR, b] + t) == [b] + Unescape(t)
  {
    var s := [ESCAPE_CHAR, b] + t;
    assert s[2..] == t;
  }

  lemma {:induction false} LeadReadableUnescapes(props: seq<byte>)
    requires LeadReadable(props)
    ensures var s := [ESCAPE_CHAR] + Escape(props); Escaped(s) && Unescape(s) == props
  {
    hide Escaped, Unescape;
    var b, tail := props[0], props[1..];
    assert props == [b] + tail;
    var t := (if b == ESCAPE_CHAR then [ESCAPE_CHAR] else []) + Escape(tail);
    if b == ESCAPE_CHAR {
      LeadReadableUnescapes(tail);
    } else {
      UnescapeEscape(tail);
      assert t == Escape(tail);
    }
    assert [ESCAPE_CHAR] + Escape(props) == [ESCAPE_CHAR, b] + t;
    UnescapePair(b, t);
  }

  lemma RawUnescapes(typ: byte, props: seq<byte>)
    requires NodeReadable(typ, props)
    ensures EscapeByte(typ)[0] == typ
    ensures Escaped(Raw(typ, props)) && Unescape(Raw(typ, props)) == props
  {
    if IsSpecial(typ) {
      LeadReadableUnescapes(props);
      assert EscapeByte(typ)[1..] == [ESCAPE_CHAR];
    } else {
      UnescapeEscape(props);
      assert Raw(typ, props) == Escape(props);
    }
  }

  /** The bytes of s stand at offset lo of f. */
  predicate At(f: seq<byte>, lo: nat, s: seq<byte>) {
    lo + |s| <= |f| && f[lo..lo + |s|] == s
  }

  lemma AtSplit(f: seq<byte>, lo: nat, a: seq<byte>, b: seq<byte>)
    requires At(f, lo, a + b)
    ensures At(f, lo, a) && At(f, lo + |a|, b)
  {
    var g := f[lo..lo + |a + b|];
    assert f[lo..lo + |a|] == g[..|a|] == a;
    assert f[lo + |a|..lo + |a| + |b|] == g[|a|..] == b;
  }

  /** Where the pieces of a printed node are in a file that holds it at lo. */
  lemma PrintedPieces(f: seq<byte>, row: Row, lo: nat)
    requires row.Node? && At(f, lo, Print(row))
    ensures var q := lo + 2 + |Raw(row.typ, row.props)|;
      var e := q + |Print(row.child)|;
      && e + 1 + |Print(row.next)| == lo + |Print(row)|
      && f[lo] == NODE_START && f[lo + 1] == EscapeByte(row.typ)[0]
      && At(f, lo + 2, Raw(row.typ, row.props))
      && At(f, q, Print(row.child))
      && EndAt(f, e)
      && At(f, e + 1, Print(row.next))
  {
    hide Escape, Raw, Print, EscapeByte;
    var raw, t := Raw(row.typ, row.props), EscapeByte(row.typ);
    var c, n := Print(row.child), Print(row.next);
    PrintedShape(row);
    AtSplit(f, lo, [NODE_START, t[0]], raw + (c + ([NODE_END] + n)));
    AtSplit(f, lo + 2, raw, c + ([NODE_END] + n));
    AtSplit(f, lo + 2 + |raw|, c, [NODE_END] + n);
    AtSplit(f, lo + 2 + |raw| + |c|, [NODE_END], n);
  }

  lemma Regroup(d: byte, t: seq<byte>, u: seq<byte>, v: seq<byte>)
    requires |t| > 0
    ensures [d] + t + (u + v) == [d, t[0]] + ((t[1..] + u) + v)
  {
    assert t == [t[0]] + t[1..];
  }

  lemma PrintedShape(row: Row)
    requires row.Node?
    ensures Print(row) == [NODE_START, EscapeByte(row.typ)[0]]
                          + (Raw(row.typ, row.props) + (Print(row.child) + ([NODE_END] + Print(row.next))))
  {
    hide Escape;
    var rest := Print(row.child) + ([NODE_END] + Print(row.next));
    Regroup(NODE_START, EscapeByte(row.typ), Escape(row.props), rest);
  }

  lemma PrintedHeader(f: seq<byte>, row: Row, lo: nat)
    requires row.Node? && NodeReadable(row.typ, row.props) && At(f, lo, Print(row))
    ensures var q := lo + 2 + |Raw(row.typ, row.props)|;
      && Header(f, lo, row.typ, q) && Unescape(f[lo + 2..q]) == row.props
      && EscapeByte(row.typ)[0] == row.typ
  {
    hide Escape, Escaped, Unescape, Raw, Print, EscapeByte, NodeReadable;
    PrintedPieces(f, row, lo);
    RawUnescapes(row.typ, row.props);
  }

  lemma {:induction false} PrintedTiles(f: seq<byte>, row: Row, lo: nat)
    requires Readable(row)
    requires At(f, lo, Print(row))
    ensures Size(NetOf(row, lo)) == |Print(row)|
    ensures Tiles(f, NetOf(row, lo), lo) && Decode(f, NetOf(row, lo), lo) == row
    decreases row
  {
    hide Header, Unescape, Raw, EscapeByte, Escape, Escaped, NodeReadable;
    if row.Node? {
      PrintedHeader(f, row, lo);
      PrintedPieces(f, row, lo);
      PrintedTilesNode(f, row, lo);
    }
  }

  lemma {:induction false} PrintedTilesNode(f: seq<byte>, row: Row, lo: nat)
    requires row.Node? && Readable(row.child) && Readable(row.next)
    requires At(f, lo, Print(row)) && NodeReadable(row.typ, row.props)
    ensures Size(NetOf(row, lo)) == |Print(row)|
    ensures Tiles(f, NetOf(row, lo), lo) && Decode(f, NetOf(row, lo), lo) == row
    decreases row, 0
  {
    hide *;
    PrintedHeader(f, row, lo);
    PrintedPieces(f, row, lo);
    var q := lo + 2 + |Raw(row.typ, row.props)|;
    var e := q + |Print(row.child)|;
    PrintedTiles(f, row.child, q);
    PrintedTiles(f, row.next, e + 1);
    var child, next := NetOf(row.child, q), NetOf(row.next, e + 1);
    TilesNode(f, lo, q, row.typ, child, e, next);
    NetOfNode(row, lo);
    DecodeNode(f, lo, NetOf(row, lo));
  }

  lemma NetOfNode(row: Row, lo: nat)
    requires row.Node?
    ensures var q := lo + 2 + |Raw(row.typ, row.props)|;
      NetOf(row, lo) == NetNode(lo, |Raw(row.typ, row.props)|, EscapeByte(row.typ)[0],
                                NetOf(row.child, q), NetOf(row.next, q + |Print(row.child)| + 1))
  {
    hide Raw, Print, EscapeByte;
  }

  lemma DecodeNode(f: seq<byte>, lo: nat, net: Net)
    requires net.NetNode? && Tiles(f, net, lo)
    ensures Header(f, lo, net.typ, lo + 2 + net.propsSize)
    ensures var q := lo + 2 + net.propsSize; var e := q + Size(net.child);
      && Tiles(f, net.child, q) && Tiles(f, net.next, e + 1)
      && Decode(f, net, lo) == Node(net.typ, Unescape(f[lo + 2..q]), Decode(f, net.child, q), Decode(f, net.next, e + 1))
  {
    hide Escaped, Unescape;
  }

  lemma {:induction false} SpecialTypeReads(s: seq<byte>, props: seq<byte>, d: byte, rest: seq<byte>)
    requires Escaped(s) && Unescape(s) == props && IsDelimiter(d)
    requires s + [d] <= [ESCAPE_CHAR] + Escape(props) + rest
    ensures LeadReadable(props)
    decreases |props|
  {
    var w := [ESCAPE_CHAR] + Escape(props) + rest;
    assert (s + [d])[0] == w[0];
    assert |s| >= 2 && s[0] == ESCAPE_CHAR && props[0] == s[1];
    assert s[1] == (s + [d])[1] == w[1];
    assert w[1] == Escape(props)[0];
    if props[0] == ESCAPE_CHAR {
      var s' := s[2..];
      assert props[1..] == Unescape(s');
      assert w[2..] == [ESCAPE_CHAR] + Escape(props[1..]) + rest;
      assert s' + [d] == (s + [d])[2..];
      SpecialTypeReads(s', props[1..], d, rest);
    }
  }

  lemma DelimiterAfterRaw(f: seq<byte>, row: Row, lo: nat)
    requires row.Node? && At(f, lo, Print(row))
    ensures var e := lo + 2 + |Raw(row.typ, row.props)|; e < |f| && IsDelimiter(f[e])
  {
    hide Escape, Raw, EscapeByte, At;
    PrintedPieces(f, row, lo);
    if row.child.Node? {
      PrintedPieces(f, row.child, lo + 2 + |Raw(row.typ, row.props)|);
    }
  }

  lemma TypeEscapeReadable(f: seq<byte>, lo: nat, q: nat, e: nat, props: seq<byte>)
    requires At(f, lo, [ESCAPE_CHAR] + Escape(props))
    requires lo <= q < |f| && IsDelimiter(f[q]) && Escaped(f[lo..q]) && Unescape(f[lo..q]) == props
    requires e == lo + |[ESCAPE_CHAR] + Escape(props)|
    ensures LeadReadable(props)
  {
    hide Escape, Escaped, Unescape, LeadReadable;
    assert f[lo..q] + [f[q]] == f[lo..q + 1] <= f[lo..];
    assert f[lo..] == f[lo..e] + f[e..];
    SpecialTypeReads(f[lo..q], props, f[q], f[e..]);
  }

  lemma TiledHeader(f: seq<byte>, row: Row, lo: nat, q: nat)
    requires row.Node? && At(f, lo, Print(row))
    requires Header(f, lo, row.typ, q) && q < |f| && IsDelimiter(f[q]) && Unescape(f[lo + 2..q]) == row.props
    ensures NodeReadable(row.typ, row.props)
    ensures q == lo + 2 + |Raw(row.typ, row.props)|
  {
    hide Escape, Escaped, Unescape, Print, LeadReadable, Scan;
    PrintedPieces(f, row, lo);
    var e := lo + 2 + |Raw(row.typ, row.props)|;
    if IsSpecial(row.typ) {
      assert row.typ == ESCAPE_CHAR;
      TypeEscapeReadable(f, lo + 2, q, e, row.props);
    }
    RawUnescapes(row.typ, row.props);
    DelimiterAfterRaw(f, row, lo);
    ScanExact(f, lo + 2, q);
    ScanExact(f, lo + 2, e);
  }

  lemma {:induction false} TiledReadable(f: seq<byte>, row: Row, lo: nat, net: Net)
    requires At(f, lo, Print(row))
    requires Tiles(f, net, lo) && Decode(f, net, lo) == row
    ensures Readable(row) && net == NetOf(row, lo) && Size(net) == |Print(row)|
    decreases row, 1
  {
    hide Header, EndAt, Unescape, Raw, EscapeByte, Escape, NodeReadable;
    if row.Node? {
      TiledReadableNode(f, row, lo, net);
    }
  }

  lemma {:induction false} TiledReadableNode(f: seq<byte>, row: Row, lo: nat, net: Net)
    requires row.Node? && net.NetNode? && At(f, lo, Print(row))
    requires Tiles(f, net, lo) && Decode(f, net, lo) == row
    ensures Readable(row) && net == NetOf(row, lo) && Size(net) == |Print(row)|
    decreases row, 0
  {
    hide Header, Unescape, Raw, Print, At, EscapeByte, NodeReadable;
    var q := lo + 2 + net.propsSize;
    TilesStart(f, net.child, q);
    TiledHeader(f, row, lo, q);
    PrintedHeader(f, row, lo);
    PrintedPieces(f, row, lo);
    TiledReadable(f, row.child, q, net.child);
    TiledReadable(f, row.next, q + Size(net.child) + 1, net.next);
  }

  /** The round trip, with its exact condition. Printing a row after any prefix and
      parsing it at its first byte succeeds and gives the row back (types, links and,
      through getProps, the original property bytes) if and only if every node is
      readable; then the offsets are those of NetOf and the reader stops at the end.
   */
  lemma {:induction false} RoundTrip(prefix: seq<byte>, row: Row, suffix: seq<byte>)
    requires row.Node? && (suffix == [] || suffix[0] == NODE_END)
    ensures var f := prefix + Print(row) + suffix;
      var parsed := ParseRow(f, |prefix|);
      && (Readable(row) ==> parsed == Some(Parsed(NetOf(row, |prefix|), |prefix| + |Print(row)|)))
      && (Readable(row) <==>
          parsed.Some? && Tiles(f, parsed.value.net, |prefix|) && Decode(f, parsed.value.net, |prefix|) == row)
  {
    hide Escape, Escaped, Unescape, Raw, EscapeByte, Print, ParseRow, Tiles, Decode, Readable;
    var f := prefix + Print(row) + suffix;
    var lo := |prefix|;
    assert At(f, lo, Print(row));
    if Readable(row) {
      PrintedTiles(f, row, lo);
      ParseComplete(f, NetOf(row, lo), lo);
    }
    var parsed := ParseRow(f, lo);
    if parsed.Some? && Tiles(f, parsed.value.net, lo) && Decode(f, parsed.value.net, lo) == row {
      TiledReadable(f, row, lo, parsed.value.net);
    }
  }

  /** Types below 0xFD are always readable, whatever the properties. */
  predicate PlainTypes(row: Row) {
    match row
    case Empty => true
    case Node(typ, _, child, next) => typ < ESCAPE_CHAR && PlainTypes(child) && PlainTypes(next)
  }

  lemma PlainTypesReadable(row: Row)
    requires PlainTypes(row)
    ensures Readable(row)
  {
  }

  /** A node of type 0xFE comes back as another one. */
  lemma SpecialTypeLost()
    ensures !Readable(Node(NODE_START, [], Empty, Empty))
    ensures var f := Print(Node(NODE_START, [], Empty, Empty));
      f == [0xFE, 0xFD, 0xFE, 0xFF] && ParseRow(f, 0).None?
  {
    var f := Print(Node(NODE_START, [], Empty, Empty));
    assert f == [0xFE, 0xFD, 0xFE, 0xFF];
    assert Scan(f, 2) == Some(2);
    assert Scan(f, 4) == None;
    assert ParseRow(f, 2).None?;
  }
}
