/** Items as the map store keeps them: their attributes, the byte streams, and containers with totals. */
module MapItems {
  import opened Wrappers
  import DecayWheels

  // ---------- Streams ----------

  function Word(n: int): byte {
    (n % 256) as byte
  }

  function Short(n: int): seq<byte> {
    [Word(n), Word(n / 256)]
  }

  function Long(n: int): seq<byte> {
    [Word(n), Word(n / 256), Word(n / 0x1_0000), Word(n / 0x100_0000)]
  }

  function ShortAt(s: seq<byte>, p: nat): int
    requires p + 2 <= |s|
  {
    s[p] as int + 256 * s[p + 1] as int
  }

  function LongAt(s: seq<byte>, p: nat): int
    requires p + 4 <= |s|
  {
    s[p] as int + 256 * s[p + 1] as int + 0x1_0000 * s[p + 2] as int + 0x100_0000 * s[p + 3] as int
  }

  lemma ShortBack(n: int, pre: seq<byte>, post: seq<byte>)
    requires 0 <= n < 0x1_0000
    ensures ShortAt(pre + Short(n) + post, |pre|) == n
  {
    assert n == n % 256 + 256 * (n / 256);
  }

  lemma LongBack(n: int, pre: seq<byte>, post: seq<byte>)
    requires 0 <= n < 0x1_0000_0000
    ensures LongAt(pre + Long(n) + post, |pre|) == n
  {
    var s := pre + Long(n) + post;
    assert s[|pre|] == Word(n) && s[|pre| + 1] == Word(n / 256);
    assert s[|pre| + 2] == Word(n / 0x1_0000) && s[|pre| + 3] == Word(n / 0x100_0000);
    Digits(n);
  }

  lemma Digits(n: int)
    requires 0 <= n < 0x1_0000_0000
    ensures n == n % 256 + 256 * (n / 256 % 256) + 0x1_0000 * (n / 0x1_0000 % 256) + 0x100_0000 * (n / 0x100_0000 % 256)
  {
    var a, b, c := n / 256, n / 0x1_0000, n / 0x100_0000;
    assert a / 256 == b && b / 256 == c && c < 256;
  }

  class PropWriteStream {
    var buffer: seq<byte>

    constructor ()
      ensures buffer == []
    {
      buffer := [];
    }

    method Add(bytes: seq<byte>)
      modifies this
      ensures buffer == old(buffer) + bytes
    {
      buffer := buffer + bytes;
    }
  }

  class PropStream {
    const data: seq<byte>
    var p: nat

    constructor (data: seq<byte>)
      ensures this.data == data && p == 0
    {
      this.data, p := data, 0;
    }

    ghost predicate Valid()
      reads this
    {
      p <= |data|
    }

    method GetUint8() returns (ok: bool, v: int)
      requires Valid()
      modifies this
      ensures Valid() && ok == (old(p) + 1 <= |data|)
      ensures if ok then p == old(p) + 1 && v == data[old(p)] as int else p == old(p) && v == 0
    {
      ok, v := p + 1 <= |data|, 0;
      if ok {
        v, p := data[p] as int, p + 1;
      }
    }

    method GetUint16() returns (ok: bool, v: int)
      requires Valid()
      modifies this
      ensures Valid() && ok == (old(p) + 2 <= |data|)
      ensures if ok then p == old(p) + 2 && v == ShortAt(data, old(p)) else p == old(p) && v == 0
    {
      ok, v := p + 2 <= |data|, 0;
      if ok {
        v, p := ShortAt(data, p), p + 2;
      }
    }

    method GetUint32() returns (ok: bool, v: int)
      requires Valid()
      modifies this
      ensures Valid() && ok == (old(p) + 4 <= |data|)
      ensures if ok then p == old(p) + 4 && v == LongAt(data, old(p)) else p == old(p) && v == 0
    {
      ok, v := p + 4 <= |data|, 0;
      if ok {
        v, p := LongAt(data, p), p + 4;
      }
    }

    method GetString() returns (ok: bool, v: seq<byte>)
      requires Valid()
      modifies this
      ensures Valid() && ok == HasString(data, old(p))
      ensures p >= old(p) && (ok ==> v == StringAt(data, old(p)) && p == old(p) + 2 + |v|)
    {
      var len;
      ok, len := GetUint16();
      if !ok {
        return false, [];
      }
      if |data| - p < len {
        return false, [];
      }
      v := data[p..p + len];
      p := p + len;
    }
  }

  predicate HasString(s: seq<byte>, p: nat) {
    p + 2 <= |s| && p + 2 + ShortAt(s, p) <= |s|
  }

  function StringAt(s: seq<byte>, p: nat): seq<byte>
    requires HasString(s, p)
  {
    s[p + 2..p + 2 + ShortAt(s, p)]
  }

  // ---------- Attributes ----------

  /** What the item types say of an id. */
  datatype Kind = Kind(known: bool, stackable: bool, fluid: bool, charges: nat, moveable: bool, decayTime: nat, decays: bool,
                       isContainer: bool, weight: nat)
  {
    predicate Sane() {
      charges < 0x1_0000 && decayTime * 1000 < 0x8000_0000
    }
  }

  type Kinds = nat -> Kind

  /** The mark of a decaying item; Spent says that an item has decayed and is no longer what it was. */
  datatype Decay = NotDecaying | Decaying | Pending | Spent

  datatype Attrs = Attrs(count: nat, fluidType: nat, charges: nat, actionId: nat, uniqueId: nat, text: seq<byte>,
                         writer: seq<byte>, desc: seq<byte>, owner: nat, duration: Option<int>, decay: Decay)
  {
    /** The widths of the fields, and what their setters make of small values. */
    predicate Typed() {
      && 1 <= count < 256 && fluidType < 0x1_0000 && charges < 0x1_0000
      && (actionId == 0 || 100 <= actionId < 0x1_0000) && (uniqueId == 0 || 1000 <= uniqueId < 0x1_0000)
      && (duration.Some? ==> -0x8000_0000 <= duration.value < 0x8000_0000) && !decay.Spent?
    }
  }

  const PLAIN: Attrs := Attrs(1, 0, 0, 0, 0, [], [], [], 0, None, NotDecaying)

  function ItemCount(n: int): (count: nat)
    ensures 1 <= count < 256 && ((n - count) % 256 == 0 || (count == 1 && n % 256 == 0))
  {
    if n % 256 == 0 then 1 else n % 256
  }

  function AtLeast(n: nat, low: nat): nat {
    if n < low then low else n
  }

  /** A new item of a kind. The number that is asked for counts for a fluid, a stack or charges, and not for a container. */
  function Created(kind: Kind, count: nat): (a: Attrs)
    ensures a.fluidType == if kind.fluid && !kind.isContainer then (if kind.stackable then AtLeast(count, 1) else count) else 0
    ensures a.count == if kind.fluid || !kind.stackable then 1
                       else if !kind.isContainer then ItemCount(AtLeast(count, 1))
                       else if kind.charges != 0 then ItemCount(kind.charges) else 1
    ensures a.charges == if kind.fluid || kind.stackable then 0
                         else if kind.charges != 0 && count > 1 && !kind.isContainer then count else kind.charges
    ensures a.duration == (if kind.decayTime == 0 then None else Some(1000 * kind.decayTime)) && a.decay == NotDecaying
    ensures a.actionId == a.uniqueId == a.owner == 0 && a.text == a.writer == a.desc == []
  {
    var n := if kind.isContainer then 0 else if kind.stackable && count == 0 then 1 else count;
    var a :=
      if kind.fluid then PLAIN.(fluidType := n)
      else if kind.stackable then PLAIN.(count := if n != 0 then ItemCount(n) else if kind.charges != 0 then ItemCount(kind.charges) else 1)
      else if kind.charges != 0 then PLAIN.(charges := if n > 1 then n else kind.charges)
      else PLAIN;
    if kind.decayTime == 0 then a else a.(duration := Some(kind.decayTime * 1000))
  }

  function SubType(kind: Kind, a: Attrs): nat {
    if kind.fluid then a.fluidType
    else if kind.stackable then a.count
    else if kind.charges != 0 then a.charges
    else a.count
  }

  function WithSubType(kind: Kind, a: Attrs, n: nat): Attrs {
    if kind.fluid then a.(fluidType := n)
    else if kind.stackable then a.(count := ItemCount(n))
    else if kind.charges != 0 then a.(charges := n)
    else a.(count := ItemCount(n))
  }

  const ATTR_ACTION_ID: int := 4
  const ATTR_UNIQUE_ID: int := 5
  const ATTR_TEXT: int := 6
  const ATTR_DESC: int := 7
  const ATTR_TELE_DEST: int := 8
  const ATTR_DEPOT_ID: int := 10
  const ATTR_RUNE_CHARGES: int := 12
  const ATTR_HOUSEDOORID: int := 14
  const ATTR_COUNT: int := 15
  const ATTR_DURATION: int := 16
  const ATTR_DECAYING_STATE: int := 17
  const ATTR_WRITTENBY: int := 19
  const ATTR_SLEEPERGUID: int := 20
  const ATTR_SLEEPSTART: int := 21
  const ATTR_CHARGES: int := 22
  const ATTR_CONTAINER_ITEMS: int := 23

  /** One attribute as it is stored: its number and a byte, a short, a long or a string. */
  datatype Chunk = Byte(tag: int, v: int) | Two(tag: int, v: int) | Four(tag: int, v: int) | Text(tag: int, s: seq<byte>)
  {
    predicate Fits() {
      && 0 < tag < 256
      && match this
         case Byte(_, v) => 0 <= v < 256
         case Two(_, v) => 0 <= v < 0x1_0000
         case Four(_, v) => 0 <= v < 0x1_0000_0000
         case Text(_, s) => |s| < 0x1_0000
    }

    function Bytes(): seq<byte> {
      match this
      case Byte(t, v) => [Word(t), Word(v)]
      case Two(t, v) => [Word(t)] + Short(v)
      case Four(t, v) => [Word(t)] + Long(v)
      case Text(t, s) => [Word(t)] + Short(|s|) + s
    }
  }

  /** What is written of a string: its length is cut to a short. */
  function Cut(s: seq<byte>): seq<byte> {
    s[..|s| % 0x1_0000]
  }

  function Unsigned(n: int): int {
    if n < 0 then n + 0x1_0000_0000 else n
  }

  function Opt(needed: bool, c: Chunk): seq<Chunk> {
    if needed then [c] else []
  }

  /** The first four of the attributes that are written. */
  function FirstChunks(kind: Kind, a: Attrs): seq<Chunk> {
    Opt(kind.stackable || kind.fluid, Byte(ATTR_COUNT, SubType(kind, a) % 256))
    + Opt(a.charges > 0, Two(ATTR_CHARGES, a.charges))
    + Opt(kind.moveable && a.actionId != 0, Two(ATTR_ACTION_ID, a.actionId))
    + Opt(a.text != [], Text(ATTR_TEXT, Cut(a.text)))
  }

  /** The attributes that are written, in order. */
  function Chunks(kind: Kind, a: Attrs): seq<Chunk> {
    FirstChunks(kind, a)
    + Opt(a.writer != [], Text(ATTR_WRITTENBY, Cut(a.writer)))
    + Opt(a.desc != [], Text(ATTR_DESC, Cut(a.desc)))
    + Opt(a.duration.Some?, Four(ATTR_DURATION, Unsigned(if a.duration.Some? then a.duration.value else 0)))
    + Opt(a.decay != NotDecaying, Byte(ATTR_DECAYING_STATE, if a.decay.Decaying? then 1 else 2))
  }

  function Write(chunks: seq<Chunk>): seq<byte> {
    if chunks == [] then [] else chunks[0].Bytes() + Write(chunks[1..])
  }

  /** What one stored attribute does to an item; nothing for one of the wrong shape. */
  function Applied(kind: Kind, a: Attrs, c: Chunk): Attrs {
    match c
    case Byte(t, v) =>
      if t == ATTR_COUNT || t == ATTR_RUNE_CHARGES then (if v >= 0 then WithSubType(kind, a, v) else a)
      else if t == ATTR_DECAYING_STATE then (if v != 0 then a.(decay := Pending) else a)
      else a
    case Two(t, v) =>
      if v < 0 then a
      else if t == ATTR_CHARGES then WithSubType(kind, a, v)
      else if t == ATTR_ACTION_ID then a.(actionId := AtLeast(v, 100))
      else if t == ATTR_UNIQUE_ID then a.(uniqueId := AtLeast(v, 1000))
      else a
    case Four(t, v) =>
      if t == ATTR_DURATION then a.(duration := Some(if v >= 0x8000_0000 then 0 else v)) else a
    case Text(t, s) =>
      if s == [] then a
      else if t == ATTR_TEXT then a.(text := s)
      else if t == ATTR_WRITTENBY then a.(writer := s)
      else if t == ATTR_DESC then a.(desc := s)
      else a
  }

  function AllApplied(kind: Kind, a: Attrs, chunks: seq<Chunk>): Attrs
    decreases |chunks|
  {
    if chunks == [] then a else AllApplied(kind, Applied(kind, a, chunks[0]), chunks[1..])
  }

  /** The shape an attribute number announces: 1, 2 or 4 bytes, 5 for a teleport's place, 0 for a string, -1 for none. */
  function Shape(tag: int): int {
    if tag in {ATTR_COUNT, ATTR_RUNE_CHARGES, ATTR_DECAYING_STATE, ATTR_HOUSEDOORID} then 1
    else if tag in {ATTR_ACTION_ID, ATTR_UNIQUE_ID, ATTR_CHARGES, ATTR_DEPOT_ID} then 2
    else if tag in {ATTR_DURATION, ATTR_SLEEPERGUID, ATTR_SLEEPSTART} then 4
    else if tag == ATTR_TELE_DEST then 5
    else if tag in {ATTR_TEXT, ATTR_WRITTENBY, ATTR_DESC} then 0
    else -1
  }

  /** How reading attributes ends: with an error, at an end mark or the end of the data, or at a container's items. */
  datatype Reading = Failed | Ended(attrs: Attrs, p: nat) | Items(attrs: Attrs, p: nat, count: nat)

  /** Reads attributes from a position on. */
  function Read(kind: Kind, a: Attrs, s: seq<byte>, p: nat): (r: Reading)
    requires p <= |s|
    ensures !r.Failed? ==> p <= r.p <= |s| && (r.Items? ==> r.p >= p + 5)
    decreases |s| - p
  {
    if p == |s| then Ended(a, p)
    else
      var tag, q := s[p] as int, p + 1;
      if tag == 0 then Ended(a, q)
      else if tag == ATTR_CONTAINER_ITEMS && kind.isContainer then
        if q + 4 > |s| then Failed else Items(a, q + 4, LongAt(s, q))
      else if Shape(tag) == 1 && q + 1 <= |s| then Read(kind, Applied(kind, a, Byte(tag, s[q] as int)), s, q + 1)
      else if Shape(tag) == 2 && q + 2 <= |s| then Read(kind, Applied(kind, a, Two(tag, ShortAt(s, q))), s, q + 2)
      else if Shape(tag) == 4 && q + 4 <= |s| then Read(kind, Applied(kind, a, Four(tag, LongAt(s, q))), s, q + 4)
      else if Shape(tag) == 5 && q + 5 <= |s| then Read(kind, a, s, q + 5)
      else if Shape(tag) == 0 && HasString(s, q) then
        Read(kind, Applied(kind, a, Text(tag, StringAt(s, q))), s, q + 2 + |StringAt(s, q)|)
      else Failed
  }

  /** The attribute stored at a position. */
  function ChunkAt(s: seq<byte>, p: nat): Option<Chunk> {
    if p >= |s| then None
    else
      var tag, q := s[p] as int, p + 1;
      if Shape(tag) == 1 && q + 1 <= |s| then Some(Byte(tag, s[q] as int))
      else if Shape(tag) == 2 && q + 2 <= |s| then Some(Two(tag, ShortAt(s, q)))
      else if Shape(tag) == 4 && q + 4 <= |s| then Some(Four(tag, LongAt(s, q)))
      else if Shape(tag) == 0 && HasString(s, q) then Some(Text(tag, StringAt(s, q)))
      else None
  }

  function Length(c: Chunk): nat {
    match c
    case Byte(_, _) => 2
    case Two(_, _) => 3
    case Four(_, _) => 5
    case Text(_, s) => 3 + |s|
  }

  lemma ReadStep(kind: Kind, a: Attrs, s: seq<byte>, p: nat)
    requires ChunkAt(s, p).Some?
    ensures p + Length(ChunkAt(s, p).value) <= |s|
    ensures Read(kind, a, s, p) == Read(kind, Applied(kind, a, ChunkAt(s, p).value), s, p + Length(ChunkAt(s, p).value))
  {
    hide Applied;
  }

  predicate Known(c: Chunk) {
    c.Fits() && Shape(c.tag) == match c case Byte(_, _) => 1 case Two(_, _) => 2 case Four(_, _) => 4 case Text(_, _) => 0
  }

  lemma StoredTwo(pre: seq<byte>, c: Chunk, post: seq<byte>)
    requires Known(c) && c.Two?
    ensures |c.Bytes()| == Length(c) && ChunkAt(pre + c.Bytes() + post, |pre|) == Some(c)
  {
    var s := pre + c.Bytes() + post;
    assert s[|pre|] as int == c.tag;
    ShortBack(c.v, pre + [Word(c.tag)], post);
    assert s == (pre + [Word(c.tag)]) + Short(c.v) + post;
  }

  lemma StoredFour(pre: seq<byte>, c: Chunk, post: seq<byte>)
    requires Known(c) && c.Four?
    ensures |c.Bytes()| == Length(c) && ChunkAt(pre + c.Bytes() + post, |pre|) == Some(c)
  {
    var s := pre + c.Bytes() + post;
    assert s[|pre|] as int == c.tag;
    LongBack(c.v, pre + [Word(c.tag)], post);
    assert s == (pre + [Word(c.tag)]) + Long(c.v) + post;
  }

  lemma StoredText(pre: seq<byte>, c: Chunk, post: seq<byte>)
    requires Known(c) && c.Text?
    ensures |c.Bytes()| == Length(c) && ChunkAt(pre + c.Bytes() + post, |pre|) == Some(c)
  {
    hide Short, ShortAt, HasString, StringAt;
    ShortSize(|c.s|);
    TextFound(pre, Word(c.tag), c.s, post);
  }

  lemma TextFound(pre: seq<byte>, tag: byte, t: seq<byte>, post: seq<byte>)
    requires |t| < 0x1_0000
    ensures var s := pre + ([tag] + Short(|t|) + t) + post;
      && |pre| < |s| && s[|pre|] == tag && HasString(s, |pre| + 1) && StringAt(s, |pre| + 1) == t
  {
    hide Short, ShortAt;
    ShortSize(|t|);
    ShortBack(|t|, pre + [tag], t + post);
    var s := pre + ([tag] + Short(|t|) + t) + post;
    assert s == (pre + [tag]) + Short(|t|) + (t + post);
  }

  lemma ShortSize(n: int)
    ensures |Short(n)| == 2
  {
  }

  /** A stored attribute is found again, whatever comes before and after. */
  lemma StoredChunk(pre: seq<byte>, c: Chunk, post: seq<byte>)
    requires Known(c)
    ensures |c.Bytes()| == Length(c) && ChunkAt(pre + c.Bytes() + post, |pre|) == Some(c)
  {
    match c {
      case Byte(_, v) =>
        var s := pre + c.Bytes() + post;
        assert s[|pre|] as int == c.tag && s[|pre| + 1] as int == v;
      case Two(_, _) => StoredTwo(pre, c, post);
      case Four(_, _) => StoredFour(pre, c, post);
      case Text(_, _) => StoredText(pre, c, post);
    }
  }

  /** The attributes that were written are read back in order. */
  lemma {:induction false} ReadWritten(kind: Kind, a: Attrs, pre: seq<byte>, chunks: seq<Chunk>, post: seq<byte>)
    requires forall i :: 0 <= i < |chunks| ==> Known(chunks[i])
    ensures Read(kind, a, pre + Write(chunks) + post, |pre|)
            == Read(kind, AllApplied(kind, a, chunks), pre + Write(chunks) + post, |pre| + |Write(chunks)|)
    decreases |chunks|
  {
    hide Read, Applied, Known, ChunkAt;
    if chunks != [] {
      var c, rest := chunks[0], chunks[1..];
      var s := pre + Write(chunks) + post;
      assert s == pre + c.Bytes() + (Write(rest) + post) == (pre + c.Bytes()) + Write(rest) + post;
      StoredChunk(pre, c, Write(rest) + post);
      ReadStep(kind, a, s, |pre|);
      ReadWritten(kind, Applied(kind, a, c), pre + c.Bytes(), rest, post);
    }
  }

  datatype Status = Continue | Error | End(count: int)

  method SetSubType(kind: Kind, a: Attrs, n: nat) returns (a': Attrs)
    ensures a' == WithSubType(kind, a, n)
  {
    var most := if n % 256 > 0 then n % 256 else 1;
    if kind.fluid {
      return a.(fluidType := n);
    }
    if kind.charges > 0 && !kind.stackable {
      return a.(charges := n);
    }
    return a.(count := most);
  }

  method ApplyByte(kind: Kind, a: Attrs, tag: int, v: nat) returns (a': Attrs)
    ensures a' == Applied(kind, a, Byte(tag, v))
  {
    a' := a;
    if tag == ATTR_COUNT || tag == ATTR_RUNE_CHARGES {
      a' := SetSubType(kind, a, v);
    } else if tag == ATTR_DECAYING_STATE && v > 0 {
      a' := a.(decay := Pending);
    }
  }

  method ApplyShort(kind: Kind, a: Attrs, tag: int, v: nat) returns (a': Attrs)
    ensures a' == Applied(kind, a, Two(tag, v))
  {
    a' := a;
    if tag == ATTR_CHARGES {
      a' := SetSubType(kind, a, v);
    } else if tag == ATTR_ACTION_ID {
      a' := a.(actionId := if v >= 100 then v else 100);
    } else if tag == ATTR_UNIQUE_ID {
      a' := a.(uniqueId := if v >= 1000 then v else 1000);
    }
  }

  method ApplyText(kind: Kind, a: Attrs, tag: int, text: seq<byte>) returns (a': Attrs)
    ensures a' == Applied(kind, a, Text(tag, text))
  {
    a' := a;
    if text == [] { return; }
    if tag == ATTR_TEXT {
      a' := a.(text := text);
    } else if tag == ATTR_WRITTENBY {
      a' := a.(writer := text);
    } else if tag == ATTR_DESC {
      a' := a.(desc := text);
    }
  }

  /** Reads the value of an attribute whose number has just been read. */
  method ReadAttr(kind: Kind, a: Attrs, tag: int, stream: PropStream) returns (status: Status, a': Attrs)
    requires stream.Valid() && 0 < stream.p && stream.data[stream.p - 1] as int == tag != 0
    modifies stream
    ensures stream.Valid() && stream.p >= old(stream.p)
    ensures match status
      case Continue => Read(kind, a, stream.data, old(stream.p) - 1) == Read(kind, a', stream.data, stream.p)
      case Error => Read(kind, a, stream.data, old(stream.p) - 1) == Failed
      case End(count) => count >= 0 && a' == a && Read(kind, a, stream.data, old(stream.p) - 1) == Items(a, stream.p, count)
  {
    a' := a;
    var ok, v, text := true, 0, [];
    if tag == ATTR_CONTAINER_ITEMS && kind.isContainer {
      ok, v := stream.GetUint32();
      if !ok { return Error, a; }
      return End(v), a;
    }
    if tag in {ATTR_COUNT, ATTR_RUNE_CHARGES, ATTR_DECAYING_STATE, ATTR_HOUSEDOORID} {
      ok, v := stream.GetUint8();
      if !ok { return Error, a; }
      a' := ApplyByte(kind, a, tag, v);
    } else if tag in {ATTR_ACTION_ID, ATTR_UNIQUE_ID, ATTR_CHARGES, ATTR_DEPOT_ID} {
      ok, v := stream.GetUint16();
      if !ok { return Error, a; }
      a' := ApplyShort(kind, a, tag, v);
    } else if tag in {ATTR_DURATION, ATTR_SLEEPERGUID, ATTR_SLEEPSTART} {
      ok, v := stream.GetUint32();
      if !ok { return Error, a; }
      if tag == ATTR_DURATION {
        a' := a'.(duration := Some(if v < 0x8000_0000 then v else 0));
      }
    } else if tag == ATTR_TELE_DEST {
      ok, v := stream.GetUint16();
      if !ok { return Error, a; }
      ok, v := stream.GetUint16();
      if !ok { return Error, a; }
      ok, v := stream.GetUint8();
      if !ok { return Error, a; }
    } else if tag in {ATTR_TEXT, ATTR_WRITTENBY, ATTR_DESC} {
      ok, text := stream.GetString();
      if !ok { return Error, a; }
      a' := ApplyText(kind, a, tag, text);
    } else {
      return Error, a;
    }
    return Continue, a';
  }

  /** Reads the attributes of an item. */
  method UnserializeAttr(kind: Kind, a: Attrs, stream: PropStream) returns (r: Reading)
    requires stream.Valid()
    modifies stream
    ensures stream.Valid() && r == Read(kind, a, stream.data, old(stream.p)) && (!r.Failed? ==> stream.p == r.p)
  {
    hide Applied;
    var a' := a;
    while true
      invariant stream.Valid() && stream.p >= old(stream.p)
      invariant Read(kind, a, stream.data, old(stream.p)) == Read(kind, a', stream.data, stream.p)
      decreases |stream.data| - stream.p
    {
      var ok, tag := stream.GetUint8();
      if !ok || tag == 0 {
        return Ended(a', stream.p);
      }
      var status;
      status, a' := ReadAttr(kind, a', tag, stream);
      match status {
        case Error => return Failed;
        case End(count) => return Items(a', stream.p, count);
        case Continue =>
      }
    }
  }

  lemma {:induction false} WriteJoin(a: seq<Chunk>, b: seq<Chunk>)
    ensures Write(a + b) == Write(a) + Write(b)
    decreases |a|
  {
    if a == [] {
      assert a + b == b;
    } else {
      assert (a + b)[1..] == a[1..] + b;
      WriteJoin(a[1..], b);
    }
  }

  lemma WriteOne(a: seq<Chunk>, c: Chunk)
    ensures Write(a + [c]) == Write(a) + c.Bytes()
  {
    WriteJoin(a, [c]);
    assert Write([c]) == c.Bytes() + Write([c][1..]);
  }

  /** Writes the attributes of an item. */
  method SerializeAttr(kind: Kind, a: Attrs, stream: PropWriteStream)
    modifies stream
    ensures stream.buffer == old(stream.buffer) + Write(Chunks(kind, a))
  {
    hide Write, Opt, SubType;
    ghost var base := stream.buffer;
    WriteNone();
    ghost var cs := AddIf(stream, base, [], kind.stackable || kind.fluid, Byte(ATTR_COUNT, SubType(kind, a) % 256));
    assert cs == Opt(kind.stackable || kind.fluid, Byte(ATTR_COUNT, SubType(kind, a) % 256));
    cs := AddIf(stream, base, cs, a.charges > 0, Two(ATTR_CHARGES, a.charges));
    cs := AddIf(stream, base, cs, kind.moveable && a.actionId != 0, Two(ATTR_ACTION_ID, a.actionId));
    cs := AddIf(stream, base, cs, a.text != [], Text(ATTR_TEXT, Cut(a.text)));
    cs := AddIf(stream, base, cs, a.writer != [], Text(ATTR_WRITTENBY, Cut(a.writer)));
    cs := AddIf(stream, base, cs, a.desc != [], Text(ATTR_DESC, Cut(a.desc)));
    cs := AddIf(stream, base, cs, a.duration.Some?, Four(ATTR_DURATION, Unsigned(if a.duration.Some? then a.duration.value else 0)));
    cs := AddIf(stream, base, cs, a.decay != NotDecaying, Byte(ATTR_DECAYING_STATE, if a.decay.Decaying? then 1 else 2));
  }

  lemma WriteNone()
    ensures Write([]) == []
  {
  }

  lemma Joined(a: seq<byte>, b: seq<byte>, c: seq<byte>)
    ensures (a + b) + c == a + (b + c)
  {
  }

  /** Writes an attribute that is to be written. */
  method AddIf(stream: PropWriteStream, ghost base: seq<byte>, ghost cs: seq<Chunk>, needed: bool, c: Chunk)
    returns (ghost cs': seq<Chunk>)
    requires stream.buffer == base + Write(cs)
    modifies stream
    ensures cs' == cs + Opt(needed, c) && stream.buffer == base + Write(cs')
  {
    hide Write;
    cs' := cs + Opt(needed, c);
    if needed {
      WriteOne(cs, c);
      stream.Add(c.Bytes());
      Joined(base, Write(cs), c.Bytes());
    } else {
      assert cs + [] == cs;
    }
  }

  /** The attributes an item has after it was written, created anew and read. */
  function Restored(kind: Kind, plain: Attrs, a: Attrs): Attrs {
    AllApplied(kind, plain, Chunks(kind, a))
  }

  predicate SubTypeKept(kind: Kind, a: Attrs) {
    if kind.fluid then a.count == 1 && a.charges == 0 && a.fluidType < 256
    else if kind.stackable then a.fluidType == 0 && a.charges == 0
    else if kind.charges != 0 then a.count == 1 && a.fluidType == 0 && a.charges > 0
    else a.count == 1 && a.fluidType == 0 && a.charges == 0
  }

  /** What survives being written and read: nothing that the format has no room for. If the load starts the decay
      of the item, and its type decays at all, it must have been decaying, with some time left; otherwise not.
   */
  predicate Faithful(kind: Kind, a: Attrs, starts: bool) {
    && a.uniqueId == 0 && (kind.moveable || a.actionId == 0) && a.owner == 0
    && |a.text| < 0x1_0000 && |a.writer| < 0x1_0000 && |a.desc| < 0x1_0000
    && (match a.duration case None => kind.decayTime == 0 case Some(d) => d >= 0)
    && (if starts && kind.decays && kind.decayTime != 0 then a.decay.Decaying? && Duration(a) > DecayWheels.NEGLIGIBLE
        else !a.decay.Decaying?)
    && SubTypeKept(kind, a)
  }

  function Duration(a: Attrs): int {
    if a.duration.Some? then a.duration.value else 0
  }

  /** canDecay, for an item that lies on a tile, at whatever depth. */
  predicate CanDecay(kind: Kind, a: Attrs) {
    a.uniqueId == 0 && kind.decays && kind.decayTime != 0
  }

  /** startDecay, for an item that lies on a tile. */
  function Started(kind: Kind, a: Attrs): Attrs {
    if !CanDecay(kind, a) || a.decay.Decaying? then a
    else if Duration(a) > DecayWheels.NEGLIGIBLE then a.(decay := Decaying)
    else a.(decay := Spent)
  }

  method StartDecay(kind: Kind, a: Attrs) returns (r: Attrs)
    ensures r == Started(kind, a)
  {
    r := a;
    if CanDecay(kind, a) {
      if a.decay == Decaying { return; }
      if Duration(a) > DecayWheels.NEGLIGIBLE {
        r := a.(decay := Decaying);
      } else {
        r := a.(decay := Spent);
      }
    }
  }

  /** The attributes of an item that was written and created anew, its decay started or not. */
  function Back(kind: Kind, a: Attrs, count: nat, starts: bool): Attrs {
    var r := Restored(kind, Created(kind, count), a);
    if starts then Started(kind, r) else r
  }

  lemma {:induction false} AppliedJoin(kind: Kind, a: Attrs, cs: seq<Chunk>, ds: seq<Chunk>)
    ensures AllApplied(kind, a, cs + ds) == AllApplied(kind, AllApplied(kind, a, cs), ds)
    decreases |cs|
  {
    hide Applied;
    if cs == [] {
      assert cs + ds == ds;
    } else {
      assert (cs + ds)[1..] == cs[1..] + ds;
      AppliedJoin(kind, Applied(kind, a, cs[0]), cs[1..], ds);
    }
  }

  lemma AppliedOpt(kind: Kind, a: Attrs, cs: seq<Chunk>, needed: bool, c: Chunk)
    ensures AllApplied(kind, a, cs + Opt(needed, c))
            == if needed then Applied(kind, AllApplied(kind, a, cs), c) else AllApplied(kind, a, cs)
  {
    hide Applied;
    AppliedJoin(kind, a, cs, Opt(needed, c));
    if needed {
      var b := AllApplied(kind, a, cs);
      assert AllApplied(kind, b, [c]) == AllApplied(kind, Applied(kind, b, c), [c][1..]);
    }
  }

  function IfApplied(kind: Kind, a: Attrs, needed: bool, c: Chunk): Attrs {
    if needed then Applied(kind, a, c) else a
  }

  /** An item after the first four were read. */
  function FirstBack(kind: Kind, plain: Attrs, a: Attrs): Attrs {
    var a2 := SubTypesBack(kind, plain, a);
    var a3 := IfApplied(kind, a2, kind.moveable && a.actionId != 0, Two(ATTR_ACTION_ID, a.actionId));
    IfApplied(kind, a3, a.text != [], Text(ATTR_TEXT, Cut(a.text)))
  }

  lemma FirstInTurn(kind: Kind, plain: Attrs, a: Attrs)
    ensures AllApplied(kind, plain, FirstChunks(kind, a)) == FirstBack(kind, plain, a)
  {
    hide Applied, Opt, SubType, AllApplied, Cut, Unsigned;
    var c1 := Opt(kind.stackable || kind.fluid, Byte(ATTR_COUNT, SubType(kind, a) % 256));
    var c2 := c1 + Opt(a.charges > 0, Two(ATTR_CHARGES, a.charges));
    var c3 := c2 + Opt(kind.moveable && a.actionId != 0, Two(ATTR_ACTION_ID, a.actionId));
    AppliedNone(kind, plain);
    assert c1 == [] + c1;
    AppliedOpt(kind, plain, [], kind.stackable || kind.fluid, Byte(ATTR_COUNT, SubType(kind, a) % 256));
    AppliedOpt(kind, plain, c1, a.charges > 0, Two(ATTR_CHARGES, a.charges));
    AppliedOpt(kind, plain, c2, kind.moveable && a.actionId != 0, Two(ATTR_ACTION_ID, a.actionId));
    AppliedOpt(kind, plain, c3, a.text != [], Text(ATTR_TEXT, Cut(a.text)));
  }

  /** The restored attributes, one after the other. */
  lemma RestoredInTurn(kind: Kind, plain: Attrs, a: Attrs)
    ensures Restored(kind, plain, a)
      == var a4 := FirstBack(kind, plain, a);
         var a5 := IfApplied(kind, a4, a.writer != [], Text(ATTR_WRITTENBY, Cut(a.writer)));
         var a6 := IfApplied(kind, a5, a.desc != [], Text(ATTR_DESC, Cut(a.desc)));
         var a7 := IfApplied(kind, a6, a.duration.Some?, Four(ATTR_DURATION, Unsigned(if a.duration.Some? then a.duration.value else 0)));
         IfApplied(kind, a7, a.decay != NotDecaying, Byte(ATTR_DECAYING_STATE, if a.decay.Decaying? then 1 else 2))
  {
    hide Applied, Opt, SubType, AllApplied, Cut, Unsigned, FirstBack;
    var c4 := FirstChunks(kind, a);
    var c5 := c4 + Opt(a.writer != [], Text(ATTR_WRITTENBY, Cut(a.writer)));
    var c6 := c5 + Opt(a.desc != [], Text(ATTR_DESC, Cut(a.desc)));
    var c7 := c6 + Opt(a.duration.Some?, Four(ATTR_DURATION, Unsigned(if a.duration.Some? then a.duration.value else 0)));
    FirstInTurn(kind, plain, a);
    AppliedOpt(kind, plain, c4, a.writer != [], Text(ATTR_WRITTENBY, Cut(a.writer)));
    AppliedOpt(kind, plain, c5, a.desc != [], Text(ATTR_DESC, Cut(a.desc)));
    AppliedOpt(kind, plain, c6, a.duration.Some?, Four(ATTR_DURATION, Unsigned(if a.duration.Some? then a.duration.value else 0)));
    AppliedOpt(kind, plain, c7, a.decay != NotDecaying, Byte(ATTR_DECAYING_STATE, if a.decay.Decaying? then 1 else 2));
  }

  lemma AppliedNone(kind: Kind, a: Attrs)
    ensures AllApplied(kind, a, []) == a
  {
  }

  /** The part of the attributes that the sub type stands for, after it was written and read. */
  function SubTypesBack(kind: Kind, plain: Attrs, a: Attrs): Attrs {
    var a1 := IfApplied(kind, plain, kind.stackable || kind.fluid, Byte(ATTR_COUNT, SubType(kind, a) % 256));
    IfApplied(kind, a1, a.charges > 0, Two(ATTR_CHARGES, a.charges))
  }

  function StringBack(plain: seq<byte>, s: seq<byte>): seq<byte> {
    if Cut(s) == [] then plain else Cut(s)
  }

  function DurationBack(plain: Option<int>, d: Option<int>): Option<int> {
    if d.None? then plain else if d.value < 0 then Some(0) else d
  }

  lemma OthersApplied(kind: Kind, a: Attrs)
    ensures forall n, v: nat :: IfApplied(kind, a, n, Two(ATTR_ACTION_ID, v)) == if n then a.(actionId := AtLeast(v, 100)) else a
    ensures forall n, s :: IfApplied(kind, a, n, Text(ATTR_TEXT, s)) == if n && s != [] then a.(text := s) else a
    ensures forall n, s :: IfApplied(kind, a, n, Text(ATTR_WRITTENBY, s)) == if n && s != [] then a.(writer := s) else a
    ensures forall n, s :: IfApplied(kind, a, n, Text(ATTR_DESC, s)) == if n && s != [] then a.(desc := s) else a
    ensures forall n, v :: IfApplied(kind, a, n, Four(ATTR_DURATION, v))
                           == if n then a.(duration := Some(if v >= 0x8000_0000 then 0 else v)) else a
    ensures forall n, v :: IfApplied(kind, a, n, Byte(ATTR_DECAYING_STATE, v)) == if n && v != 0 then a.(decay := Pending) else a
  {
  }

  /** Every field of the restored attributes. */
  lemma RestoredFields(kind: Kind, plain: Attrs, a: Attrs)
    requires a.Typed()
    ensures var b := SubTypesBack(kind, plain, a);
      Restored(kind, plain, a)
      == b.(actionId := if kind.moveable && a.actionId != 0 then a.actionId else b.actionId,
            text := StringBack(b.text, a.text), writer := StringBack(b.writer, a.writer), desc := StringBack(b.desc, a.desc),
            duration := DurationBack(b.duration, a.duration), decay := if a.decay == NotDecaying then b.decay else Pending)
  {
    hide Restored, Applied, IfApplied, SubType;
    RestoredInTurn(kind, plain, a);
    var a2 := SubTypesBack(kind, plain, a);
    OthersApplied(kind, a2);
    var a3 := IfApplied(kind, a2, kind.moveable && a.actionId != 0, Two(ATTR_ACTION_ID, a.actionId));
    OthersApplied(kind, a3);
    var a4 := IfApplied(kind, a3, a.text != [], Text(ATTR_TEXT, Cut(a.text)));
    OthersApplied(kind, a4);
    var a5 := IfApplied(kind, a4, a.writer != [], Text(ATTR_WRITTENBY, Cut(a.writer)));
    OthersApplied(kind, a5);
    var a6 := IfApplied(kind, a5, a.desc != [], Text(ATTR_DESC, Cut(a.desc)));
    OthersApplied(kind, a6);
    var a7 := IfApplied(kind, a6, a.duration.Some?, Four(ATTR_DURATION, Unsigned(if a.duration.Some? then a.duration.value else 0)));
    OthersApplied(kind, a7);
  }

  lemma SubTypesKeepOthers(kind: Kind, plain: Attrs, a: Attrs)
    requires a.Typed()
    ensures var b := SubTypesBack(kind, plain, a);
      b == plain.(count := b.count, fluidType := b.fluidType, charges := b.charges)
  {
  }

  lemma StringFaithful(s: seq<byte>)
    ensures StringBack([], s) == s <==> |s| < 0x1_0000
  {
  }

  /** The attributes of an item come back from the store exactly if they are faithful, whether the item was
      created without a count, as from the binary store, or with its sub type, as from the relational one.
   */
  lemma AttributesBack(kind: Kind, a: Attrs, count: nat, starts: bool)
    requires a.Typed() && kind.Sane() && (count == 0 || count == SubType(kind, a))
    ensures Back(kind, a, count, starts) == a <==> Faithful(kind, a, starts)
  {
    hide Restored, SubTypesBack, StringBack, SubTypeKept;
    RestoredFields(kind, Created(kind, count), a);
    SubTypesKeepOthers(kind, Created(kind, count), a);
    SubTypeFaithful(kind, a, count);
    StringFaithful(a.text);
    StringFaithful(a.writer);
    StringFaithful(a.desc);
  }

  /** Starting decays a type that can: with time left it decays whatever its mark was, without it has decayed. */
  lemma DecayStarts(kind: Kind, a: Attrs, count: nat)
    requires a.Typed() && kind.Sane() && kind.decays && kind.decayTime != 0 && a.duration.Some?
    ensures Back(kind, a, count, true).decay == if Duration(a) > DecayWheels.NEGLIGIBLE then Decaying else Spent
    ensures Back(kind, a, count, false).decay == if a.decay == NotDecaying then NotDecaying else Pending
  {
    hide Restored;
    RestoredFields(kind, Created(kind, count), a);
  }

  lemma SubTypeFaithful(kind: Kind, a: Attrs, count: nat)
    requires a.Typed() && kind.Sane() && (count == 0 || count == SubType(kind, a))
    ensures var b := SubTypesBack(kind, Created(kind, count), a);
      b.count == a.count && b.fluidType == a.fluidType && b.charges == a.charges <==> SubTypeKept(kind, a)
  {
    if kind.fluid {
    } else if kind.stackable {
    } else if kind.charges != 0 {
    }
  }

  /** An item that has used up its charges is stored without them, and comes back with all that its type has. */
  lemma UsedUpRefilled(kind: Kind, a: Attrs, count: nat)
    requires a.Typed() && kind.Sane() && (count == 0 || count == SubType(kind, a))
    requires !kind.fluid && !kind.stackable && kind.charges != 0 && a.charges == 0
    ensures Restored(kind, Created(kind, count), a).charges == kind.charges
  {
    hide Restored;
    RestoredFields(kind, Created(kind, count), a);
  }

  /** A stack keeps its count, whatever charges its type has by default. */
  lemma StackKept(kind: Kind, a: Attrs, count: nat)
    requires a.Typed() && kind.Sane() && (count == 0 || count == SubType(kind, a))
    requires !kind.fluid && kind.stackable && a.charges == 0
    ensures Restored(kind, Created(kind, count), a).count == a.count
  {
    hide Restored;
    RestoredFields(kind, Created(kind, count), a);
  }

  // ---------- Items ----------

  /** An item with what it holds, front first, and the totals a container keeps. */
  datatype Item = Item(id: nat, attrs: Attrs, kids: seq<Item>, amountOfItems: int, totalWeight: int)

  function NewItem(id: nat, attrs: Attrs): Item {
    Item(id, attrs, [], 1, 0)
  }

  function Weight(kinds: Kinds, it: Item): (weight: int)
    ensures weight - it.totalWeight == kinds(it.id).weight * if kinds(it.id).stackable && it.attrs.count > 1 then it.attrs.count else 1
  {
    (if kinds(it.id).stackable then kinds(it.id).weight * AtLeast(it.attrs.count, 1) else kinds(it.id).weight) + it.totalWeight
  }

  /** An item that is complete comes into a container that is in no other one yet. */
  function PushFront(kinds: Kinds, container: Item, it: Item): Item {
    container.(kids := [it] + container.kids,
               amountOfItems := container.amountOfItems + it.amountOfItems,
               totalWeight := container.totalWeight + Weight(kinds, it))
  }

  function Amounts(kids: seq<Item>): int {
    if kids == [] then 0 else Amounts(kids[..|kids| - 1]) + kids[|kids| - 1].amountOfItems
  }

  function Weights(kinds: Kinds, kids: seq<Item>): int {
    if kids == [] then 0 else Weights(kinds, kids[..|kids| - 1]) + Weight(kinds, kids[|kids| - 1])
  }

  /** The items of a list, from the last to the first, come into a container. */
  function Filled(kinds: Kinds, container: Item, kids: seq<Item>): Item
    decreases |kids|
  {
    if kids == [] then container
    else Filled(kinds, PushFront(kinds, container, kids[|kids| - 1]), kids[..|kids| - 1])
  }

  /** Pushing to the front from the last to the first restores the order and adds up the totals. */
  lemma {:induction false} FilledInOrder(kinds: Kinds, container: Item, kids: seq<Item>)
    ensures Filled(kinds, container, kids)
            == container.(kids := kids + container.kids,
                          amountOfItems := container.amountOfItems + Amounts(kids),
                          totalWeight := container.totalWeight + Weights(kinds, kids))
    decreases |kids|
  {
    if kids == [] {
      assert kids + container.kids == container.kids;
    } else {
      var front, last := kids[..|kids| - 1], kids[|kids| - 1];
      FilledInOrder(kinds, PushFront(kinds, container, last), front);
      assert front + ([last] + container.kids) == kids + container.kids;
    }
  }

  /** How many items there are in a list, with everything inside them. */
  function ItemsInside(it: Item): nat {
    1 + ItemsInAll(it.kids)
  }

  function ItemsInAll(kids: seq<Item>): nat {
    if kids == [] then 0 else ItemsInAll(kids[..|kids| - 1]) + ItemsInside(kids[|kids| - 1])
  }

  predicate AllKnown(chunks: seq<Chunk>) {
    forall i :: 0 <= i < |chunks| ==> Known(chunks[i])
  }

  lemma KnownOpt(chunks: seq<Chunk>, needed: bool, c: Chunk)
    requires AllKnown(chunks) && (needed ==> Known(c))
    ensures AllKnown(chunks + Opt(needed, c))
  {
    hide Known;
  }

  lemma CutFits(s: seq<byte>)
    ensures Known(Text(ATTR_TEXT, Cut(s))) && Known(Text(ATTR_WRITTENBY, Cut(s))) && Known(Text(ATTR_DESC, Cut(s)))
  {
  }

  /** The attributes of an item are known chunks. */
  lemma ChunksKnown(kind: Kind, a: Attrs)
    requires a.Typed()
    ensures AllKnown(Chunks(kind, a))
  {
    hide AllKnown, Opt, SubType, Cut;
    var c1 := [] + Opt(kind.stackable || kind.fluid, Byte(ATTR_COUNT, SubType(kind, a) % 256));
    var c2 := c1 + Opt(a.charges > 0, Two(ATTR_CHARGES, a.charges));
    var c3 := c2 + Opt(kind.moveable && a.actionId != 0, Two(ATTR_ACTION_ID, a.actionId));
    var c4 := c3 + Opt(a.text != [], Text(ATTR_TEXT, Cut(a.text)));
    var c5 := c4 + Opt(a.writer != [], Text(ATTR_WRITTENBY, Cut(a.writer)));
    var c6 := c5 + Opt(a.desc != [], Text(ATTR_DESC, Cut(a.desc)));
    var duration := Four(ATTR_DURATION, Unsigned(if a.duration.Some? then a.duration.value else 0));
    var c7 := c6 + Opt(a.duration.Some?, duration);
    NoneKnown();
    KnownOpt([], kind.stackable || kind.fluid, Byte(ATTR_COUNT, SubType(kind, a) % 256));
    KnownOpt(c1, a.charges > 0, Two(ATTR_CHARGES, a.charges));
    KnownOpt(c2, kind.moveable && a.actionId != 0, Two(ATTR_ACTION_ID, a.actionId));
    CutFits(a.text);
    KnownOpt(c3, a.text != [], Text(ATTR_TEXT, Cut(a.text)));
    CutFits(a.writer);
    KnownOpt(c4, a.writer != [], Text(ATTR_WRITTENBY, Cut(a.writer)));
    CutFits(a.desc);
    KnownOpt(c5, a.desc != [], Text(ATTR_DESC, Cut(a.desc)));
    KnownOpt(c6, a.duration.Some?, duration);
    KnownOpt(c7, a.decay != NotDecaying, Byte(ATTR_DECAYING_STATE, if a.decay.Decaying? then 1 else 2));
    assert c1 == Opt(kind.stackable || kind.fluid, Byte(ATTR_COUNT, SubType(kind, a) % 256));
  }

  lemma NoneKnown()
    ensures AllKnown([])
  {
  }

  /** An item that the store can hold: of a known type, with fields in their ranges, and things inside containers only. */
  predicate Storable(kinds: Kinds, it: Item)
    decreases it
  {
    && 0 < it.id < 0x1_0000 && kinds(it.id).known && kinds(it.id).Sane() && it.attrs.Typed()
    && |it.kids| < 0x1_0000_0000 && (it.kids != [] ==> kinds(it.id).isContainer)
    && forall k :: k in it.kids ==> Storable(kinds, k)
  }

  /** An item as a load creates it: with the sub type it was stored with, or without. */
  function CreatedBack(kinds: Kinds, it: Item, counted: bool): Attrs {
    Created(kinds(it.id), if counted then SubType(kinds(it.id), it.attrs) else 0)
  }

  /** What becomes of an item that is saved and loaded: the attributes are restored, the totals counted anew. */
  function Rebuilt(kinds: Kinds, it: Item, counted: bool): (r: Item)
    ensures r.id == it.id && |r.kids| == |it.kids|
    decreases it, 1
  {
    var kids := RebuiltAll(kinds, it.kids, counted);
    Item(it.id, Restored(kinds(it.id), CreatedBack(kinds, it, counted), it.attrs), kids, 1 + Amounts(kids), Weights(kinds, kids))
  }

  function RebuiltAll(kinds: Kinds, kids: seq<Item>, counted: bool): (r: seq<Item>)
    ensures |r| == |kids|
    decreases kids, 0
  {
    if kids == [] then [] else RebuiltAll(kinds, kids[..|kids| - 1], counted) + [Rebuilt(kinds, kids[|kids| - 1], counted)]
  }

  /** Where an item comes to lie while it is loaded, which says whether its decay is started: nowhere yet, so that
      nothing is; put into a container that is on a tile already; on the tile itself, where what a container holds
      comes later or is there already (`full`); or inside something that starts the decay of all it holds.
   */
  datatype Stage = Loose | Put | OnTile(full: bool) | Deep

  /** A container passes on the start of decay to what it holds, and does not start its own. */
  predicate Starts(kind: Kind, stage: Stage) {
    match stage
    case Loose => false
    case Put => true
    case OnTile(_) => kind.moveable && !kind.isContainer
    case Deep => !kind.isContainer
  }

  function Inner(stage: Stage): Stage {
    match stage
    case Loose => Loose
    case Put => Loose
    case OnTile(full) => if full then Deep else Put
    case Deep => Deep
  }

  /** An item with its decay started, and that of what it holds, as far as the stage wants. */
  function Begun(kinds: Kinds, it: Item, stage: Stage): (r: Item)
    ensures r.id == it.id && |r.kids| == |it.kids| && r.amountOfItems == it.amountOfItems && r.totalWeight == it.totalWeight
    decreases it
  {
    it.(attrs := if Starts(kinds(it.id), stage) then Started(kinds(it.id), it.attrs) else it.attrs,
        kids := seq(|it.kids|, i requires 0 <= i < |it.kids| => Begun(kinds, it.kids[i], Inner(stage))))
  }

  function BegunAll(kinds: Kinds, kids: seq<Item>, stage: Stage): (r: seq<Item>)
    ensures |r| == |kids|
  {
    seq(|kids|, i requires 0 <= i < |kids| => Begun(kinds, kids[i], stage))
  }

  /** An item starts to decay, and a container lets what it holds start to. */
  method StartDecaying(kinds: Kinds, it: Item, stage: Stage) returns (r: Item)
    ensures r == Begun(kinds, it, stage)
    decreases it
  {
    var kids := [];
    for i := 0 to |it.kids|
      invariant |kids| == i && forall k :: 0 <= k < i ==> kids[k] == Begun(kinds, it.kids[k], Inner(stage))
    {
      var kid := StartDecaying(kinds, it.kids[i], Inner(stage));
      kids := kids + [kid];
    }
    var attrs := it.attrs;
    if Starts(kinds(it.id), stage) {
      attrs := StartDecay(kinds(it.id), it.attrs);
    }
    r := it.(attrs := attrs, kids := kids);
  }

  lemma {:induction false} BegunLoose(kinds: Kinds, it: Item)
    ensures Begun(kinds, it, Loose) == it
    decreases it
  {
    hide Started;
    forall i | 0 <= i < |it.kids|
      ensures Begun(kinds, it.kids[i], Loose) == it.kids[i]
    {
      BegunLoose(kinds, it.kids[i]);
    }
  }

  /** Putting one more item into a container whose decay has begun. */
  lemma BegunFront(kinds: Kinds, container: Item, it: Item, stage: Stage)
    ensures Begun(kinds, PushFront(kinds, container, it), stage)
            == PushFront(kinds, Begun(kinds, container, stage), Begun(kinds, it, Inner(stage)))
  {
    hide Started, Starts;
    var c := PushFront(kinds, container, it);
    BegunWeight(kinds, it, Inner(stage));
    forall i | 0 <= i < |c.kids|
      ensures Begun(kinds, c, stage).kids[i] == ([Begun(kinds, it, Inner(stage))] + Begun(kinds, container, stage).kids)[i]
    {
    }
  }

  lemma BegunWeight(kinds: Kinds, it: Item, stage: Stage)
    ensures Weight(kinds, Begun(kinds, it, stage)) == Weight(kinds, it)
  {
  }

  /** An item whose attributes the store has room for, and whose totals are right, and so with all it holds. */
  predicate Sound(kinds: Kinds, it: Item, stage: Stage)
    decreases it
  {
    && Faithful(kinds(it.id), it.attrs, Starts(kinds(it.id), stage))
    && it.amountOfItems == 1 + Amounts(it.kids) && it.totalWeight == Weights(kinds, it.kids)
    && forall k :: k in it.kids ==> Sound(kinds, k, Inner(stage))
  }

  /** An item that is saved and loaded, and started where it lies, is what it was exactly if it is sound. */
  lemma {:induction false} RebuiltSame(kinds: Kinds, it: Item, counted: bool, stage: Stage)
    requires Storable(kinds, it)
    ensures Begun(kinds, Rebuilt(kinds, it, counted), stage) == it <==> Sound(kinds, it, stage)
    decreases it, 1
  {
    hide Back, Created, Faithful, Storable, Weight, Starts, Started, Restored;
    StorableFacts(kinds, it);
    AttributesBack(kinds(it.id), it.attrs, if counted then SubType(kinds(it.id), it.attrs) else 0, Starts(kinds(it.id), stage));
    BegunBack(kinds, it, counted, stage);
    var kids := RebuiltAll(kinds, it.kids, counted);
    RebuiltAllSame(kinds, it.kids, counted, Inner(stage));
    BegunTotals(kinds, kids, Inner(stage));
  }

  lemma BegunBack(kinds: Kinds, it: Item, counted: bool, stage: Stage)
    ensures var r := Begun(kinds, Rebuilt(kinds, it, counted), stage);
      && r.attrs == Back(kinds(it.id), it.attrs, if counted then SubType(kinds(it.id), it.attrs) else 0, Starts(kinds(it.id), stage))
      && r.kids == BegunAll(kinds, RebuiltAll(kinds, it.kids, counted), Inner(stage))
      && r.amountOfItems == 1 + Amounts(RebuiltAll(kinds, it.kids, counted))
      && r.totalWeight == Weights(kinds, RebuiltAll(kinds, it.kids, counted))
  {
    hide Restored, Started, Starts, Created, Weight;
  }

  lemma {:induction false} BegunTotals(kinds: Kinds, kids: seq<Item>, stage: Stage)
    ensures Amounts(BegunAll(kinds, kids, stage)) == Amounts(kids) && Weights(kinds, BegunAll(kinds, kids, stage)) == Weights(kinds, kids)
    decreases |kids|
  {
    hide Begun, Weight;
    if kids != [] {
      var front, last := kids[..|kids| - 1], kids[|kids| - 1];
      BegunTotals(kinds, front, stage);
      BegunWeight(kinds, last, stage);
      assert BegunAll(kinds, kids, stage)[..|kids| - 1] == BegunAll(kinds, front, stage);
    }
  }

  lemma StorableFacts(kinds: Kinds, it: Item)
    requires Storable(kinds, it)
    ensures kinds(it.id).Sane() && it.attrs.Typed() && forall k :: k in it.kids ==> Storable(kinds, k)
  {
  }

  lemma {:induction false} RebuiltAllSame(kinds: Kinds, kids: seq<Item>, counted: bool, stage: Stage)
    requires forall k :: k in kids ==> Storable(kinds, k)
    ensures BegunAll(kinds, RebuiltAll(kinds, kids, counted), stage) == kids <==> forall k :: k in kids ==> Sound(kinds, k, stage)
    decreases kids, 0
  {
    hide Rebuilt, Sound, Storable, Begun;
    if kids != [] {
      var front, last := kids[..|kids| - 1], kids[|kids| - 1];
      assert kids == front + [last];
      RebuiltAllSame(kinds, front, counted, stage);
      RebuiltSame(kinds, last, counted, stage);
      var all := BegunAll(kinds, RebuiltAll(kinds, kids, counted), stage);
      assert all == BegunAll(kinds, RebuiltAll(kinds, front, counted), stage) + [Begun(kinds, Rebuilt(kinds, last, counted), stage)];
    }
  }

  const BURNING: Attrs := PLAIN.(duration := Some(5000), decay := Decaying)

  function Burning(id: nat): Item { Item(id, BURNING, [], 1, 0) }
  function Bag(it: Item): Item { Item(1, PLAIN, [it], 1 + it.amountOfItems, it.totalWeight) }

  /** Bags, torches that burn down, and bodies, which are containers that do. */
  function Sorts(id: nat): Kind {
    match id
    case 1 => Kind(true, false, false, 0, true, 0, false, true, 0)
    case 2 => Kind(true, false, false, 0, true, 10, true, false, 0)
    case _ => Kind(true, false, false, 0, true, 10, true, true, 0)
  }

  /** A torch that burns on the tile burns on; one that does not, or not yet, is lit by the load. In a bag in a bag only
      the binary store lets it burn on. A body that decays on the tile does not decay on; in a bag it does so only from
      the relational store.
   */
  lemma Torches(full: bool)
    ensures Storable(Sorts, Burning(2)) && Sound(Sorts, Burning(2), OnTile(full))
    ensures forall d :: d != Decaying ==> !Sound(Sorts, Burning(2).(attrs := BURNING.(decay := d)), OnTile(full))
    ensures !Sound(Sorts, Burning(2).(attrs := BURNING.(duration := Some(499))), OnTile(full))
    ensures Storable(Sorts, Bag(Bag(Burning(2)))) && (Sound(Sorts, Bag(Bag(Burning(2))), OnTile(full)) <==> full)
    ensures Storable(Sorts, Bag(Burning(3))) && !Sound(Sorts, Burning(3), OnTile(full))
    ensures Sound(Sorts, Bag(Burning(3)), OnTile(full)) <==> !full
  {
    hide Sound, Storable, Faithful;
    forall d: Decay | d != Decaying
      ensures !Sound(Sorts, Burning(2).(attrs := BURNING.(decay := d)), OnTile(full))
    {
      Alone(2, d, 5000, OnTile(full));
    }
    Alone(2, Decaying, 499, OnTile(full));
    Alone(2, Decaying, 5000, OnTile(full));
    Alone(2, Decaying, 5000, Inner(OnTile(full)));
    Alone(2, Decaying, 5000, Inner(Inner(OnTile(full))));
    Alone(3, Decaying, 5000, OnTile(full));
    Alone(3, Decaying, 5000, Inner(OnTile(full)));
    InBag(Burning(2), Inner(OnTile(full)));
    InBag(Bag(Burning(2)), OnTile(full));
    InBag(Burning(3), OnTile(full));
  }

  lemma Alone(id: nat, d: Decay, left: int, stage: Stage)
    requires id == 2 || id == 3
    ensures var it := Burning(id).(attrs := BURNING.(decay := d, duration := Some(left)));
      && (Sound(Sorts, it, stage) <==> left >= 0 && if Starts(Sorts(id), stage) then d.Decaying? && left > 499 else !d.Decaying?)
      && (Storable(Sorts, it) <==> -0x8000_0000 <= left < 0x8000_0000 && !d.Spent?)
  {
    hide Starts;
  }

  lemma InBag(it: Item, stage: Stage)
    ensures Storable(Sorts, Bag(it)) <==> Storable(Sorts, it)
    ensures it.totalWeight == 0 && Sorts(it.id).weight == 0 ==>
      (Sound(Sorts, Bag(it), stage) <==> Sound(Sorts, it, Inner(stage)))
  {
    assert [it][..0] == [];
    assert Amounts([it]) == it.amountOfItems && Weights(Sorts, [it]) == Weight(Sorts, it);
    assert it in [it];
  }

  /** The totals of what was loaded count everything that is inside. */
  lemma {:induction false} RebuiltAmount(kinds: Kinds, it: Item, counted: bool)
    ensures Rebuilt(kinds, it, counted).amountOfItems == ItemsInside(it)
    decreases it, 1
  {
    RebuiltAmounts(kinds, it.kids, counted);
  }

  lemma {:induction false} RebuiltAmounts(kinds: Kinds, kids: seq<Item>, counted: bool)
    ensures Amounts(RebuiltAll(kinds, kids, counted)) == ItemsInAll(kids)
    decreases kids, 0
  {
    hide Rebuilt;
    if kids != [] {
      var front, last := kids[..|kids| - 1], kids[|kids| - 1];
      RebuiltAmounts(kinds, front, counted);
      RebuiltAmount(kinds, last, counted);
      var all := RebuiltAll(kinds, kids, counted);
      assert all[..|all| - 1] == RebuiltAll(kinds, front, counted);
    }
  }

  lemma FilledBack(kinds: Kinds, it: Item, counted: bool)
    ensures Filled(kinds, NewItem(it.id, Restored(kinds(it.id), CreatedBack(kinds, it, counted), it.attrs)), RebuiltAll(kinds, it.kids, counted))
            == Rebuilt(kinds, it, counted)
  {
    hide Restored, CreatedBack;
    var kids := RebuiltAll(kinds, it.kids, counted);
    FilledInOrder(kinds, NewItem(it.id, Restored(kinds(it.id), CreatedBack(kinds, it, counted), it.attrs)), kids);
    assert kids + [] == kids;
  }

  lemma RebuiltLast(kinds: Kinds, kids: seq<Item>, counted: bool)
    requires kids != []
    ensures var all, front := RebuiltAll(kinds, kids, counted), kids[..|kids| - 1];
      |all| == |kids| && all[..|all| - 1] == RebuiltAll(kinds, front, counted) && all[|all| - 1] == Rebuilt(kinds, kids[|kids| - 1], counted)
  {
    hide Rebuilt;
  }

  lemma PlainRebuilt(kinds: Kinds, it: Item, counted: bool)
    requires it.kids == []
    ensures Rebuilt(kinds, it, counted) == NewItem(it.id, Restored(kinds(it.id), CreatedBack(kinds, it, counted), it.attrs))
  {
    hide Restored, CreatedBack;
  }

  /** The attributes that were written are restored, and reading stops where they end. */
  lemma AttributesRead(kind: Kind, plain: Attrs, a: Attrs, pre: seq<byte>, rest: seq<byte>)
    requires a.Typed()
    ensures var w := Write(Chunks(kind, a));
      Read(kind, plain, pre + w + rest, |pre|) == Read(kind, Restored(kind, plain, a), pre + w + rest, |pre| + |w|)
  {
    hide Read, Write, Chunks, Known, AllApplied;
    ChunksKnown(kind, a);
    ReadWritten(kind, plain, pre, Chunks(kind, a), rest);
  }
}
