/** The three message layouts, built by the file system and parsed by the TCP
    manager.  Trees and host tables travel as opaque byte strings. */
module Payload {
  import opened ByteOrder
  import opened Framing

  datatype Content =
    | Join(tree: Bytes, host: Bytes)
    | Recognition(slaveId: UInt64, tree: Bytes, hosts: Bytes)
    | Update(tree: Bytes, hosts: Bytes)

  /** How a parser ends: with the fields it passes on, without effect because the
      type is not one it handles, or reading past the end of the packet. */
  datatype Parsed = Dispatched(content: Content, consumed: nat) | Ignored | Overrun

  /** The fields are 64-bit quantities. */
  predicate Representable(c: Content) {
    match c
    case Join(t, h) => |t| < TWO_64 && |h| < TWO_64
    case Recognition(_, t, h) => |t| < TWO_64 && |h| < TWO_64
    case Update(t, h) => |t| < TWO_64 && |h| < TWO_64
  }

  /** Every number in the message survives the integer codec. */
  predicate Survives(c: Content)
    requires Representable(c)
  {
    match c
    case Join(t, h) => TopBytesEqual(|t|) && TopBytesEqual(|h|)
    case Recognition(id, t, h) => TopBytesEqual(id) && TopBytesEqual(|t|) && TopBytesEqual(|h|)
    case Update(t, h) => TopBytesEqual(|t|) && TopBytesEqual(|h|)
  }

  function Prefixed(b: Bytes): Bytes
    requires |b| < TWO_64
  {
    Encode(|b|) + b
  }

  function Build(c: Content): Message
    requires Representable(c)
  {
    match c
    case Join(t, h) => Encode(0) + (Prefixed(t) + Prefixed(h))
    case Recognition(id, t, h) => Encode(1) + (Encode(id) + (Prefixed(t) + Prefixed(h)))
    case Update(t, h) => Encode(2) + (Prefixed(t) + Prefixed(h))
  }

  function NumberAt(data: Bytes, at: nat): UInt64
    requires at + 8 <= |data|
  {
    Decode(data[at..at + 8])
  }

  /** A length-prefixed string at a position, and where the next field starts;
      nothing when a read would leave the packet. */
  datatype Field = NoField | Field(value: Bytes, next: nat)

  function FieldAt(data: Bytes, at: nat): Field {
    if at + 8 > |data| then NoField
    else
      var next := at + 8 + NumberAt(data, at);
      if next > |data| then NoField else Field(data[at + 8..next], next)
  }

  datatype Pair = NoPair | Pair(first: Bytes, second: Bytes, next: nat)

  function PairAt(data: Bytes, at: nat): Pair {
    match FieldAt(data, at)
    case NoField => NoPair
    case Field(first, middle) =>
      match FieldAt(data, middle)
      case NoField => NoPair
      case Field(second, next) => Pair(first, second, next)
  }

  /** The parser on the master's side, which knows type 0. */
  function ParseAtMaster(data: Bytes): Parsed {
    if |data| < 8 then Overrun
    else if NumberAt(data, 0) != 0 then Ignored
    else match PairAt(data, 8)
         case NoPair => Overrun
         case Pair(t, h, next) => Dispatched(Join(t, h), next)
  }

  /** The parser on a slave's side, which knows types 1 and 2. */
  function ParseAtSlave(data: Bytes): Parsed {
    if |data| < 8 then Overrun
    else match NumberAt(data, 0)
         case 1 =>
           if |data| < 16 then Overrun
           else (match PairAt(data, 16)
                 case NoPair => Overrun
                 case Pair(t, h, next) => Dispatched(Recognition(NumberAt(data, 8), t, h), next))
         case 2 =>
           (match PairAt(data, 8)
            case NoPair => Overrun
            case Pair(t, h, next) => Dispatched(Update(t, h), next))
         case _ => Ignored
  }

  function Parse(c: Content, data: Bytes): Parsed {
    if c.Join? then ParseAtMaster(data) else ParseAtSlave(data)
  }

  /** The layout the protocol documents: the type, for a recognition the slave id,
      and then two strings, each after its length, up to the end of the packet. */
  lemma DocumentedLayout(c: Content)
    requires Representable(c)
    ensures var data := Build(c);
            var at := if c.Recognition? then 16 else 8;
            var second := if c.Join? then c.host else c.hosts;
            && |data| == at + 8 + |c.tree| + 8 + |second|
            && data[..8] == Encode(match c case Join(_, _) => 0 case Recognition(_, _, _) => 1 case Update(_, _) => 2)
            && (c.Recognition? ==> data[8..16] == Encode(c.slaveId))
            && data[at..at + 8] == Encode(|c.tree|)
            && data[at + 8..at + 8 + |c.tree|] == c.tree
            && data[at + 8 + |c.tree|..at + 16 + |c.tree|] == Encode(|second|)
            && data[at + 16 + |c.tree|..] == second
  {
    hide LittleEndian;
    match c {
      case Join(t, h) => PairLayout(Encode(0), t, h);
      case Update(t, h) => PairLayout(Encode(2), t, h);
      case Recognition(id, t, h) =>
        PairLayout(Encode(1) + Encode(id), t, h);
        var pair := Prefixed(t) + Prefixed(h);
        assert Build(c) == (Encode(1) + Encode(id)) + pair;
        assert (Encode(1) + Encode(id))[..8] == Encode(1) && (Encode(1) + Encode(id))[8..16] == Encode(id);
    }
  }

  lemma PairLayout(prefix: Bytes, t: Bytes, h: Bytes)
    requires |t| < TWO_64 && |h| < TWO_64
    ensures var data, at := prefix + (Prefixed(t) + Prefixed(h)), |prefix|;
            && |data| == at + 8 + |t| + 8 + |h|
            && data[..at] == prefix
            && data[at..at + 8] == Encode(|t|)
            && data[at + 8..at + 8 + |t|] == t
            && data[at + 8 + |t|..at + 16 + |t|] == Encode(|h|)
            && data[at + 16 + |t|..] == h
  {
    hide LittleEndian;
  }

  lemma NumberRead(prefix: Bytes, v: UInt64, suffix: Bytes)
    ensures NumberAt(prefix + (Encode(v) + suffix), |prefix|) == Decode(Encode(v))
  {
    var data := prefix + (Encode(v) + suffix);
    assert data[|prefix|..|prefix| + 8] == Encode(v);
  }

  lemma FieldRead(prefix: Bytes, t: Bytes, suffix: Bytes)
    requires |t| < TWO_64
    ensures var f := FieldAt(prefix + (Prefixed(t) + suffix), |prefix|);
            && (TopBytesEqual(|t|) ==> f == Field(t, |prefix| + 8 + |t|))
            && (!TopBytesEqual(|t|) ==> f.NoField? || f.value != t)
  {
    hide Decode, TopBytesEqual, LittleEndian;
    var data := prefix + (Prefixed(t) + suffix);
    RoundTrip(|t|);
    assert Prefixed(t) + suffix == Encode(|t|) + (t + suffix);
    NumberRead(prefix, |t|, t + suffix);
    assert data[|prefix| + 8..|prefix| + 8 + |t|] == t;
  }

  /** Two prefixed strings at the end of a packet are read back exactly when both
      lengths survive the codec, and then nothing is left over. */
  lemma PairRead(prefix: Bytes, t: Bytes, h: Bytes)
    requires |t| < TWO_64 && |h| < TWO_64
    ensures var data := prefix + (Prefixed(t) + Prefixed(h));
            var p := PairAt(data, |prefix|);
            && (TopBytesEqual(|t|) && TopBytesEqual(|h|) ==> p == Pair(t, h, |data|))
            && (p.Pair? && p.first == t && p.second == h ==> TopBytesEqual(|t|) && TopBytesEqual(|h|))
  {
    hide FieldAt, NumberAt, Decode, TopBytesEqual, LittleEndian;
    var data := prefix + (Prefixed(t) + Prefixed(h));
    FieldRead(prefix, t, Prefixed(h));
    if TopBytesEqual(|t|) {
      FieldRead(prefix + Prefixed(t), h, []);
      assert data == (prefix + Prefixed(t)) + (Prefixed(h) + []);
    }
  }

  /** Parsing what was built returns the same fields and consumes exactly the
      packet, if and only if every number in it survives the codec. */
  lemma PayloadRoundTrip(c: Content)
    requires Representable(c)
    ensures Parse(c, Build(c)) == Dispatched(c, |Build(c)|) <==> Survives(c)
    ensures Survives(c) ==> |Build(c)| >= 24
  {
    hide Decode, TopBytesEqual, LittleEndian, FieldAt, PairAt;
    var data := Build(c);
    RoundTrip(0);
    RoundTrip(1);
    RoundTrip(2);
    match c {
      case Join(t, h) =>
        NumberRead([], 0, Prefixed(t) + Prefixed(h));
        assert [] + data == data;
        PairRead(Encode(0), t, h);
      case Update(t, h) =>
        NumberRead([], 2, Prefixed(t) + Prefixed(h));
        assert [] + data == data;
        PairRead(Encode(2), t, h);
      case Recognition(id, t, h) =>
        NumberRead([], 1, Encode(id) + (Prefixed(t) + Prefixed(h)));
        assert [] + data == data;
        NumberRead(Encode(1), id, Prefixed(t) + Prefixed(h));
        RoundTrip(id);
        assert data == (Encode(1) + Encode(id)) + (Prefixed(t) + Prefixed(h));
        PairRead(Encode(1) + Encode(id), t, h);
    }
  }

  /** From position `at` to `next`: a length, that many bytes, a length, that many
      bytes. */
  predicate Layout(data: Bytes, at: nat, t: Bytes, h: Bytes, next: nat) {
    && next == at + 16 + |t| + |h| <= |data|
    && Decode(data[at..at + 8]) == |t| && data[at + 8..at + 8 + |t|] == t
    && Decode(data[at + 8 + |t|..at + 16 + |t|]) == |h| && data[at + 16 + |t|..next] == h
  }

  predicate HasType(data: Bytes, kind: nat) {
    |data| >= 8 && Decode(data[..8]) == kind
  }

  lemma PairExact(data: Bytes, at: nat, t: Bytes, h: Bytes, next: nat)
    ensures PairAt(data, at) == Pair(t, h, next) <==> Layout(data, at, t, h, next)
  {
    hide Decode;
  }

  /** Whatever the packet, also one that no node builds: it is dispatched exactly when
      it starts with a complete message of a type the reader knows, with these fields
      and whatever may follow; it is ignored exactly when its type is another one. */
  lemma ParseExact(data: Bytes, id: UInt64, t: Bytes, h: Bytes, next: nat)
    ensures ParseAtMaster(data) == Dispatched(Join(t, h), next) <==> HasType(data, 0) && Layout(data, 8, t, h, next)
    ensures ParseAtMaster(data) == Ignored <==> |data| >= 8 && !HasType(data, 0)
    ensures ParseAtMaster(data).Dispatched? ==> ParseAtMaster(data).content.Join?
    ensures ParseAtSlave(data) == Dispatched(Recognition(id, t, h), next) <==>
            HasType(data, 1) && |data| >= 16 && Decode(data[8..16]) == id && Layout(data, 16, t, h, next)
    ensures ParseAtSlave(data) == Dispatched(Update(t, h), next) <==> HasType(data, 2) && Layout(data, 8, t, h, next)
    ensures ParseAtSlave(data) == Ignored <==> |data| >= 8 && !HasType(data, 1) && !HasType(data, 2)
    ensures ParseAtSlave(data).Dispatched? ==> !ParseAtSlave(data).content.Join?
  {
    hide Decode, PairAt, Layout;
    PairExact(data, 8, t, h, next);
    PairExact(data, 16, t, h, next);
    assert |data| >= 8 ==> data[0..8] == data[..8];
  }

  /** The master's parser: a cursor moves over the packet field by field. */
  method ReadAtMaster(packet: Bytes) returns (r: Parsed)
    ensures r == ParseAtMaster(packet)
  {
    if |packet| < 8 { return Overrun; }
    var data := 0;
    var protocolType := NumberAt(packet, data);
    data := data + 8;
    if protocolType != 0 { return Ignored; }
    var pair := ReadPair(packet, data);
    if pair.NoPair? { return Overrun; }
    r := Dispatched(Join(pair.first, pair.second), pair.next);
  }

  /** The slave's parser. */
  method ReadAtSlave(packet: Bytes) returns (r: Parsed)
    ensures r == ParseAtSlave(packet)
  {
    if |packet| < 8 { return Overrun; }
    var data := 0;
    var protocolType := NumberAt(packet, data);
    data := data + 8;
    if protocolType == 1 {
      if data + 8 > |packet| { return Overrun; }
      var slaveId := NumberAt(packet, data);
      data := data + 8;
      var pair := ReadPair(packet, data);
      if pair.NoPair? { return Overrun; }
      r := Dispatched(Recognition(slaveId, pair.first, pair.second), pair.next);
    } else if protocolType == 2 {
      var pair := ReadPair(packet, data);
      if pair.NoPair? { return Overrun; }
      r := Dispatched(Update(pair.first, pair.second), pair.next);
    } else {
      r := Ignored;
    }
  }

  method ReadPair(packet: Bytes, start: nat) returns (r: Pair)
    ensures r == PairAt(packet, start)
  {
    var data := start;
    if data + 8 > |packet| { return NoPair; }
    var firstLength := NumberAt(packet, data);
    data := data + 8;
    if data + firstLength > |packet| { return NoPair; }
    var first := packet[data..data + firstLength];
    data := data + firstLength;
    if data + 8 > |packet| { return NoPair; }
    var secondLength := NumberAt(packet, data);
    data := data + 8;
    if data + secondLength > |packet| { return NoPair; }
    r := Pair(first, packet[data..data + secondLength], data + secondLength);
  }
}
