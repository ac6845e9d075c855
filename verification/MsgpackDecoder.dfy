/** `decodeMsgpack` of the web client (examples/web-client/index.html): a cursor over the bytes of one frame,
    and what the values it builds have to do with what was encoded.

    The server encodes with a library; here its place is taken by the relation `Encodes`. */
module MsgpackDecoder {
  import opened Doubles
  import opened MsgpackFormat

  /** JavaScript values. Strings are kept as the bytes they decode from. */
  datatype Value =
    | Null
    | Boolean(b: bool)
    | Number(n: int)
    | Text(bytes: seq<Byte>)
    | Array(items: seq<Value>)
    | Object(fields: map<seq<Byte>, Value>)

  datatype Outcome<+T> = Returned(value: T) | Threw(error: Failure)

  // ----- Numbers

  function ToInt32(n: nat): int {
    Signed(n % 0x1_0000_0000, 0x1_0000_0000)
  }

  // ----- What the decoder makes of a derivation

  /** `toKey` turns any value into a property key, as JavaScript does when a value indexes an object. */
  function JsOf(node: Node, toKey: Value -> seq<Byte>): Value
    decreases node, 1
  {
    match node
    case Nil => Null
    case Bool(b) => Boolean(b)
    case Int(format, n) => Number(if format == U64 && n >= 0 then ToDouble(n) else n)
    case Str(_, bytes) => Text(bytes)
    case Arr(_, items) => Array(JsAll(items, toKey))
    case Map(_, flat) => Object(JsFields(flat, toKey))
  }

  function JsAll(nodes: seq<Node>, toKey: Value -> seq<Byte>): (r: seq<Value>)
    ensures |r| == |nodes|
    decreases nodes, 0
  {
    if nodes == [] then [] else JsAll(nodes[..|nodes| - 1], toKey) + [JsOf(nodes[|nodes| - 1], toKey)]
  }

  /** Later entries overwrite earlier ones with the same key. */
  function JsFields(flat: seq<Node>, toKey: Value -> seq<Byte>): map<seq<Byte>, Value>
    decreases flat, 0
  {
    if |flat| < 2 then map[]
    else
      var n := |flat| - 2;
      JsFields(flat[..n], toKey)[toKey(JsOf(flat[n], toKey)) := JsOf(flat[n + 1], toKey)]
  }

  /** The decoder as a function of the whole frame. */
  function Decode(bytes: seq<Byte>, toKey: Value -> seq<Byte>): Outcome<Value> {
    match Parse(bytes)
    case NoNode(e) => Threw(e)
    case NodeRead(node, used) => if used != |bytes| then Threw(TrailingBytes) else Returned(JsOf(node, toKey))
  }

  /** Decoding returns a value exactly on the writings of legal derivations of that value. */
  lemma DecodeExactly(bytes: seq<Byte>, toKey: Value -> seq<Byte>, v: Value)
    ensures Decode(bytes, toKey) == Returned(v)
       <==> exists node :: Legal(node) && Serialize(node) == bytes && JsOf(node, toKey) == v
  {
    if Decode(bytes, toKey) == Returned(v) {
      ParseSound(bytes);
      assert bytes[..|bytes|] == bytes;
      assert Legal(Parse(bytes).node) && Serialize(Parse(bytes).node) == bytes;
    }
    if node :| Legal(node) && Serialize(node) == bytes && JsOf(node, toKey) == v {
      ParsesSerialized(node, []);
      assert bytes + [] == bytes;
    }
  }

  /** A frame cut short or followed by anything is refused. */
  lemma OnlyWholeFrames(node: Node, extra: seq<Byte>, cut: nat, toKey: Value -> seq<Byte>)
    requires Legal(node) && extra != [] && cut < |Serialize(node)|
    ensures Decode(Serialize(node) + extra, toKey) == Threw(TrailingBytes)
    ensures Decode(Serialize(node)[..cut], toKey).Threw?
  {
    ParsesSerialized(node, extra);
    var short := Serialize(node)[..cut];
    if Parse(short).NodeRead? && Parse(short).used == |short| {
      ParseSound(short);
      assert Serialize(Parse(short).node) == short;
      PrefixFree(Parse(short).node, node);
    }
  }

  // ----- Round trip

  /** `node` is a way to encode `v`: the same number, the same bytes, and for an object one entry for each
      field, in any order. */
  ghost predicate Encodes(node: Node, v: Value)
    decreases node, 1
  {
    match v
    case Null => node == Nil
    case Boolean(b) => node == Bool(b)
    case Number(n) => node.Int? && node.n == n
    case Text(bytes) => node.Str? && node.bytes == bytes
    case Array(items) =>
      && node.Arr? && |node.items| == |items|
      && forall i | 0 <= i < |items| :: Encodes(node.items[i], items[i])
    case Object(fields) => node.Map? && EncodesFields(node.flat, fields)
  }

  ghost predicate EncodesFields(flat: seq<Node>, fields: map<seq<Byte>, Value>)
    decreases flat, 0
  {
    if |flat| < 2 then flat == [] && fields == map[]
    else
      var n := |flat| - 2;
      && flat[n].Str? && flat[n].bytes in fields
      && Encodes(flat[n + 1], fields[flat[n].bytes])
      && EncodesFields(flat[..n], fields - {flat[n].bytes})
  }

  /** Every 64-bit payload inside is a number that JavaScript can hold. */
  ghost predicate HoldsDoubles(node: Node)
    decreases node, 1
  {
    match node
    case Int(format, n) => format == U64 && n >= 0 ==> IsDouble(n)
    case Arr(_, items) => AllHoldDoubles(items)
    case Map(_, flat) => AllHoldDoubles(flat)
    case _ => true
  }

  ghost predicate AllHoldDoubles(nodes: seq<Node>)
    decreases nodes, 0
  {
    forall i | 0 <= i < |nodes| :: HoldsDoubles(nodes[i])
  }

  /** A string used as a key is that key. */
  ghost predicate KeepsStrings(toKey: Value -> seq<Byte>) {
    forall bytes: seq<Byte> :: toKey(Text(bytes)) == bytes
  }

  lemma {:induction false} JsAllAt(nodes: seq<Node>, toKey: Value -> seq<Byte>, i: nat)
    requires i < |nodes|
    ensures JsAll(nodes, toKey)[i] == JsOf(nodes[i], toKey)
  {
    if i < |nodes| - 1 {
      JsAllAt(nodes[..|nodes| - 1], toKey, i);
    }
  }

  /** What the decoder makes of an encoding of `v` is `v`, exactly when its 64-bit numbers are doubles. */
  lemma {:induction false} JsOfEncodes(node: Node, v: Value, toKey: Value -> seq<Byte>)
    requires Encodes(node, v) && KeepsStrings(toKey)
    ensures JsOf(node, toKey) == v <==> HoldsDoubles(node)
    decreases node, 1
  {
    match v
    case Number(n) => if n >= 0 { ToDoubleExactly(n); }
    case Array(items) =>
      forall i | 0 <= i < |items| ensures JsAll(node.items, toKey)[i] == items[i] <==> HoldsDoubles(node.items[i]) {
        JsOfEncodes(node.items[i], items[i], toKey);
        JsAllAt(node.items, toKey, i);
      }
    case Object(fields) => JsFieldsEncode(node.flat, fields, toKey);
    case _ =>
  }

  lemma {:induction false} JsFieldsEncode(flat: seq<Node>, fields: map<seq<Byte>, Value>, toKey: Value -> seq<Byte>)
    requires EncodesFields(flat, fields) && KeepsStrings(toKey)
    ensures JsFields(flat, toKey).Keys == fields.Keys
    ensures JsFields(flat, toKey) == fields <==> AllHoldDoubles(flat)
    decreases flat, 0
  {
    if |flat| >= 2 {
      var n := |flat| - 2;
      var k := flat[n].bytes;
      JsFieldsEncode(flat[..n], fields - {k}, toKey);
      JsOfEncodes(flat[n + 1], fields[k], toKey);
      ExtendsExactly(JsFields(flat[..n], toKey), k, JsOf(flat[n + 1], toKey), fields);
      AllButLastTwo(flat);
    }
  }

  lemma ExtendsExactly(early: map<seq<Byte>, Value>, k: seq<Byte>, v: Value, fields: map<seq<Byte>, Value>)
    requires k in fields && early.Keys == (fields - {k}).Keys
    ensures early[k := v].Keys == fields.Keys
    ensures early[k := v] == fields <==> early == fields - {k} && v == fields[k]
  {
    if early[k := v] == fields {
      assert forall x | x in early :: early[x] == early[k := v][x];
    }
  }

  lemma AllButLastTwo(flat: seq<Node>)
    requires |flat| >= 2
    ensures var n := |flat| - 2;
            AllHoldDoubles(flat) <==> AllHoldDoubles(flat[..n]) && HoldsDoubles(flat[n]) && HoldsDoubles(flat[n + 1])
  {
    var n := |flat| - 2;
    if AllHoldDoubles(flat[..n]) {
      assert forall i | 0 <= i < n :: flat[..n][i] == flat[i];
    }
  }

  /** Whatever widths the encoder chose, decoding the frame gives the value back, exactly when each 64-bit
      number in it is a double. */
  lemma RoundTrip(node: Node, v: Value, toKey: Value -> seq<Byte>)
    requires Legal(node) && Encodes(node, v) && KeepsStrings(toKey)
    ensures Decode(Serialize(node), toKey) == Returned(v) <==> HoldsDoubles(node)
  {
    ParsesSerialized(node, []);
    assert Serialize(node) + [] == Serialize(node);
    JsOfEncodes(node, v, toKey);
  }

  /** The smallest number that comes back as another. */
  lemma FirstLoss(toKey: Value -> seq<Byte>)
    ensures Decode(Serialize(Int(U64, 0x20_0000_0000_0001)), toKey) == Returned(Number(0x20_0000_0000_0000))
  {
    var node := Int(U64, 0x20_0000_0000_0001);
    FirstGap();
    ParsesSerialized(node, []);
    assert Serialize(node) + [] == Serialize(node);
  }

  /** No number above 2^53. */
  ghost predicate SafeNumbers(v: Value) {
    match v
    case Number(n) => n <= 0x20_0000_0000_0000
    case Array(items) => forall i | 0 <= i < |items| :: SafeNumbers(items[i])
    case Object(fields) => forall k | k in fields :: SafeNumbers(fields[k])
    case _ => true
  }

  lemma {:induction false} SafeNumbersHold(node: Node, v: Value)
    requires Encodes(node, v) && SafeNumbers(v)
    ensures HoldsDoubles(node)
    decreases node, 1
  {
    match v
    case Number(n) => if n >= 0 { SmallIsDouble(n); }
    case Array(items) =>
      forall i | 0 <= i < |items| ensures HoldsDoubles(node.items[i]) {
        SafeNumbersHold(node.items[i], items[i]);
      }
    case Object(fields) => SafeFieldsHold(node.flat, fields);
    case _ =>
  }

  lemma {:induction false} SafeFieldsHold(flat: seq<Node>, fields: map<seq<Byte>, Value>)
    requires EncodesFields(flat, fields) && forall k | k in fields :: SafeNumbers(fields[k])
    ensures AllHoldDoubles(flat)
    decreases flat, 0
  {
    if |flat| >= 2 {
      var n := |flat| - 2;
      SafeFieldsHold(flat[..n], fields - {flat[n].bytes});
      SafeNumbersHold(flat[n + 1], fields[flat[n].bytes]);
      AllButLastTwo(flat);
    }
  }

  /** What the formats read by the client can carry. */
  ghost predicate Encodable(v: Value) {
    match v
    case Number(n) => -0x8000_0000 <= n < 0x1_0000_0000_0000_0000
    case Text(bytes) => |bytes| < 0x1_0000_0000
    case Array(items) => |items| < 0x1_0000_0000 && forall i | 0 <= i < |items| :: Encodable(items[i])
    case Object(fields) =>
      |fields| < 0x1_0000_0000 && forall k | k in fields :: |k| < 0x1_0000_0000 && Encodable(fields[k])
    case _ => true
  }

  /** Every such value has an encoding, so the round trip is not about nothing. */
  lemma {:induction false} EncodingOf(v: Value) returns (node: Node)
    requires Encodable(v)
    ensures Legal(node) && Encodes(node, v)
    decreases v, 1, 0
  {
    match v
    case Null => node := Nil;
    case Boolean(b) => node := Bool(b);
    case Number(n) => node := if n < 0 then Int(I32, n) else Int(U64, n);
    case Text(bytes) => node := Str(Len32, bytes);
    case Array(items) =>
      var nodes := EncodingOfItems(v, |items|);
      node := Arr(Len32, nodes);
    case Object(fields) =>
      assert (map k | k in fields.Keys :: fields[k]) == fields;
      var flat := EncodingOfFields(v, fields.Keys);
      node := Map(Len32, flat);
  }

  lemma {:induction false} EncodingOfItems(v: Value, n: nat) returns (nodes: seq<Node>)
    requires v.Array? && Encodable(v) && n <= |v.items|
    ensures |nodes| == n && AllLegal(nodes)
    ensures forall i | 0 <= i < n :: Encodes(nodes[i], v.items[i])
    decreases v, 0, n
  {
    nodes := [];
    if n > 0 {
      nodes := EncodingOfItems(v, n - 1);
      var node := EncodingOf(v.items[n - 1]);
      nodes := nodes + [node];
    }
  }

  lemma {:induction false} EncodingOfFields(v: Value, keys: set<seq<Byte>>) returns (flat: seq<Node>)
    requires v.Object? && Encodable(v) && keys <= v.fields.Keys
    ensures AllLegal(flat) && |flat| == 2 * |keys|
    ensures EncodesFields(flat, map k | k in keys :: v.fields[k])
    decreases v, 0, |keys|
  {
    flat := [];
    if keys != {} {
      var k :| k in keys;
      var early := EncodingOfFields(v, keys - {k});
      var node := EncodingOf(v.fields[k]);
      flat := early + [Str(Len32, k), node];
      var some := map x | x in keys :: v.fields[x];
      assert some - {k} == map x | x in keys - {k} :: v.fields[x];
      AddField(early, k, node, some);
    }
  }

  lemma AddField(early: seq<Node>, k: seq<Byte>, node: Node, fields: map<seq<Byte>, Value>)
    requires k in fields && |k| < 0x1_0000_0000
    requires AllLegal(early) && EncodesFields(early, fields - {k})
    requires Legal(node) && Encodes(node, fields[k])
    ensures var flat := early + [Str(Len32, k), node]; AllLegal(flat) && EncodesFields(flat, fields)
  {
    var flat := early + [Str(Len32, k), node];
    assert flat[..|early|] == early;
  }

  // ----- The decoder itself

  /** A word of `w` bytes taken from the front of `rest`, or nothing. */
  ghost predicate ReadsWord(w: nat, rest: seq<Byte>, n: Outcome<nat>, moved: int) {
    if |rest| < w then n == Threw(Truncated)
    else n == Returned(FromBigEndian(rest[..w])) && moved == w
  }

  ghost predicate ReadsNode(read: NodeRead, v: Outcome<Value>, moved: int, toKey: Value -> seq<Byte>) {
    match read
    case NodeRead(node, used) => v == Returned(JsOf(node, toKey)) && moved == used
    case NoNode(e) => v == Threw(e)
  }

  lemma WordOfBytes(b: seq<Byte>)
    ensures |b| == 2 ==> FromBigEndian(b) == 0x100 * b[0] as int + b[1]
    ensures |b| == 4 ==>
              FromBigEndian(b) == 0x100_0000 * b[0] as int + 0x1_0000 * b[1] as int + 0x100 * b[2] as int + b[3]
  {
    if |b| == 2 {
      assert FromBigEndian(b[..1]) == b[0];
    }
    if |b| == 4 {
      assert FromBigEndian(b[..3][..2][..1]) == b[0];
    }
  }

  lemma {:induction false} WordOfWords(high: seq<Byte>, low: seq<Byte>)
    ensures FromBigEndian(high + low) == FromBigEndian(high) * Pow256(|low|) + FromBigEndian(low)
  {
    if low == [] {
      assert high + low == high;
    } else {
      var n := |low| - 1;
      WordOfWords(high, low[..n]);
      assert (high + low)[..|high| + n] == high + low[..n];
      assert (high + low)[|high| + n] == low[n];
      Shifts(FromBigEndian(high), Pow256(n), FromBigEndian(low[..n]), low[n]);
    }
  }

  lemma Shifts(high: nat, place: nat, low: nat, last: nat)
    ensures 256 * (high * place + low) + last == high * (256 * place) + (256 * low + last)
  {
  }

  /** What is left of a loop that has read `done` and stands `moved` bytes further on. */
  ghost function Continue(done: seq<Node>, moved: nat, rest: NodesRead): NodesRead {
    match rest
    case NoNodes(e) => NoNodes(e)
    case NodesRead(nodes, used) => NodesRead(done + nodes, moved + used)
  }

  /** A loop that set out at `from` to read `total` values has read `done`, stands at `at`, and will end with
      what reading all of them at once gives. */
  ghost predicate Midway(bytes: seq<Byte>, from: nat, total: nat, done: seq<Node>, at: nat) {
    && from <= at <= |bytes| && |done| <= total
    && Continue(done, at - from, ParseMany(bytes[at..], total - |done|)) == ParseMany(bytes[from..], total)
  }

  lemma MidwayStarts(bytes: seq<Byte>, from: nat, total: nat)
    requires from <= |bytes|
    ensures Midway(bytes, from, total, [], from)
  {
  }

  lemma ContinuePrepend(done: seq<Node>, moved: nat, node: Node, used: nat, later: NodesRead)
    ensures Continue(done, moved, Prepend(node, used, later)) == Continue(done + [node], moved + used, later)
  {
    if later.NodesRead? {
      assert done + ([node] + later.nodes) == (done + [node]) + later.nodes;
    }
  }

  lemma MidwayNext(bytes: seq<Byte>, from: nat, total: nat, done: seq<Node>, at: nat)
    requires Midway(bytes, from, total, done, at) && |done| < total
    ensures match Parse(bytes[at..])
            case NodeRead(node, used) => Midway(bytes, from, total, done + [node], at + used)
            case NoNode(e) => ParseMany(bytes[from..], total) == NoNodes(e)
  {
    var read := Parse(bytes[at..]);
    if read.NodeRead? {
      var rest := bytes[at + read.used..];
      assert bytes[at..][read.used..] == rest;
      ContinuePrepend(done, at - from, read.node, read.used, ParseMany(rest, total - |done| - 1));
    }
  }

  lemma MidwayEnds(bytes: seq<Byte>, from: nat, total: nat, done: seq<Node>, at: nat)
    requires Midway(bytes, from, total, done, at) && |done| == total
    ensures ParseMany(bytes[from..], total) == NodesRead(done, at - from)
  {
    assert done + [] == done;
  }

  class Decoder {
    const bytes: seq<Byte>
    const toKey: Value -> seq<Byte>
    var offset: nat
    /** How often `DecodeValue` was entered. */
    ghost var calls: nat

    constructor (bytes: seq<Byte>, toKey: Value -> seq<Byte>)
      ensures this.bytes == bytes && this.toKey == toKey && offset == 0 && calls == 0
    {
      this.bytes := bytes;
      this.toKey := toKey;
      this.offset := 0;
      this.calls := 0;
    }

    method Read(length: nat) returns (slice: Outcome<seq<Byte>>)
      requires offset <= |bytes|
      modifies this`offset
      ensures old(offset) <= offset <= |bytes|
      ensures if |bytes[old(offset)..]| < length then slice == Threw(Truncated)
              else slice == Returned(bytes[old(offset)..][..length]) && offset == old(offset) + length
    {
      if offset + length > |bytes| {
        return Threw(Truncated);
      }
      slice := Returned(bytes[offset..offset + length]);
      assert slice.value == bytes[offset..][..length];
      offset := offset + length;
    }

    method ReadU8() returns (n: Outcome<nat>)
      requires offset <= |bytes|
      modifies this`offset
      ensures old(offset) <= offset <= |bytes|
      ensures ReadsWord(1, bytes[old(offset)..], n, offset - old(offset))
    {
      if offset + 1 > |bytes| {
        return Threw(Truncated);
      }
      n := Returned(bytes[offset]);
      assert bytes[offset..][..1] == [bytes[offset]];
      offset := offset + 1;
    }

    method ReadU16() returns (n: Outcome<nat>)
      requires offset <= |bytes|
      modifies this`offset
      ensures old(offset) <= offset <= |bytes|
      ensures ReadsWord(2, bytes[old(offset)..], n, offset - old(offset))
    {
      var view := Read(2);
      if view.Threw? {
        return Threw(view.error);
      }
      var b := view.value;
      WordOfBytes(b);
      n := Returned(0x100 * b[0] as int + b[1]);
    }

    method ReadU32() returns (n: Outcome<nat>)
      requires offset <= |bytes|
      modifies this`offset
      ensures old(offset) <= offset <= |bytes|
      ensures ReadsWord(4, bytes[old(offset)..], n, offset - old(offset))
    {
      var view := Read(4);
      if view.Threw? {
        return Threw(view.error);
      }
      var b := view.value;
      WordOfBytes(b);
      n := Returned(0x100_0000 * b[0] as int + 0x1_0000 * b[1] as int + 0x100 * b[2] as int + b[3]);
    }

    /** The sum of the two halves is a JavaScript addition, so it is rounded. */
    method ReadU64() returns (n: Outcome<nat>)
      requires offset <= |bytes|
      modifies this`offset
      ensures old(offset) <= offset <= |bytes|
      ensures if |bytes[old(offset)..]| < 8 then n == Threw(Truncated)
              else n == Returned(ToDouble(FromBigEndian(bytes[old(offset)..][..8]))) && offset == old(offset) + 8
    {
      ghost var rest := bytes[offset..];
      var high := ReadU32();
      if high.Threw? {
        return high;
      }
      var low := ReadU32();
      if low.Threw? {
        return low;
      }
      n := Returned(ToDouble(high.value * 0x1_0000_0000 + low.value));
      Powers();
      WordOfWords(rest[..4], rest[4..][..4]);
      assert rest[..8] == rest[..4] + rest[4..][..4];
    }

    method ReadI8() returns (n: Outcome<int>)
      requires offset <= |bytes|
      modifies this`offset
      ensures old(offset) <= offset <= |bytes|
      ensures if |bytes[old(offset)..]| < 1 then n == Threw(Truncated)
              else n == Returned(Signed(FromBigEndian(bytes[old(offset)..][..1]), 0x100)) && offset == old(offset) + 1
    {
      var value := ReadU8();
      if value.Threw? {
        return Threw(value.error);
      }
      var signed: int := value.value;
      n := Returned(if signed > 0x7f then signed - 0x100 else signed);
    }

    method ReadI16() returns (n: Outcome<int>)
      requires offset <= |bytes|
      modifies this`offset
      ensures old(offset) <= offset <= |bytes|
      ensures if |bytes[old(offset)..]| < 2 then n == Threw(Truncated)
              else && n == Returned(Signed(FromBigEndian(bytes[old(offset)..][..2]), 0x1_0000))
                   && offset == old(offset) + 2
    {
      var value := ReadU16();
      if value.Threw? {
        return Threw(value.error);
      }
      var signed: int := value.value;
      n := Returned(if signed > 0x7fff then signed - 0x1_0000 else signed);
    }

    method ReadI32() returns (n: Outcome<int>)
      requires offset <= |bytes|
      modifies this`offset
      ensures old(offset) <= offset <= |bytes|
      ensures if |bytes[old(offset)..]| < 4 then n == Threw(Truncated)
              else && n == Returned(Signed(FromBigEndian(bytes[old(offset)..][..4]), 0x1_0000_0000))
                   && offset == old(offset) + 4
    {
      ghost var rest := bytes[offset..];
      var value := ReadU32();
      if value.Threw? {
        return Threw(value.error);
      }
      n := Returned(ToInt32(value.value));
      Powers();
      BigEndianWrites(rest[..4]);
    }

    method ReadString(length: nat) returns (v: Outcome<Value>)
      requires offset <= |bytes|
      modifies this`offset
      ensures old(offset) <= offset <= |bytes|
      ensures if |bytes[old(offset)..]| < length then v == Threw(Truncated)
              else v == Returned(Text(bytes[old(offset)..][..length])) && offset == old(offset) + length
    {
      var slice := Read(length);
      v := if slice.Threw? then Threw(slice.error) else Returned(Text(slice.value));
    }

    method DecodeArray(length: nat) returns (v: Outcome<Value>)
      requires offset <= |bytes|
      modifies this
      ensures old(offset) <= offset <= |bytes|
      ensures match ParseMany(bytes[old(offset)..], length)
              case NodesRead(nodes, used) => v == Returned(Array(JsAll(nodes, toKey))) && offset == old(offset) + used
              case NoNodes(e) => v == Threw(e)
      ensures calls <= old(calls) + offset - old(offset) + (if v.Threw? then 1 else 0)
      decreases |bytes| - offset, 2, 0
    {
      ghost var from, done: seq<Node> := offset, [];
      MidwayStarts(bytes, from, length);
      var value: seq<Value> := [];
      for index := 0 to length
        invariant from <= offset <= |bytes| && |done| == index
        invariant Midway(bytes, from, length, done, offset)
        invariant value == JsAll(done, toKey)
        invariant calls <= old(calls) + offset - from
      {
        var item;
        ghost var node;
        item, node := DecodeNext(from, length, done);
        if item.Threw? {
          return item;
        }
        JsAllNext(done, node, toKey);
        done := done + [node];
        value := value + [item.value];
      }
      MidwayEnds(bytes, from, length, done, offset);
      v := Returned(Array(value));
    }

    method DecodeMap(length: nat) returns (v: Outcome<Value>)
      requires offset <= |bytes|
      modifies this
      ensures old(offset) <= offset <= |bytes|
      ensures match ParseMany(bytes[old(offset)..], 2 * length)
              case NodesRead(flat, used) => v == Returned(Object(JsFields(flat, toKey))) && offset == old(offset) + used
              case NoNodes(e) => v == Threw(e)
      ensures calls <= old(calls) + offset - old(offset) + (if v.Threw? then 1 else 0)
      decreases |bytes| - offset, 2, 0
    {
      ghost var from, done: seq<Node> := offset, [];
      MidwayStarts(bytes, from, 2 * length);
      var value: map<seq<Byte>, Value> := map[];
      for index := 0 to length
        invariant from <= offset <= |bytes| && |done| == 2 * index
        invariant Midway(bytes, from, 2 * length, done, offset)
        invariant value == JsFields(done, toKey)
        invariant calls <= old(calls) + offset - from
      {
        var key, field;
        ghost var keyNode, fieldNode;
        key, keyNode := DecodeNext(from, 2 * length, done);
        if key.Threw? {
          return key;
        }
        field, fieldNode := DecodeNext(from, 2 * length, done + [keyNode]);
        if field.Threw? {
          return field;
        }
        JsFieldsNext(done, keyNode, fieldNode, toKey);
        done := done + [keyNode] + [fieldNode];
        value := value[toKey(key.value) := field.value];
      }
      MidwayEnds(bytes, from, 2 * length, done, offset);
      v := Returned(Object(value));
    }

    /** `DecodeValue` as the loops of arrays and maps call it. */
    method DecodeNext(ghost from: nat, ghost total: nat, ghost done: seq<Node>)
      returns (v: Outcome<Value>, ghost node: Node)
      requires offset <= |bytes| && |done| < total && Midway(bytes, from, total, done, offset)
      modifies this
      ensures old(offset) <= offset <= |bytes|
      ensures if v.Threw? then ParseMany(bytes[from..], total) == NoNodes(v.error)
              else Midway(bytes, from, total, done + [node], offset) && v == Returned(JsOf(node, toKey))
      ensures calls <= old(calls) + offset - old(offset) + (if v.Threw? then 1 else 0)
      decreases |bytes| - offset, 1, 0
    {
      MidwayNext(bytes, from, total, done, offset);
      node := Nil;
      ghost var read := Parse(bytes[offset..]);
      v := DecodeValue();
      if read.NodeRead? {
        node := read.node;
      }
    }

    method DecodeValue() returns (v: Outcome<Value>)
      requires offset <= |bytes|
      modifies this
      ensures old(offset) <= offset <= |bytes|
      ensures ReadsNode(Parse(bytes[old(offset)..]), v, offset - old(offset), toKey)
      ensures calls <= old(calls) + offset - old(offset) + (if v.Threw? then 1 else 0)
      decreases |bytes| - offset, 0, 0
    {
      calls := calls + 1;
      ghost var from := offset;
      var read := ReadU8();
      if read.Threw? {
        return Threw(read.error);
      }
      var marker: int := read.value;
      OneByte(bytes, from);
      if marker < 0xc0 || marker >= 0xe0 {
        ParseFix(bytes, from);
      }
      if marker <= 0x7f {
        return Returned(Number(marker));
      }
      if marker >= 0xe0 {
        return Returned(Number(marker - 0x100));
      }
      if marker < 0xc0 {
        v := DecodeSized(if marker >= 0xa0 then StrHead(Fix, marker - 0xa0)
                         else if marker >= 0x90 then ArrHead(Fix, marker - 0x90)
                         else MapHead(Fix, marker - 0x80), 1);
        return;
      }
      v := DecodeMarked(marker);
    }

    /** The switch over the markers that stand for one format each. */
    method DecodeMarked(marker: Byte) returns (v: Outcome<Value>)
      requires 0 < offset <= |bytes| && bytes[offset - 1] == marker && 0xc0 <= marker < 0xe0
      modifies this
      ensures old(offset) <= offset <= |bytes|
      ensures ReadsNode(Parse(bytes[old(offset) - 1..]), v, offset - old(offset) + 1, toKey)
      ensures calls <= old(calls) + offset - old(offset) + (if v.Threw? then 1 else 0)
      decreases |bytes| - offset, 4, 0
    {
      if 0xcc <= marker <= 0xd2 {
        v := DecodeInteger(marker);
      } else if marker >= 0xd9 {
        v := DecodeLong(marker);
      } else {
        ParseOther(bytes, offset - 1);
        v := if marker == 0xc0 then Returned(Null)
             else if marker == 0xc2 then Returned(Boolean(false))
             else if marker == 0xc3 then Returned(Boolean(true))
             else Threw(Unsupported(marker));
      }
    }

    method DecodeInteger(marker: Byte) returns (v: Outcome<Value>)
      requires 0 < offset <= |bytes| && bytes[offset - 1] == marker && 0xcc <= marker <= 0xd2
      modifies this`offset
      ensures old(offset) <= offset <= |bytes|
      ensures ReadsNode(Parse(bytes[old(offset) - 1..]), v, offset - old(offset) + 1, toKey)
    {
      ParseInteger(bytes, offset - 1);
      var n: Outcome<int>;
      match marker {
        case 0xcc => n := ReadU8();
        case 0xcd => n := ReadU16();
        case 0xce => n := ReadU32();
        case 0xcf => n := ReadU64();
        case 0xd0 => n := ReadI8();
        case 0xd1 => n := ReadI16();
        case _ => n := ReadI32();
      }
      v := if n.Threw? then Threw(n.error) else Returned(Number(n.value));
    }

    method DecodeLong(marker: Byte) returns (v: Outcome<Value>)
      requires 0 < offset <= |bytes| && bytes[offset - 1] == marker && 0xd9 <= marker <= 0xdf
      modifies this
      ensures old(offset) <= offset <= |bytes|
      ensures ReadsNode(Parse(bytes[old(offset) - 1..]), v, offset - old(offset) + 1, toKey)
      ensures calls <= old(calls) + offset - old(offset) + (if v.Threw? then 1 else 0)
      decreases |bytes| - offset, 3, 0
    {
      ParseLong(bytes, offset - 1);
      ghost var rest := bytes[offset..];
      var w := LengthWidth(marker);
      var n := ReadLength(w);
      if n.Threw? {
        return Threw(n.error);
      }
      assert rest[w..] == bytes[offset..];
      var length := if w == 1 then Len8 else if w == 2 then Len16 else Len32;
      v := DecodeSized(if marker <= 0xdb then StrHead(length, n.value)
                       else if marker <= 0xdd then ArrHead(length, n.value)
                       else MapHead(length, n.value), 1 + w);
    }

    /** What the header announces: a string, an array or a map of so many bytes, items or entries. */
    method DecodeSized(head: Head, ghost k: nat) returns (v: Outcome<Value>)
      requires offset <= |bytes| && !head.Leaf?
      modifies this
      ensures old(offset) <= offset <= |bytes|
      ensures ReadsNode(ParseBody(head, k, bytes[old(offset)..]), v, offset - old(offset) + k, toKey)
      ensures calls <= old(calls) + offset - old(offset) + (if v.Threw? then 1 else 0)
      decreases |bytes| - offset, 2, 1
    {
      match head
      case StrHead(_, n) => v := ReadString(n);
      case ArrHead(_, n) => v := DecodeArray(n);
      case MapHead(_, n) => v := DecodeMap(n);
    }

    method ReadLength(width: nat) returns (n: Outcome<nat>)
      requires offset <= |bytes| && (width == 1 || width == 2 || width == 4)
      modifies this`offset
      ensures old(offset) <= offset <= |bytes|
      ensures ReadsWord(width, bytes[old(offset)..], n, offset - old(offset))
    {
      if width == 1 {
        n := ReadU8();
      } else if width == 2 {
        n := ReadU16();
      } else {
        n := ReadU32();
      }
    }
  }

  /** A frame, from its first byte to its last. The calls of decodeValue are no more than the bytes and one. */
  method DecodeMsgpack(bytes: seq<Byte>, toKey: Value -> seq<Byte>) returns (v: Outcome<Value>, ghost calls: nat)
    ensures v == Decode(bytes, toKey)
    ensures calls <= |bytes| + 1
  {
    var decoder := new Decoder(bytes, toKey);
    assert bytes[0..] == bytes;
    v := decoder.DecodeValue();
    calls := decoder.calls;
    if v.Returned? && decoder.offset != |bytes| {
      v := Threw(TrailingBytes);
    }
  }

  /** Reading at `from`: the marker, its payload, and what the header announces. */
  lemma ParseMarked(bytes: seq<Byte>, from: nat)
    requires from < |bytes|
    ensures var w, after := PayloadWidth(bytes[from]), bytes[from + 1..];
            Parse(bytes[from..]) ==
            if w < 0 then NoNode(Unsupported(bytes[from]))
            else if |after| < w then NoNode(Truncated)
            else ParseBody(HeadOfMarker(bytes[from], FromBigEndian(after[..w])), 1 + w, after[w..])
  {
    var s, after := bytes[from..], bytes[from + 1..];
    var w := PayloadWidth(s[0]);
    if 0 <= w <= |after| {
      assert s[1..1 + w] == after[..w];
      assert s[1 + w..] == after[w..];
    }
  }

  /** The width of the length that follows a str, array or map marker. */
  function LengthWidth(marker: Byte): nat {
    if marker == 0xd9 then 1 else if marker == 0xda || marker == 0xdc || marker == 0xde then 2 else 4
  }

  lemma OneByte(bytes: seq<Byte>, from: nat)
    requires from < |bytes|
    ensures FromBigEndian(bytes[from..][..1]) == bytes[from]
  {
  }

  lemma ParseFix(bytes: seq<Byte>, from: nat)
    requires from < |bytes| && (bytes[from] < 0xc0 || bytes[from] >= 0xe0)
    ensures var m: int, rest := bytes[from], bytes[from + 1..];
            Parse(bytes[from..]) ==
            if m <= 0x7f then NodeRead(Int(PosFix, m), 1)
            else if m >= 0xe0 then NodeRead(Int(NegFix, m - 0x100), 1)
            else if m >= 0xa0 then ParseBody(StrHead(Fix, m - 0xa0), 1, rest)
            else if m >= 0x90 then ParseBody(ArrHead(Fix, m - 0x90), 1, rest)
            else ParseBody(MapHead(Fix, m - 0x80), 1, rest)
  {
    ParseMarked(bytes, from);
    assert bytes[from + 1..][0..] == bytes[from + 1..];
  }

  lemma ParseOther(bytes: seq<Byte>, from: nat)
    requires from < |bytes|
    requires var m := bytes[from]; 0xc0 <= m < 0xcc || 0xd2 < m < 0xd9
    ensures var m := bytes[from];
            Parse(bytes[from..]) ==
            if m == 0xc0 then NodeRead(Nil, 1)
            else if m == 0xc2 || m == 0xc3 then NodeRead(Bool(m == 0xc3), 1)
            else NoNode(Unsupported(m))
  {
    ParseMarked(bytes, from);
  }

  lemma ParseInteger(bytes: seq<Byte>, from: nat)
    requires from < |bytes| && 0xcc <= bytes[from] <= 0xd2
    ensures var m, rest := bytes[from], bytes[from + 1..];
            var w :=
              if m == 0xcc || m == 0xd0 then 1 else if m == 0xcd || m == 0xd1 then 2 else if m == 0xcf then 8 else 4;
            Parse(bytes[from..]) ==
            if |rest| < w then NoNode(Truncated)
            else
              var n := FromBigEndian(rest[..w]);
              NodeRead(if m == 0xcc then Int(U8, n) else if m == 0xcd then Int(U16, n)
                       else if m == 0xce then Int(U32, n) else if m == 0xcf then Int(U64, n)
                       else if m == 0xd0 then Int(I8, Signed(n, 0x100))
                       else if m == 0xd1 then Int(I16, Signed(n, 0x1_0000))
                       else Int(I32, Signed(n, 0x1_0000_0000)), 1 + w)
  {
    ParseMarked(bytes, from);
  }

  lemma ParseLong(bytes: seq<Byte>, from: nat)
    requires from < |bytes| && 0xd9 <= bytes[from] <= 0xdf
    ensures var m, rest := bytes[from], bytes[from + 1..];
            var w := LengthWidth(m);
            Parse(bytes[from..]) ==
            if |rest| < w then NoNode(Truncated)
            else
              var n, length := FromBigEndian(rest[..w]), if w == 1 then Len8 else if w == 2 then Len16 else Len32;
              ParseBody(if m <= 0xdb then StrHead(length, n)
                        else if m <= 0xdd then ArrHead(length, n)
                        else MapHead(length, n), 1 + w, rest[w..])
  {
    ParseMarked(bytes, from);
  }

  lemma JsAllNext(done: seq<Node>, node: Node, toKey: Value -> seq<Byte>)
    ensures JsAll(done + [node], toKey) == JsAll(done, toKey) + [JsOf(node, toKey)]
  {
    assert (done + [node])[..|done|] == done;
  }

  lemma JsFieldsNext(done: seq<Node>, key: Node, field: Node, toKey: Value -> seq<Byte>)
    ensures JsFields(done + [key] + [field], toKey)
         == JsFields(done, toKey)[toKey(JsOf(key, toKey)) := JsOf(field, toKey)]
  {
    assert (done + [key] + [field])[..|done|] == done;
  }
}
