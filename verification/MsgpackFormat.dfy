/** The part of the MessagePack format that the web client reads, after the specification's section "Formats":
    nil, booleans, every integer format except int 64, and the str, array and map families.

    A `Node` is one derivation of the grammar: a value together with the width chosen for each header.
    `Serialize` writes it and `Parse` reads it, and the two are inverse to each other. */
module MsgpackFormat {

  type Byte = b: int | 0 <= b < 256

  datatype Failure = Truncated | Unsupported(marker: Byte) | TrailingBytes

  datatype IntFormat = PosFix | NegFix | U8 | U16 | U32 | U64 | I8 | I16 | I32

  datatype Length = Fix | Len8 | Len16 | Len32

  /** `flat` lists the keys and values of a map in turn. */
  datatype Node =
    | Nil
    | Bool(b: bool)
    | Int(format: IntFormat, n: int)
    | Str(length: Length, bytes: seq<Byte>)
    | Arr(length: Length, items: seq<Node>)
    | Map(length: Length, flat: seq<Node>)

  /** What a marker and its payload announce. */
  datatype Head =
    | Leaf(node: Node)
    | StrHead(length: Length, n: nat)
    | ArrHead(length: Length, n: nat)
    | MapHead(length: Length, n: nat)

  /** What a reader found at the front of its input and how many bytes that took. */
  datatype HeadRead = HeadRead(head: Head, used: nat) | NoHead(error: Failure)

  datatype NodeRead = NodeRead(node: Node, used: nat) | NoNode(error: Failure)

  datatype NodesRead = NodesRead(nodes: seq<Node>, used: nat) | NoNodes(error: Failure)

  // ----- Big-endian numbers

  function Pow256(w: nat): nat {
    if w == 0 then 1 else 256 * Pow256(w - 1)
  }

  function BigEndian(n: nat, w: nat): (r: seq<Byte>)
    ensures |r| == w
  {
    if w == 0 then [] else BigEndian(n / 256, w - 1) + [n % 256]
  }

  function FromBigEndian(s: seq<Byte>): nat {
    if s == [] then 0 else 256 * FromBigEndian(s[..|s| - 1]) + s[|s| - 1]
  }

  lemma {:induction false} BigEndianReads(n: nat, w: nat)
    requires n < Pow256(w)
    ensures FromBigEndian(BigEndian(n, w)) == n
  {
    if w > 0 {
      BigEndianReads(n / 256, w - 1);
      assert BigEndian(n, w)[..w - 1] == BigEndian(n / 256, w - 1);
    }
  }

  lemma {:induction false} BigEndianWrites(s: seq<Byte>)
    ensures FromBigEndian(s) < Pow256(|s|)
    ensures BigEndian(FromBigEndian(s), |s|) == s
  {
    if s != [] {
      BigEndianWrites(s[..|s| - 1]);
      var high, low := FromBigEndian(s[..|s| - 1]), s[|s| - 1];
      assert (256 * high + low) / 256 == high && (256 * high + low) % 256 == low;
    }
  }

  lemma Powers()
    ensures Pow256(0) == 1 && Pow256(1) == 0x100 && Pow256(2) == 0x1_0000 && Pow256(4) == 0x1_0000_0000
    ensures Pow256(8) == 0x1_0000_0000_0000_0000
  {
    assert Pow256(3) == 0x100_0000;
    assert Pow256(5) == 0x100_0000_0000;
    assert Pow256(6) == 0x1_0000_0000_0000;
    assert Pow256(7) == 0x100_0000_0000_0000;
  }

  // ----- Headers

  predicate LegalInt(format: IntFormat, n: int) {
    match format
    case PosFix => 0 <= n < 0x80
    case NegFix => -0x20 <= n < 0
    case U8 => 0 <= n < 0x100
    case U16 => 0 <= n < 0x1_0000
    case U32 => 0 <= n < 0x1_0000_0000
    case U64 => 0 <= n < 0x1_0000_0000_0000_0000
    case I8 => -0x80 <= n < 0x80
    case I16 => -0x8000 <= n < 0x8000
    case I32 => -0x8000_0000 <= n < 0x8000_0000
  }

  /** How many bytes of payload follow a marker; -1 for the markers the client does not read. */
  function PayloadWidth(marker: Byte): int {
    if marker <= 0xbf || marker >= 0xe0 || marker == 0xc0 || marker == 0xc2 || marker == 0xc3 then 0
    else if marker == 0xcc || marker == 0xd0 || marker == 0xd9 then 1
    else if marker == 0xcd || marker == 0xd1 || marker == 0xda || marker == 0xdc || marker == 0xde then 2
    else if marker == 0xce || marker == 0xd2 || marker == 0xdb || marker == 0xdd || marker == 0xdf then 4
    else if marker == 0xcf then 8
    else -1
  }

  /** Two's complement in `modulus / 2` steps either way. */
  function Signed(n: nat, modulus: nat): int {
    if 2 * n >= modulus then n - modulus else n
  }

  function Unsigned(n: int, modulus: nat): int {
    if n < 0 then n + modulus else n
  }

  /** The signed reading of a word: the same number modulo the modulus, in the half-open range around zero. */
  lemma SignedExactly(n: nat, half: int)
    requires n < 2 * half
    ensures -half <= Signed(n, 2 * half) < half
    ensures Signed(n, 2 * half) == n || Signed(n, 2 * half) == n - 2 * half
  {
  }

  /** And the word that is written for a number in that range. */
  lemma UnsignedExactly(n: int, half: int)
    requires -half <= n < half
    ensures 0 <= Unsigned(n, 2 * half) < 2 * half
    ensures Unsigned(n, 2 * half) == n || Unsigned(n, 2 * half) == n + 2 * half
  {
  }

  function HeadOfMarker(marker: Byte, n: nat): Head
    requires PayloadWidth(marker) >= 0
  {
    if marker <= 0x7f then Leaf(Int(PosFix, marker))
    else if marker <= 0x8f then MapHead(Fix, marker - 0x80)
    else if marker <= 0x9f then ArrHead(Fix, marker - 0x90)
    else if marker <= 0xbf then StrHead(Fix, marker - 0xa0)
    else if marker >= 0xe0 then Leaf(Int(NegFix, marker - 0x100))
    else if marker == 0xc0 then Leaf(Nil)
    else if marker == 0xc2 then Leaf(Bool(false))
    else if marker == 0xc3 then Leaf(Bool(true))
    else if marker == 0xcc then Leaf(Int(U8, n))
    else if marker == 0xcd then Leaf(Int(U16, n))
    else if marker == 0xce then Leaf(Int(U32, n))
    else if marker == 0xcf then Leaf(Int(U64, n))
    else if marker == 0xd0 then Leaf(Int(I8, Signed(n, 0x100)))
    else if marker == 0xd1 then Leaf(Int(I16, Signed(n, 0x1_0000)))
    else if marker == 0xd2 then Leaf(Int(I32, Signed(n, 0x1_0000_0000)))
    else if marker == 0xd9 then StrHead(Len8, n)
    else if marker == 0xda then StrHead(Len16, n)
    else if marker == 0xdb then StrHead(Len32, n)
    else if marker == 0xdc then ArrHead(Len16, n)
    else if marker == 0xdd then ArrHead(Len32, n)
    else if marker == 0xde then MapHead(Len16, n)
    else MapHead(Len32, n)
  }

  predicate LegalLength(length: Length, n: nat, fix: nat) {
    match length
    case Fix => n < fix
    case Len8 => fix == 0x20 && n < 0x100
    case Len16 => n < 0x1_0000
    case Len32 => n < 0x1_0000_0000
  }

  predicate LegalHead(h: Head) {
    match h
    case Leaf(node) =>
      (match node
       case Nil => true
       case Bool(_) => true
       case Int(format, n) => LegalInt(format, n)
       case _ => false)
    case StrHead(length, n) => LegalLength(length, n, 0x20)
    case ArrHead(length, n) => LegalLength(length, n, 0x10)
    case MapHead(length, n) => LegalLength(length, n, 0x10)
  }

  /** The marker a header is written with and the number that follows it. */
  function Code(h: Head): (c: (Byte, nat))
    requires LegalHead(h)
  {
    match h
    case Leaf(node) =>
      (match node
       case Nil => (0xc0, 0)
       case Bool(b) => (if b then 0xc3 else 0xc2, 0)
       case Int(format, n) =>
         (match format
          case PosFix => (n, 0)
          case NegFix => (n + 0x100, 0)
          case U8 => (0xcc, n)
          case U16 => (0xcd, n)
          case U32 => (0xce, n)
          case U64 => (0xcf, n)
          case I8 => (0xd0, Unsigned(n, 0x100))
          case I16 => (0xd1, Unsigned(n, 0x1_0000))
          case I32 => (0xd2, Unsigned(n, 0x1_0000_0000))))
    case StrHead(length, n) =>
      (match length case Fix => (0xa0 + n, 0) case Len8 => (0xd9, n) case Len16 => (0xda, n) case Len32 => (0xdb, n))
    case ArrHead(length, n) =>
      (match length case Fix => (0x90 + n, 0) case Len16 => (0xdc, n) case Len32 => (0xdd, n))
    case MapHead(length, n) =>
      (match length case Fix => (0x80 + n, 0) case Len16 => (0xde, n) case Len32 => (0xdf, n))
  }

  function SerializeHead(h: Head): seq<Byte>
    requires LegalHead(h)
  {
    CodeReads(h);
    var (marker, n) := Code(h);
    [marker] + BigEndian(n, PayloadWidth(marker))
  }

  lemma CodeReads(h: Head)
    requires LegalHead(h)
    ensures var (marker, n) := Code(h);
            PayloadWidth(marker) >= 0 && n < Pow256(PayloadWidth(marker)) && HeadOfMarker(marker, n) == h
  {
    Powers();
  }

  lemma MarkerReads(marker: Byte, n: nat)
    requires PayloadWidth(marker) >= 0 && n < Pow256(PayloadWidth(marker))
    ensures LegalHead(HeadOfMarker(marker, n)) && Code(HeadOfMarker(marker, n)) == (marker, n)
  {
    Powers();
  }

  function ParseHead(s: seq<Byte>): (r: HeadRead)
    ensures r.HeadRead? ==> 1 <= r.used <= |s|
  {
    if s == [] then NoHead(Truncated)
    else
      var w := PayloadWidth(s[0]);
      if w < 0 then NoHead(Unsupported(s[0]))
      else if |s| < 1 + w then NoHead(Truncated)
      else HeadRead(HeadOfMarker(s[0], FromBigEndian(s[1..1 + w])), 1 + w)
  }

  lemma HeadRoundTrip(h: Head, rest: seq<Byte>)
    requires LegalHead(h)
    ensures ParseHead(SerializeHead(h) + rest) == HeadRead(h, |SerializeHead(h)|)
  {
    CodeReads(h);
    var (marker, n) := Code(h);
    var w := PayloadWidth(marker);
    var s := SerializeHead(h) + rest;
    BigEndianReads(n, w);
    assert s[1..1 + w] == BigEndian(n, w);
  }

  lemma HeadSound(s: seq<Byte>)
    requires ParseHead(s).HeadRead?
    ensures LegalHead(ParseHead(s).head) && SerializeHead(ParseHead(s).head) == s[..ParseHead(s).used]
  {
    var w := PayloadWidth(s[0]);
    BigEndianWrites(s[1..1 + w]);
    MarkerReads(s[0], FromBigEndian(s[1..1 + w]));
  }

  // ----- Whole values

  function HeadOf(node: Node): Head {
    match node
    case Str(length, bytes) => StrHead(length, |bytes|)
    case Arr(length, items) => ArrHead(length, |items|)
    case Map(length, flat) => MapHead(length, |flat| / 2)
    case _ => Leaf(node)
  }

  predicate Legal(node: Node)
    decreases node, 1
  {
    && LegalHead(HeadOf(node))
    && match node
       case Arr(_, items) => AllLegal(items)
       case Map(_, flat) => |flat| % 2 == 0 && AllLegal(flat)
       case _ => true
  }

  predicate AllLegal(nodes: seq<Node>)
    decreases nodes, 0
  {
    forall i | 0 <= i < |nodes| :: Legal(nodes[i])
  }

  function Serialize(node: Node): seq<Byte>
    requires Legal(node)
    decreases node, 2
  {
    SerializeHead(HeadOf(node)) + Body(node)
  }

  function Body(node: Node): seq<Byte>
    requires Legal(node)
    decreases node, 1
  {
    match node
    case Str(_, bytes) => bytes
    case Arr(_, items) => SerializeAll(items)
    case Map(_, flat) => SerializeAll(flat)
    case _ => []
  }

  function SerializeAll(nodes: seq<Node>): seq<Byte>
    requires AllLegal(nodes)
    decreases nodes, 0
  {
    if nodes == [] then [] else Serialize(nodes[0]) + SerializeAll(nodes[1..])
  }

  /** The value at the front of `s`. */
  function Parse(s: seq<Byte>): (r: NodeRead)
    ensures r.NodeRead? ==> 1 <= r.used <= |s|
    decreases |s|, 0, 0
  {
    match ParseHead(s)
    case NoHead(e) => NoNode(e)
    case HeadRead(h, k) => ParseBody(h, k, s[k..])
  }

  /** The value whose header `h` took `k` bytes and was followed by `rest`. */
  function ParseBody(h: Head, k: nat, rest: seq<Byte>): (r: NodeRead)
    ensures r.NodeRead? ==> k <= r.used <= k + |rest|
    decreases |rest|, 2, 0
  {
    match h
    case Leaf(node) => NodeRead(node, k)
    case StrHead(length, n) => if |rest| < n then NoNode(Truncated) else NodeRead(Str(length, rest[..n]), k + n)
    case ArrHead(length, n) =>
      (match ParseMany(rest, n)
       case NoNodes(e) => NoNode(e)
       case NodesRead(items, j) => NodeRead(Arr(length, items), k + j))
    case MapHead(length, n) =>
      (match ParseMany(rest, 2 * n)
       case NoNodes(e) => NoNode(e)
       case NodesRead(flat, j) => NodeRead(Map(length, flat), k + j))
  }

  /** `n` values, one behind the other. Each takes a byte at least, so `n` is no more than `|s|`. */
  function ParseMany(s: seq<Byte>, n: nat): (r: NodesRead)
    ensures r.NodesRead? ==> |r.nodes| == n <= r.used <= |s|
    decreases |s|, 1, n
  {
    if n == 0 then NodesRead([], 0)
    else
      match Parse(s)
      case NoNode(e) => NoNodes(e)
      case NodeRead(node, k) => Prepend(node, k, ParseMany(s[k..], n - 1))
  }

  function Prepend(node: Node, k: nat, rest: NodesRead): NodesRead {
    match rest
    case NoNodes(e) => NoNodes(e)
    case NodesRead(nodes, j) => NodesRead([node] + nodes, k + j)
  }

  /** Reading back what was written gives the same derivation and stops where it ended, whatever follows. */
  lemma {:induction false} ParsesSerialized(node: Node, rest: seq<Byte>)
    requires Legal(node)
    ensures Parse(Serialize(node) + rest) == NodeRead(node, |Serialize(node)|)
    decreases node, 2
  {
    var head, behind := SerializeHead(HeadOf(node)), Body(node) + rest;
    assert Serialize(node) + rest == head + behind;
    HeadRoundTrip(HeadOf(node), behind);
    assert (head + behind)[|head|..] == behind;
    ParsesBody(node, |head|, rest);
  }

  lemma {:induction false} ParsesBody(node: Node, k: nat, rest: seq<Byte>)
    requires Legal(node)
    ensures ParseBody(HeadOf(node), k, Body(node) + rest) == NodeRead(node, k + |Body(node)|)
    decreases node, 1
  {
    match node
    case Str(_, bytes) => assert (Body(node) + rest)[..|bytes|] == bytes;
    case Arr(_, items) => ParsesAll(items, rest);
    case Map(_, flat) => ParsesAll(flat, rest);
    case _ =>
  }

  lemma {:induction false} ParsesAll(nodes: seq<Node>, rest: seq<Byte>)
    requires AllLegal(nodes)
    ensures ParseMany(SerializeAll(nodes) + rest, |nodes|) == NodesRead(nodes, |SerializeAll(nodes)|)
    decreases nodes, 0
  {
    if nodes != [] {
      var first, tail := Serialize(nodes[0]), SerializeAll(nodes[1..]) + rest;
      SerializeAllSplits(nodes, rest);
      ParsesSerialized(nodes[0], tail);
      ParsesAll(nodes[1..], rest);
      ParseManyCons(nodes[0], first, nodes[1..], |SerializeAll(nodes[1..])|, tail);
      assert [nodes[0]] + nodes[1..] == nodes;
    }
  }

  lemma Regroups(a: seq<Byte>, b: seq<Byte>, c: seq<Byte>)
    ensures (a + b) + c == a + (b + c)
  {
  }

  lemma SerializeAllSplits(nodes: seq<Node>, rest: seq<Byte>)
    requires nodes != [] && AllLegal(nodes)
    ensures SerializeAll(nodes) + rest == Serialize(nodes[0]) + (SerializeAll(nodes[1..]) + rest)
  {
    Regroups(Serialize(nodes[0]), SerializeAll(nodes[1..]), rest);
  }

  lemma ParseManyCons(node: Node, first: seq<Byte>, nodes: seq<Node>, used: nat, tail: seq<Byte>)
    requires Parse(first + tail) == NodeRead(node, |first|)
    requires ParseMany(tail, |nodes|) == NodesRead(nodes, used)
    ensures ParseMany(first + tail, |nodes| + 1) == NodesRead([node] + nodes, |first| + used)
  {
    assert (first + tail)[|first|..] == tail;
  }

  /** Whatever is read is the writing of a legal derivation, byte for byte. */
  lemma {:induction false} ParseSound(s: seq<Byte>)
    requires Parse(s).NodeRead?
    ensures Legal(Parse(s).node) && Serialize(Parse(s).node) == s[..Parse(s).used]
    decreases |s|, 0, 0
  {
    HeadSound(s);
    var HeadRead(h, k) := ParseHead(s);
    ParseBodySound(h, k, s[k..]);
    Glue(s, k, Parse(s).used - k);
  }

  lemma {:induction false} ParseBodySound(h: Head, k: nat, rest: seq<Byte>)
    requires LegalHead(h) && ParseBody(h, k, rest).NodeRead?
    ensures var NodeRead(node, used) := ParseBody(h, k, rest);
            HeadOf(node) == h && Legal(node) && Body(node) == rest[..used - k]
    decreases |rest|, 2, 0
  {
    match h
    case Leaf(_) =>
    case StrHead(_, _) =>
    case ArrHead(_, n) => ParseManySound(rest, n);
    case MapHead(_, n) => ParseManySound(rest, 2 * n);
  }

  lemma {:induction false} ParseManySound(s: seq<Byte>, n: nat)
    requires ParseMany(s, n).NodesRead?
    ensures AllLegal(ParseMany(s, n).nodes) && SerializeAll(ParseMany(s, n).nodes) == s[..ParseMany(s, n).used]
    decreases |s|, 1, n
  {
    if n > 0 {
      ParseSound(s);
      var NodeRead(node, k) := Parse(s);
      ParseManySound(s[k..], n - 1);
      var NodesRead(nodes, j) := ParseMany(s[k..], n - 1);
      SerializeAllCons(node, nodes);
      Glue(s, k, j);
    }
  }

  lemma SerializeAllCons(node: Node, nodes: seq<Node>)
    requires Legal(node) && AllLegal(nodes)
    ensures AllLegal([node] + nodes) && SerializeAll([node] + nodes) == Serialize(node) + SerializeAll(nodes)
  {
    assert ([node] + nodes)[1..] == nodes;
  }

  lemma Glue(s: seq<Byte>, k: nat, j: nat)
    requires k + j <= |s|
    ensures s[..k] + s[k..][..j] == s[..k + j]
  {
  }

  /** No encoding is the beginning of another: the format needs no separators and is unambiguous. */
  lemma PrefixFree(a: Node, b: Node)
    requires Legal(a) && Legal(b) && Serialize(a) <= Serialize(b)
    ensures a == b
  {
    var rest := Serialize(b)[|Serialize(a)|..];
    assert Serialize(a) + rest == Serialize(b) == Serialize(b) + [];
    ParsesSerialized(a, rest);
    ParsesSerialized(b, []);
  }
}
