/**
 The wire: packed message structs, several to a datagram, with any subset of the
 datagrams lost on the way.
 */
module Framing {
  import opened Protocol
  import opened Masks

  type Byte = x: int | 0 <= x < 256

  const MAX_PAYLOAD: nat := 1200
  const LARGEST: nat := 39
  const HEADER_BYTES: nat := 2

  // ----- integers, little-endian -----

  function Pow256(n: nat): (p: nat)
    ensures p > 0
  {
    if n == 0 then 1 else 256 * Pow256(n - 1)
  }

  /** The low `n` bytes of `x`. */
  function Bytes(x: nat, n: nat): (bs: seq<Byte>)
    ensures |bs| == n
  {
    if n == 0 then [] else [x % 256] + Bytes(x / 256, n - 1)
  }

  function Number(bs: seq<Byte>): nat {
    if bs == [] then 0 else bs[0] + 256 * Number(bs[1..])
  }

  lemma Carry(low: nat, r: nat, q: nat, p: nat)
    requires low < 256 && r < p
    ensures (low + 256 * (q * p + r)) % (256 * p) == low + 256 * r
  {
    assert low + 256 * (q * p + r) == q * (256 * p) + (low + 256 * r);
    DivModUnique(low + 256 * (q * p + r), 256 * p, q, low + 256 * r);
  }

  lemma CarrySplit(x: nat, p: nat)
    requires p > 0
    ensures x % (256 * p) == x % 256 + 256 * ((x / 256) % p)
  {
    var q, r := (x / 256) / p, (x / 256) % p;
    Carry(x % 256, r, q, p);
    assert x / 256 == q * p + r;
  }

  /** Reading back what was written gives the value reduced to the width of the field. */
  lemma {:induction false} NumberOfBytes(x: nat, n: nat)
    ensures Number(Bytes(x, n)) == x % Pow256(n)
  {
    if n == 0 {
    } else {
      NumberOfBytes(x / 256, n - 1);
      assert Bytes(x, n)[1..] == Bytes(x / 256, n - 1);
      CarrySplit(x, Pow256(n - 1));
    }
  }

  lemma Widths()
    ensures Pow256(2) == TWO_16 && Pow256(4) == TWO_32 && Pow256(8) == TWO_64
  {
    assert Pow256(4) == 256 * (256 * Pow256(2));
    assert Pow256(8) == 256 * (256 * (256 * (256 * Pow256(4))));
  }

  // ----- one message -----

  function TypeByte(m: Msg): Byte {
    match m
    case AddOrder(_, _, _, _, _) => 65
    case Execute(_, _, _) => 69
    case Cancel(_, _, _) => 88
    case Delete(_, _) => 68
    case Replace(_, _, _, _, _) => 85
  }

  /** The size of a message by its type byte; zero for a type nobody knows. */
  function SizeOf(t: Byte): nat {
    match t
    case 65 => 32
    case 69 => 23
    case 88 => 23
    case 68 => 19
    case 85 => 39
    case _ => 0
  }

  function MsgSize(m: Msg): nat {
    SizeOf(TypeByte(m))
  }

  function EncodeHeader(m: Msg): (bs: seq<Byte>)
    ensures |bs| == 11
  {
    [TypeByte(m)] + Bytes(m.header.instrument, 2) + Bytes(m.header.timestamp, 8)
  }

  /** The packed struct.  A signed price travels as its 64-bit two's complement. */
  function Encode(m: Msg): (bs: seq<Byte>)
    ensures |bs| == MsgSize(m)
  {
    match m
    case AddOrder(_, id, side, price, qty) =>
      EncodeHeader(m) + Bytes(id, 8) + [if side.Buy? then 66 else 83] + Bytes(price % TWO_64, 8) + Bytes(qty, 4)
    case Execute(_, id, qty) => EncodeHeader(m) + Bytes(id, 8) + Bytes(qty, 4)
    case Cancel(_, id, qty) => EncodeHeader(m) + Bytes(id, 8) + Bytes(qty, 4)
    case Delete(_, id) => EncodeHeader(m) + Bytes(id, 8)
    case Replace(_, id, newId, price, qty) =>
      EncodeHeader(m) + Bytes(id, 8) + Bytes(newId, 8) + Bytes(price % TWO_64, 8) + Bytes(qty, 4)
  }

  /** An unsigned field of a packed struct. */
  function Field(bs: seq<Byte>, at: nat, n: nat): nat
    requires at + n <= |bs|
  {
    Number(bs[at..at + n])
  }

  function DecodeHeader(bs: seq<Byte>): Header
    requires |bs| >= 11
  {
    Header(Field(bs, 1, 2), Field(bs, 3, 8))
  }

  /** Overlay the struct on the bytes.  A type nobody knows gives no message. */
  function Decode(bs: seq<Byte>): Option<Msg>
    requires bs != [] && SizeOf(bs[0]) <= |bs|
  {
    match bs[0]
    case 65 =>
      Some(AddOrder(DecodeHeader(bs), Field(bs, 11, 8), if bs[19] == 66 then Buy else Sell,
                    ToInt64(Field(bs, 20, 8)), Field(bs, 28, 4)))
    case 69 => Some(Execute(DecodeHeader(bs), Field(bs, 11, 8), Field(bs, 19, 4)))
    case 88 => Some(Cancel(DecodeHeader(bs), Field(bs, 11, 8), Field(bs, 19, 4)))
    case 68 => Some(Delete(DecodeHeader(bs), Field(bs, 11, 8)))
    case 85 =>
      Some(Replace(DecodeHeader(bs), Field(bs, 11, 8), Field(bs, 19, 8), ToInt64(Field(bs, 27, 8)), Field(bs, 35, 4)))
    case _ => None
  }

  predicate FitsHeader(h: Header) {
    h.instrument < TWO_16 && h.timestamp < TWO_64
  }

  predicate FitsPrice(price: int) {
    -(TWO_63 as int) <= price < TWO_63
  }

  /** Every field is within the width of its struct member. */
  predicate Fits(m: Msg) {
    && FitsHeader(m.header) && m.id < TWO_64
    && match m
       case AddOrder(_, _, _, price, qty) => FitsPrice(price) && qty < TWO_32
       case Execute(_, _, qty) => qty < TWO_32
       case Cancel(_, _, qty) => qty < TWO_32
       case Delete(_, _) => true
       case Replace(_, _, newId, price, qty) => newId < TWO_64 && FitsPrice(price) && qty < TWO_32
  }

  /** Where the parts of a struct lie. */
  lemma Layout(bs: seq<Byte>, a: seq<Byte>, b: seq<Byte>, c: seq<Byte>, d: seq<Byte>, e: seq<Byte>)
    requires bs == a + b + c + d + e
    ensures |bs| == |a| + |b| + |c| + |d| + |e|
    ensures bs[..|a|] == a && bs[|a|..|a| + |b|] == b && bs[|a| + |b|..|a| + |b| + |c|] == c
    ensures bs[|a| + |b| + |c|..|a| + |b| + |c| + |d|] == d && bs[|a| + |b| + |c| + |d|..] == e
  {
  }

  lemma HeaderLayout(bs: seq<Byte>, m: Msg)
    requires |bs| >= 11 && bs[..11] == EncodeHeader(m)
    ensures bs[0] == TypeByte(m)
    ensures bs[1..3] == Bytes(m.header.instrument, 2) && bs[3..11] == Bytes(m.header.timestamp, 8)
  {
    var t, i, s := [TypeByte(m)], Bytes(m.header.instrument, 2), Bytes(m.header.timestamp, 8);
    Layout(bs[..11], t, i, s, [], []);
    assert bs[1..3] == bs[..11][1..3] && bs[3..11] == bs[..11][3..11] && bs[0] == bs[..11][0];
  }

  lemma HeaderReads(bs: seq<Byte>, m: Msg)
    requires |bs| >= 11 && bs[..11] == EncodeHeader(m)
    ensures DecodeHeader(bs) == Header(m.header.instrument % TWO_16, m.header.timestamp % TWO_64)
  {
    HeaderLayout(bs, m);
    Widths();
    NumberOfBytes(m.header.instrument, 2);
    NumberOfBytes(m.header.timestamp, 8);
  }

  /** The message as the receiver sees it: each field reduced to its width. */
  function Narrowed(m: Msg): Msg {
    var h := Header(m.header.instrument % TWO_16, m.header.timestamp % TWO_64);
    match m
    case AddOrder(_, id, side, price, qty) => AddOrder(h, id % TWO_64, side, ToInt64(price), qty % TWO_32)
    case Execute(_, id, qty) => Execute(h, id % TWO_64, qty % TWO_32)
    case Cancel(_, id, qty) => Cancel(h, id % TWO_64, qty % TWO_32)
    case Delete(_, id) => Delete(h, id % TWO_64)
    case Replace(_, id, newId, price, qty) =>
      Replace(h, id % TWO_64, newId % TWO_64, ToInt64(price), qty % TWO_32)
  }

  lemma SignedReads(price: int)
    ensures ToInt64((price % TWO_64) % TWO_64) == ToInt64(price)
  {
  }

  /** Where the fields of an AddOrder lie. */
  lemma AddLayout(m: Msg)
    requires m.AddOrder?
    ensures var bs := Encode(m);
            && bs[..11] == EncodeHeader(m) && bs[11..19] == Bytes(m.id, 8)
            && bs[19] == (if m.side.Buy? then 66 else 83)
            && bs[20..28] == Bytes(m.price % TWO_64, 8) && bs[28..32] == Bytes(m.qty, 4)
  {
    var bs := Encode(m);
    var side := [if m.side.Buy? then 66 else 83];
    Layout(bs, EncodeHeader(m), Bytes(m.id, 8), side, Bytes(m.price % TWO_64, 8), Bytes(m.qty, 4));
    assert bs[19] == bs[19..20][0] && bs[28..] == bs[28..32];
  }

  lemma LongReads(bs: seq<Byte>, at: nat, x: nat)
    requires at + 8 <= |bs| && bs[at..at + 8] == Bytes(x, 8)
    ensures Field(bs, at, 8) == x % TWO_64
  {
    Widths();
    NumberOfBytes(x, 8);
  }

  lemma WordReads(bs: seq<Byte>, at: nat, x: nat)
    requires at + 4 <= |bs| && bs[at..at + 4] == Bytes(x, 4)
    ensures Field(bs, at, 4) == x % TWO_32
  {
    Widths();
    NumberOfBytes(x, 4);
  }

  lemma AddReads(m: Msg)
    requires m.AddOrder?
    ensures Decode(Encode(m)) == Some(Narrowed(m))
  {
    var bs := Encode(m);
    AddLayout(m);
    HeaderLayout(bs, m);
    HeaderReads(bs, m);
    LongReads(bs, 11, m.id);
    LongReads(bs, 20, m.price % TWO_64);
    WordReads(bs, 28, m.qty);
    SignedReads(m.price);
  }

  lemma TakeReads(m: Msg)
    requires m.Execute? || m.Cancel?
    ensures Decode(Encode(m)) == Some(Narrowed(m))
  {
    var bs := Encode(m);
    Layout(bs, EncodeHeader(m), Bytes(m.id, 8), Bytes(m.qty, 4), [], []);
    HeaderLayout(bs, m);
    HeaderReads(bs, m);
    LongReads(bs, 11, m.id);
    assert bs[19..] == bs[19..23];
    WordReads(bs, 19, m.qty);
  }

  lemma DeleteReads(m: Msg)
    requires m.Delete?
    ensures Decode(Encode(m)) == Some(Narrowed(m))
  {
    var bs := Encode(m);
    Layout(bs, EncodeHeader(m), Bytes(m.id, 8), [], [], []);
    HeaderLayout(bs, m);
    HeaderReads(bs, m);
    LongReads(bs, 11, m.id);
  }

  lemma ReplaceReads(m: Msg)
    requires m.Replace?
    ensures Decode(Encode(m)) == Some(Narrowed(m))
  {
    var bs := Encode(m);
    Layout(bs, EncodeHeader(m), Bytes(m.id, 8), Bytes(m.newId, 8), Bytes(m.price % TWO_64, 8), Bytes(m.qty, 4));
    HeaderLayout(bs, m);
    HeaderReads(bs, m);
    assert bs[35..] == bs[35..39];
    LongReads(bs, 11, m.id);
    LongReads(bs, 19, m.newId);
    LongReads(bs, 27, m.price % TWO_64);
    WordReads(bs, 35, m.qty);
    SignedReads(m.price);
  }

  lemma NarrowedWhenFits(m: Msg)
    ensures Narrowed(m) == m <==> Fits(m)
  {
  }

  lemma TypeComesFirst(m: Msg)
    ensures Encode(m) != [] && Encode(m)[0] == TypeByte(m)
  {
    assert EncodeHeader(m)[0] == TypeByte(m);
  }

  lemma DecodeReads(m: Msg)
    ensures Decode(Encode(m)) == Some(Narrowed(m))
  {
    match m {
      case AddOrder(_, _, _, _, _) => AddReads(m);
      case Execute(_, _, _) => TakeReads(m);
      case Cancel(_, _, _) => TakeReads(m);
      case Delete(_, _) => DeleteReads(m);
      case Replace(_, _, _, _, _) => ReplaceReads(m);
    }
  }

  /** What arrives is the message with each field reduced to its width, so a message
      survives field for field exactly when every field fits. */
  lemma RoundTrip(m: Msg)
    ensures Encode(m) != [] && SizeOf(Encode(m)[0]) == |Encode(m)|
    ensures Decode(Encode(m)) == Some(Narrowed(m))
    ensures Decode(Encode(m)) == Some(m) <==> Fits(m)
  {
    TypeComesFirst(m);
    DecodeReads(m);
    NarrowedWhenFits(m);
  }

  // ----- the layout, byte by byte -----

  lemma DivTwice(x: nat, p: nat)
    requires p > 0
    ensures (x / 256) / p == x / (256 * p)
  {
    var q, r := (x / 256) / p, (x / 256) % p;
    assert x == 256 * (x / 256) + x % 256;
    assert x / 256 == p * q + r;
    assert 256 * (p * q) == (256 * p) * q;
    DivModUnique(x, 256 * p, q, 256 * r + x % 256);
  }

  /** Byte `j` of a field is digit `j` of its value in base 256. */
  lemma {:induction false} ByteAt(x: nat, n: nat, j: nat)
    requires j < n
    ensures Bytes(x, n)[j] == (x / Pow256(j)) % 256
  {
    if j == 0 {
    } else {
      ByteAt(x / 256, n - 1, j - 1);
      DivTwice(x, Pow256(j - 1));
    }
  }

  /** The `n` bytes at `at` hold `x`, least significant first. */
  ghost predicate LittleEndian(bs: seq<Byte>, at: nat, n: nat, x: nat) {
    at + n <= |bs| && forall j :: 0 <= j < n ==> bs[at + j] == (x / Pow256(j)) % 256
  }

  lemma FieldLies(bs: seq<Byte>, at: nat, n: nat, x: nat)
    requires at + n <= |bs| && bs[at..at + n] == Bytes(x, n)
    ensures LittleEndian(bs, at, n, x)
  {
    forall j | 0 <= j < n ensures bs[at + j] == (x / Pow256(j)) % 256 {
      assert bs[at + j] == bs[at..at + n][j];
      ByteAt(x, n, j);
    }
  }

  /** Every struct opens with its type byte, two bytes of instrument and eight of time. */
  lemma HeaderLies(m: Msg)
    ensures var bs := Encode(m);
            && |bs| >= 19
            && bs[0] == (match m
                         case AddOrder(_, _, _, _, _) => 65
                         case Execute(_, _, _) => 69
                         case Cancel(_, _, _) => 88
                         case Delete(_, _) => 68
                         case Replace(_, _, _, _, _) => 85)
            && LittleEndian(bs, 1, 2, m.header.instrument) && LittleEndian(bs, 3, 8, m.header.timestamp)
  {
    var bs := Encode(m);
    assert bs[..11] == EncodeHeader(m);
    HeaderLayout(bs, m);
    FieldLies(bs, 1, 2, m.header.instrument);
    FieldLies(bs, 3, 8, m.header.timestamp);
  }

  lemma AddLies(m: Msg)
    requires m.AddOrder?
    ensures var bs := Encode(m);
            && |bs| == 32 && LittleEndian(bs, 11, 8, m.id) && bs[19] == (if m.side == Buy then 66 else 83)
            && LittleEndian(bs, 20, 8, m.price % TWO_64) && LittleEndian(bs, 28, 4, m.qty)
  {
    AddLayout(m);
    FieldLies(Encode(m), 11, 8, m.id);
    FieldLies(Encode(m), 20, 8, m.price % TWO_64);
    FieldLies(Encode(m), 28, 4, m.qty);
  }

  lemma TakeLies(m: Msg)
    requires m.Execute? || m.Cancel?
    ensures var bs := Encode(m); |bs| == 23 && LittleEndian(bs, 11, 8, m.id) && LittleEndian(bs, 19, 4, m.qty)
  {
    var bs := Encode(m);
    Layout(bs, EncodeHeader(m), Bytes(m.id, 8), Bytes(m.qty, 4), [], []);
    assert bs[19..] == bs[19..23];
    FieldLies(bs, 11, 8, m.id);
    FieldLies(bs, 19, 4, m.qty);
  }

  lemma DeleteLies(m: Msg)
    requires m.Delete?
    ensures |Encode(m)| == 19 && LittleEndian(Encode(m), 11, 8, m.id)
  {
    Layout(Encode(m), EncodeHeader(m), Bytes(m.id, 8), [], [], []);
    FieldLies(Encode(m), 11, 8, m.id);
  }

  lemma ReplaceLies(m: Msg)
    requires m.Replace?
    ensures var bs := Encode(m);
            && |bs| == 39 && LittleEndian(bs, 11, 8, m.id) && LittleEndian(bs, 19, 8, m.newId)
            && LittleEndian(bs, 27, 8, m.price % TWO_64) && LittleEndian(bs, 35, 4, m.qty)
  {
    var bs := Encode(m);
    Layout(bs, EncodeHeader(m), Bytes(m.id, 8), Bytes(m.newId, 8), Bytes(m.price % TWO_64, 8), Bytes(m.qty, 4));
    assert bs[35..] == bs[35..39];
    FieldLies(bs, 11, 8, m.id);
    FieldLies(bs, 19, 8, m.newId);
    FieldLies(bs, 27, 8, m.price % TWO_64);
    FieldLies(bs, 35, 4, m.qty);
  }

  /** The packed structs, offset by offset. */
  lemma StructLayout(m: Msg)
    ensures var bs := Encode(m);
            && |bs| == (match m
                        case AddOrder(_, _, _, _, _) => 32
                        case Execute(_, _, _) => 23
                        case Cancel(_, _, _) => 23
                        case Delete(_, _) => 19
                        case Replace(_, _, _, _, _) => 39)
            && LittleEndian(bs, 11, 8, m.id)
            && (m.AddOrder? ==> bs[19] == (if m.side == Buy then 66 else 83)
                                && LittleEndian(bs, 20, 8, m.price % 0x1_0000_0000_0000_0000) && LittleEndian(bs, 28, 4, m.qty))
            && (m.Execute? || m.Cancel? ==> LittleEndian(bs, 19, 4, m.qty))
            && (m.Replace? ==> LittleEndian(bs, 19, 8, m.newId)
                               && LittleEndian(bs, 27, 8, m.price % 0x1_0000_0000_0000_0000) && LittleEndian(bs, 35, 4, m.qty))
  {
    match m {
      case AddOrder(_, _, _, _, _) => AddLies(m);
      case Execute(_, _, _) => TakeLies(m);
      case Cancel(_, _, _) => TakeLies(m);
      case Delete(_, _) => DeleteLies(m);
      case Replace(_, _, _, _, _) => ReplaceLies(m);
    }
  }

  /** Five bytes are types and no other; the side of an AddOrder is a buy for one byte only. */
  lemma UnknownBytes(bs: seq<Byte>)
    requires bs != [] && SizeOf(bs[0]) <= |bs|
    ensures Decode(bs).None? <==> bs[0] != 65 && bs[0] != 69 && bs[0] != 88 && bs[0] != 68 && bs[0] != 85
    ensures SizeOf(bs[0]) == 0 <==> Decode(bs).None?
    ensures bs[0] == 65 ==> |bs| >= 32 && Decode(bs).value.AddOrder? && (Decode(bs).value.side == Buy <==> bs[19] == 66)
  {
  }
}
