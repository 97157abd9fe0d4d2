/**
 The message vocabulary of the feed.  Quantities, identifiers and prices are
 mathematical integers here; `Framing.Fits` states the widths of the wire structs, and
 every place where the program narrows an integer is written out where it happens.
 */
module Protocol {

  datatype Side = Buy | Sell

  datatype Header = Header(instrument: nat, timestamp: nat)

  datatype Msg =
    | AddOrder(header: Header, id: nat, side: Side, price: int, qty: nat)
    | Execute(header: Header, id: nat, qty: nat)
    | Cancel(header: Header, id: nat, qty: nat)
    | Delete(header: Header, id: nat)
    | Replace(header: Header, id: nat, newId: nat, price: int, qty: nat)

  const NUM_INSTRUMENTS: nat := 512

  const TWO_16: nat := 0x1_0000
  const TWO_31: nat := 0x8000_0000
  const TWO_32: nat := 0x1_0000_0000
  const TWO_63: nat := 0x8000_0000_0000_0000
  const TWO_64: nat := 0x1_0000_0000_0000_0000

  /** `static_cast<int>` of a 64-bit value: the low 32 bits, read as two's complement. */
  function ToInt32(x: int): int {
    (x + TWO_31) % TWO_32 - TWO_31
  }

  /** `static_cast<int64_t>` of an unsigned 64-bit value. */
  function ToInt64(x: int): int {
    (x + TWO_63) % TWO_64 - TWO_63
  }

  /** `static_cast<uint32_t>`: the low 32 bits. */
  function ToUint32(x: int): nat {
    x % TWO_32
  }

  datatype Option<T> = None | Some(value: T)

  function Min(a: nat, b: nat): nat {
    if a <= b then a else b
  }
}
