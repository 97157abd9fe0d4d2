/**
 One instrument's book: quantity per price level in two flat arrays, with the two
 best indices maintained incrementally.
 */
module OrderBooks {
  import opened Protocol

  const LEVELS: nat := 16384
  const HALF: nat := 8192

  /** A book as a value. */
  datatype Book = Book(base: int, bid: seq<int>, ask: seq<int>, bestBid: int, bestAsk: int, dropped: nat) {
    predicate Shaped() {
      && |bid| == LEVELS && |ask| == LEVELS
      && -1 <= bestBid < LEVELS && 0 <= bestAsk <= LEVELS
    }

    /** The raw quantity at a level. */
    function At(side: Side, i: nat): int
      requires Shaped() && i < LEVELS
    {
      if side.Buy? then bid[i] else ask[i]
    }

    predicate HasBid() { bestBid >= 0 }
    predicate HasAsk() { bestAsk < LEVELS }
    function BidTicks(): int { base + bestBid }
    function AskTicks(): int { base + bestAsk }
  }

  type ShapedBook = b: Book | b.Shaped() witness Book(0, Zeros(), Zeros(), -1, LEVELS, 0)

  function Zeros(): seq<int> {
    seq(LEVELS, _ => 0)
  }

  const BLANK: ShapedBook := Book(0, Zeros(), Zeros(), -1, LEVELS, 0)

  /** The level of a price.  The difference is narrowed to 32 bits, so prices
      that lie a multiple of 2^32 apart share a level. */
  function IndexOf(base: int, price: int): int {
    ToInt32(price - base)
  }

  predicate InBand(base: int, price: int) {
    0 <= IndexOf(base, price) < LEVELS
  }

  function Centred(b: ShapedBook, reference: int): ShapedBook {
    Book(reference - HALF, Zeros(), Zeros(), -1, LEVELS, b.dropped)
  }

  function Added(b: ShapedBook, side: Side, price: int, qty: nat): ShapedBook {
    var i := IndexOf(b.base, price);
    if !InBand(b.base, price) then b.(dropped := b.dropped + 1)
    else if side.Buy? then b.(bid := b.bid[i := b.bid[i] + qty], bestBid := if i > b.bestBid then i else b.bestBid)
    else b.(ask := b.ask[i := b.ask[i] + qty], bestAsk := if i < b.bestAsk then i else b.bestAsk)
  }

  function Floor(q: int): int {
    if q < 0 then 0 else q
  }

  /** Where the downward walk over empty bid levels stops. */
  function WalkDown(bid: seq<int>, i: int): (r: int)
    requires -1 <= i < |bid|
    decreases i
  {
    if i >= 0 && bid[i] == 0 then WalkDown(bid, i - 1) else i
  }

  /** Where the upward walk over empty ask levels stops. */
  function WalkUp(ask: seq<int>, i: int): (r: int)
    requires 0 <= i <= |ask|
    decreases |ask| - i
  {
    if i < |ask| && ask[i] == 0 then WalkUp(ask, i + 1) else i
  }

  lemma {:induction false} WalkDownStops(bid: seq<int>, i: int)
    requires -1 <= i < |bid|
    ensures var r := WalkDown(bid, i);
            && -1 <= r <= i
            && (r >= 0 ==> bid[r] != 0)
            && forall j :: r < j <= i ==> bid[j] == 0
    decreases i
  {
    if i >= 0 && bid[i] == 0 { WalkDownStops(bid, i - 1); }
  }

  lemma {:induction false} WalkUpStops(ask: seq<int>, i: int)
    requires 0 <= i <= |ask|
    ensures var r := WalkUp(ask, i);
            && i <= r <= |ask|
            && (r < |ask| ==> ask[r] != 0)
            && forall j :: i <= j < r ==> ask[j] == 0
    decreases |ask| - i
  {
    if i < |ask| && ask[i] == 0 { WalkUpStops(ask, i + 1); }
  }

  function Reduced(b: ShapedBook, side: Side, price: int, qty: nat): ShapedBook {
    var i := IndexOf(b.base, price);
    if !InBand(b.base, price) then b.(dropped := b.dropped + 1)
    else if side.Buy? then
      var bid := b.bid[i := Floor(b.bid[i] - qty)];
      WalkDownStops(bid, b.bestBid);
      b.(bid := bid, bestBid := if i == b.bestBid && bid[i] == 0 then WalkDown(bid, b.bestBid) else b.bestBid)
    else
      var ask := b.ask[i := Floor(b.ask[i] - qty)];
      WalkUpStops(ask, b.bestAsk);
      b.(ask := ask, bestAsk := if i == b.bestAsk && ask[i] == 0 then WalkUp(ask, b.bestAsk) else b.bestAsk)
  }

  /** An update that the order-map layer asks of a book. */
  datatype BookOp = Grow(side: Side, price: int, qty: nat) | Shrink(side: Side, price: int, qty: nat)

  function Do(b: ShapedBook, op: BookOp): ShapedBook {
    match op
    case Grow(side, price, qty) => Added(b, side, price, qty)
    case Shrink(side, price, qty) => Reduced(b, side, price, qty)
  }

  function Run(b: ShapedBook, ops: seq<BookOp>): ShapedBook {
    if ops == [] then b else Do(Run(b, ops[..|ops| - 1]), ops[|ops| - 1])
  }

  /** `k` is the highest level with positive quantity, or -1 when there is none. */
  ghost predicate IsTop(bid: seq<int>, k: int) {
    && -1 <= k < |bid|
    && (k >= 0 ==> bid[k] > 0)
    && forall j :: k < j < |bid| ==> bid[j] <= 0
  }

  /** `k` is the lowest level with positive quantity, or `|ask|` when there is none. */
  ghost predicate IsBottom(ask: seq<int>, k: int) {
    && 0 <= k <= |ask|
    && (k < |ask| ==> ask[k] > 0)
    && forall j :: 0 <= j < k ==> ask[j] <= 0
  }

  /** No level is negative and both running indices are the true extremes of the raw depth. */
  ghost predicate Exact(b: ShapedBook) {
    && (forall i :: 0 <= i < LEVELS ==> b.bid[i] >= 0)
    && (forall i :: 0 <= i < LEVELS ==> b.ask[i] >= 0)
    && IsTop(b.bid, b.bestBid)
    && IsBottom(b.ask, b.bestAsk)
  }

  /** An empty add that outranks the touch: the one case that breaks the running indices. */
  predicate AddsPhantom(b: ShapedBook, op: BookOp) {
    && op.Grow?
    && op.qty == 0
    && InBand(b.base, op.price)
    && var i := IndexOf(b.base, op.price); if op.side.Buy? then i > b.bestBid else i < b.bestAsk
  }

  /** The running indices stay exact under every update, except precisely an
      empty add that outranks the touch. */
  lemma DoKeepsExact(b: ShapedBook, op: BookOp)
    requires Exact(b)
    ensures Exact(Do(b, op)) <==> !AddsPhantom(b, op)
  {
    var b' := Do(b, op);
    var i := IndexOf(b.base, op.price);
    if op.Shrink? && InBand(b.base, op.price) {
      if op.side.Buy? {
        WalkDownStops(b'.bid, b.bestBid);
      } else {
        WalkUpStops(b'.ask, b.bestAsk);
      }
    } else if AddsPhantom(b, op) {
      if op.side.Buy? {
        assert b'.bestBid == i && b'.bid[i] == 0;
      } else {
        assert b'.bestAsk == i && b'.ask[i] == 0;
      }
    }
  }

  /** The effect of an update on one level. */
  lemma DoAt(b: ShapedBook, op: BookOp, side: Side, i: nat)
    requires i < LEVELS
    ensures Do(b, op).base == b.base
    ensures Do(b, op).At(side, i) ==
            if op.side == side && IndexOf(b.base, op.price) == i then
              if op.Grow? then b.At(side, i) + op.qty else Floor(b.At(side, i) - op.qty)
            else b.At(side, i)
  {
  }

  /** How many updates of a run fall outside the band. */
  function OutOfBand(base: int, ops: seq<BookOp>): nat {
    if ops == [] then 0
    else OutOfBand(base, ops[..|ops| - 1]) + if InBand(base, ops[|ops| - 1].price) then 0 else 1
  }

  /** Over any run of adds of a positive quantity and reduces, from a fresh book, the
      indices are exact and the drop counter counts the out-of-band updates. */
  lemma {:induction false} RunKeepsExact(b: ShapedBook, ops: seq<BookOp>)
    requires Exact(b)
    requires forall op :: op in ops && op.Grow? ==> op.qty > 0
    ensures Exact(Run(b, ops))
    ensures Run(b, ops).base == b.base
    ensures Run(b, ops).dropped == b.dropped + OutOfBand(b.base, ops)
  {
    if ops == [] {
    } else {
      RunKeepsExact(b, ops[..|ops| - 1]);
      DoKeepsExact(Run(b, ops[..|ops| - 1]), ops[|ops| - 1]);
    }
  }

  /** A book that is centred anew is empty and exact, has its reference in the middle of 16384
      levels, and keeps its drop count. */
  lemma CentredIsExact(b: ShapedBook, reference: int)
    ensures Exact(Centred(b, reference))
    ensures Centred(b, reference).dropped == b.dropped && IndexOf(Centred(b, reference).base, reference) == 8192
    ensures |Centred(b, reference).bid| == |Centred(b, reference).ask| == 16384
    ensures forall side, i: nat :: i < LEVELS ==> Centred(b, reference).At(side, i) == 0
  {
  }

  /** The mutable book. */
  class OrderBook {
    var base: int
    const bid: array<int>
    const ask: array<int>
    var bestBid: int
    var bestAsk: int
    var dropped: nat

    ghost predicate Valid()
      reads this, bid, ask
    {
      && bid != ask && bid.Length == LEVELS && ask.Length == LEVELS
      && -1 <= bestBid < LEVELS && 0 <= bestAsk <= LEVELS
    }

    ghost function Repr(): set<object> { {this, bid, ask} }

    ghost function Value(): ShapedBook
      requires Valid()
      reads this, bid, ask
    {
      Book(base, bid[..], ask[..], bestBid, bestAsk, dropped)
    }

    constructor ()
      ensures Valid() && fresh(Repr())
      ensures Value() == BLANK
    {
      base, bestBid, bestAsk, dropped := 0, -1, LEVELS, 0;
      bid := new int[LEVELS](_ => 0);
      ask := new int[LEVELS](_ => 0);
      new;
      assert bid[..] == Zeros() && ask[..] == Zeros();
    }

    method Init(reference: int)
      requires Valid()
      modifies Repr()
      ensures Valid() && Value() == Centred(old(Value()), reference)
    {
      base := reference - HALF;
      for i := 0 to LEVELS
        invariant forall j :: 0 <= j < i ==> bid[j] == 0 && ask[j] == 0
        modifies bid, ask
      {
        bid[i], ask[i] := 0, 0;
      }
      bestBid, bestAsk := -1, LEVELS;
      assert bid[..] == Zeros() && ask[..] == Zeros();
    }

    method Add(side: Side, price: int, qty: nat) returns (ok: bool)
      requires Valid()
      modifies Repr()
      ensures Valid() && Value() == Added(old(Value()), side, price, qty)
      ensures ok == InBand(base, price)
    {
      var i := IndexOf(base, price);
      if i < 0 || i >= LEVELS {
        dropped := dropped + 1;
        return false;
      }
      if side == Buy {
        bid[i] := bid[i] + qty;
        if i > bestBid { bestBid := i; }
      } else {
        ask[i] := ask[i] + qty;
        if i < bestAsk { bestAsk := i; }
      }
      return true;
    }

    method Reduce(side: Side, price: int, qty: nat) returns (ok: bool)
      requires Valid()
      modifies Repr()
      ensures Valid() && Value() == Reduced(old(Value()), side, price, qty)
      ensures ok == InBand(base, price)
    {
      var i := IndexOf(base, price);
      if i < 0 || i >= LEVELS {
        dropped := dropped + 1;
        return false;
      }
      if side == Buy {
        bid[i] := bid[i] - qty;
        if bid[i] < 0 { bid[i] := 0; }
        ghost var left := bid[..];
        assert left == old(bid[..])[i := Floor(old(bid[i]) - qty)];
        if i == bestBid && bid[i] == 0 {
          while bestBid >= 0 && bid[bestBid] == 0
            invariant -1 <= bestBid < LEVELS
            invariant WalkDown(left, bestBid) == WalkDown(left, i)
            invariant bid[..] == left
            decreases bestBid
            modifies `bestBid
          {
            bestBid := bestBid - 1;
          }
        }
      } else {
        ask[i] := ask[i] - qty;
        if ask[i] < 0 { ask[i] := 0; }
        ghost var left := ask[..];
        assert left == old(ask[..])[i := Floor(old(ask[i]) - qty)];
        if i == bestAsk && ask[i] == 0 {
          while bestAsk < LEVELS && ask[bestAsk] == 0
            invariant 0 <= bestAsk <= LEVELS
            invariant WalkUp(left, bestAsk) == WalkUp(left, i)
            invariant ask[..] == left
            decreases LEVELS - bestAsk
            modifies `bestAsk
          {
            bestAsk := bestAsk + 1;
          }
        }
      }
      return true;
    }

    /** The depth query. */
    method QtyAt(side: Side, price: int) returns (q: int)
      requires Valid()
      ensures q == if InBand(base, price) then Value().At(side, IndexOf(base, price)) else 0
    {
      var i := IndexOf(base, price);
      if i < 0 || i >= LEVELS { return 0; }
      q := if side == Buy then bid[i] else ask[i];
    }
  }
}
