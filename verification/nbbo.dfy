/**
 The consolidated best bid and offer over any number of venues, and the locked and
 crossed pairs between them.  The code reads every venue's cached touch; what is proved
 is about the venues' raw level arrays.
 */
module Nbbo {
  import opened Protocol
  import opened OrderBooks

  datatype Quote = Quote(venue: int, price: int, qty: nat, valid: bool)

  const NO_QUOTE: Quote := Quote(-1, 0, 0, false)

  datatype Relation = Locked | Crossed

  datatype Pair = Pair(bidVenue: nat, offerVenue: nat, bidTicks: int, offerTicks: int, relation: Relation)

  /** A price strictly more aggressive than another: higher to bid, lower to offer. */
  predicate Beats(side: Side, x: int, y: int) {
    if side.Buy? then x > y else x < y
  }

  predicate Quoting(b: ShapedBook, side: Side) {
    if side.Buy? then b.HasBid() else b.HasAsk()
  }

  function TouchTicks(b: ShapedBook, side: Side): int {
    if side.Buy? then b.BidTicks() else b.AskTicks()
  }

  /** A venue's cached touch.  Its quantity is narrowed to 32 bits. */
  function Touch(b: ShapedBook, side: Side, venue: int): Quote {
    if !Quoting(b, side) then NO_QUOTE
    else Quote(venue, TouchTicks(b, side), ToUint32(if side.Buy? then b.bid[b.bestBid] else b.ask[b.bestAsk]), true)
  }

  /** The consolidated touch, venue by venue. */
  function Best(books: seq<ShapedBook>, side: Side): Quote {
    if books == [] then NO_QUOTE else
    var n := |books| - 1;
    var q := Best(books[..n], side);
    if Quoting(books[n], side) && (!q.valid || Beats(side, TouchTicks(books[n], side), q.price))
    then Touch(books[n], side, n) else q
  }

  // ----- the raw depth -----

  /** Level `k` of venue `i` holds quantity. */
  predicate Holds(books: seq<ShapedBook>, side: Side, i: nat, k: nat) {
    i < |books| && k < LEVELS && books[i].At(side, k) > 0
  }

  function PriceAt(books: seq<ShapedBook>, i: nat, k: nat): int
    requires i < |books|
  {
    books[i].base + k
  }

  /** `q` reports the level `k` of its venue. */
  predicate Reports(books: seq<ShapedBook>, side: Side, q: Quote, k: nat) {
    && q.venue >= 0
    && Holds(books, side, q.venue, k)
    && q.price == PriceAt(books, q.venue, k)
    && q.qty == ToUint32(books[q.venue].At(side, k))
  }

  /** No level beats the price, and no venue before `venue` matches it. */
  ghost predicate Unbeaten(books: seq<ShapedBook>, side: Side, price: int, venue: int) {
    forall i: nat, k: nat :: Holds(books, side, i, k) ==>
      !Beats(side, PriceAt(books, i, k), price) && (i < venue ==> PriceAt(books, i, k) != price)
  }

  /** `q` is the extreme non-empty level over the raw arrays of all venues, ties going to
      the lowest venue; or there is no such level. */
  ghost predicate IsNational(books: seq<ShapedBook>, side: Side, q: Quote) {
    if q.valid then (exists k :: Reports(books, side, q, k)) && Unbeaten(books, side, q.price, q.venue)
    else q == NO_QUOTE && forall i: nat, k: nat :: !Holds(books, side, i, k)
  }

  /** At most one quote is national. */
  lemma NationalIsUnique(books: seq<ShapedBook>, side: Side, p: Quote, q: Quote)
    requires IsNational(books, side, p) && IsNational(books, side, q)
    ensures p == q
  {
    if p.valid && q.valid {
      var k :| Reports(books, side, p, k);
      var l :| Reports(books, side, q, l);
    }
  }

  ghost predicate AllExact(books: seq<ShapedBook>) {
    forall i :: 0 <= i < |books| ==> Exact(books[i])
  }

  /** The level of an exact book's touch. */
  function TouchLevel(b: ShapedBook, side: Side): int {
    if side.Buy? then b.bestBid else b.bestAsk
  }

  /** In an exact book the cached touch is the extreme level of the raw array. */
  lemma TouchIsExtreme(books: seq<ShapedBook>, side: Side, i: nat)
    requires i < |books| && Exact(books[i])
    ensures !Quoting(books[i], side) ==> forall k :: !Holds(books, side, i, k)
    ensures Quoting(books[i], side) ==>
              && TouchLevel(books[i], side) >= 0
              && Reports(books, side, Touch(books[i], side, i), TouchLevel(books[i], side))
              && forall k :: Holds(books, side, i, k) ==> !Beats(side, PriceAt(books, i, k), TouchTicks(books[i], side))
  {
    var b := books[i];
    assert side.Buy? ==> IsTop(b.bid, b.bestBid);
    assert side.Sell? ==> IsBottom(b.ask, b.bestAsk);
  }

  lemma NationalGrows(books: seq<ShapedBook>, side: Side, q: Quote)
    requires books != [] && Exact(books[|books| - 1])
    requires IsNational(books[..|books| - 1], side, q)
    ensures var n := |books| - 1;
            IsNational(books, side,
                       if Quoting(books[n], side) && (!q.valid || Beats(side, TouchTicks(books[n], side), q.price))
                       then Touch(books[n], side, n) else q)
  {
    var n := |books| - 1;
    var rest := books[..n];
    TouchIsExtreme(books, side, n);
    forall i: nat, k: nat | i < n ensures Holds(books, side, i, k) == Holds(rest, side, i, k) {
    }
    if q.valid {
      var k :| Reports(rest, side, q, k);
      assert Reports(books, side, q, k);
    }
  }

  /** The consolidated touch is exact against the raw depth of every venue. */
  lemma {:induction false} BestIsNational(books: seq<ShapedBook>, side: Side)
    requires AllExact(books)
    ensures IsNational(books, side, Best(books, side))
  {
    if books == [] {
    } else {
      BestIsNational(books[..|books| - 1], side);
      NationalGrows(books, side, Best(books[..|books| - 1], side));
    }
  }

  /** A market in which nothing rests on a side has the blank quote: no venue, no price, no quantity. */
  lemma NothingToQuote(books: seq<ShapedBook>, side: Side)
    requires AllExact(books) && forall i: nat, k: nat :: !Holds(books, side, i, k)
    ensures Best(books, side) == Quote(-1, 0, 0, false)
  {
    BestIsNational(books, side);
  }

  /** The consolidated quote is one venue's touch. */
  lemma {:induction false} BestIsATouch(books: seq<ShapedBook>, side: Side)
    ensures var q := Best(books, side);
            q.valid ==> 0 <= q.venue < |books| && Quoting(books[q.venue], side) && q == Touch(books[q.venue], side, q.venue)
  {
    if books == [] {
    } else {
      BestIsATouch(books[..|books| - 1], side);
    }
  }

  // ----- locked and crossed pairs -----

  /** Two distinct venues whose cached touches lock or cross. */
  predicate TouchesConflict(books: seq<ShapedBook>, p: Pair) {
    && p.bidVenue < |books| && p.offerVenue < |books| && p.bidVenue != p.offerVenue
    && books[p.bidVenue].HasBid() && p.bidTicks == books[p.bidVenue].BidTicks()
    && books[p.offerVenue].HasAsk() && p.offerTicks == books[p.offerVenue].AskTicks()
    && p.offerTicks <= p.bidTicks
    && (p.relation.Locked? <==> p.bidTicks == p.offerTicks)
  }

  predicate Before(p: Pair, q: Pair) {
    p.bidVenue < q.bidVenue || (p.bidVenue == q.bidVenue && p.offerVenue < q.offerVenue)
  }

  /** Strictly increasing: in order, and no pair of venues twice. */
  ghost predicate Ordered(pairs: seq<Pair>) {
    forall x, y :: 0 <= x < y < |pairs| ==> Before(pairs[x], pairs[y])
  }

  /** The extreme raw levels of two distinct venues, the bid at or above the offer. */
  ghost predicate Conflicts(books: seq<ShapedBook>, p: Pair) {
    && p.bidVenue < |books| && p.offerVenue < |books| && p.bidVenue != p.offerVenue
    && (exists k :: Holds(books, Buy, p.bidVenue, k) && PriceAt(books, p.bidVenue, k) == p.bidTicks)
    && (forall k :: Holds(books, Buy, p.bidVenue, k) ==> PriceAt(books, p.bidVenue, k) <= p.bidTicks)
    && (exists k :: Holds(books, Sell, p.offerVenue, k) && PriceAt(books, p.offerVenue, k) == p.offerTicks)
    && (forall k :: Holds(books, Sell, p.offerVenue, k) ==> p.offerTicks <= PriceAt(books, p.offerVenue, k))
    && p.offerTicks <= p.bidTicks
    && (p.relation.Locked? <==> p.bidTicks == p.offerTicks)
  }

  /** The listing names, in order and once each, exactly the conflicting pairs. */
  ghost predicate Lists(books: seq<ShapedBook>, out: seq<Pair>) {
    Ordered(out) && forall p :: p in out <==> Conflicts(books, p)
  }

  lemma HeadIsMember(x: seq<Pair>)
    ensures x == [] || x[0] in x
  {
  }

  lemma HeadIsLeast(x: seq<Pair>, p: Pair)
    requires Ordered(x) && p in x
    ensures x[0] == p || Before(x[0], p)
  {
  }

  /** That leaves one possible listing. */
  lemma {:induction false} ListingIsUnique(x: seq<Pair>, y: seq<Pair>)
    requires Ordered(x) && Ordered(y) && forall p :: p in x <==> p in y
    ensures x == y
  {
    HeadIsMember(x);
    HeadIsMember(y);
    if x == [] {
    } else {
      HeadIsLeast(x, y[0]);
      HeadIsLeast(y, x[0]);
      SameTail(x, y);
      ListingIsUnique(x[1..], y[1..]);
      assert x == [x[0]] + x[1..] && y == [y[0]] + y[1..];
    }
  }

  /** In an ordered list the tail is the list without its head. */
  lemma TailMembers(x: seq<Pair>, p: Pair)
    requires x != [] && Ordered(x)
    ensures Ordered(x[1..])
    ensures p in x[1..] <==> p in x && p != x[0]
  {
    assert x == [x[0]] + x[1..];
    if p in x[1..] {
      var k :| 0 <= k < |x| - 1 && x[1..][k] == p;
      assert Before(x[0], x[k + 1]);
    }
  }

  lemma SameTail(x: seq<Pair>, y: seq<Pair>)
    requires x != [] && y != [] && x[0] == y[0]
    requires Ordered(x) && Ordered(y) && forall p :: p in x <==> p in y
    ensures Ordered(x[1..]) && Ordered(y[1..])
    ensures forall p :: p in x[1..] <==> p in y[1..]
  {
    forall p ensures p in x[1..] <==> p in y[1..] {
      TailMembers(x, p);
      TailMembers(y, p);
    }
    TailMembers(x, x[0]);
    TailMembers(y, y[0]);
  }

  lemma ConflictIsExact(books: seq<ShapedBook>, p: Pair)
    requires AllExact(books)
    ensures TouchesConflict(books, p) <==> Conflicts(books, p)
  {
    if p.bidVenue < |books| && p.offerVenue < |books| {
      TouchIsExtreme(books, Buy, p.bidVenue);
      TouchIsExtreme(books, Sell, p.offerVenue);
    }
  }

  /** A national quote bounds every level. */
  lemma NationalBounds(books: seq<ShapedBook>, side: Side, q: Quote, i: nat, k: nat)
    requires IsNational(books, side, q) && Holds(books, side, i, k)
    ensures q.valid && !Beats(side, PriceAt(books, i, k), q.price)
  {
  }

  /** A venue that shows the national price has it as its own extreme. */
  lemma NationalConflict(books: seq<ShapedBook>, nbb: Quote, nbo: Quote) returns (p: Pair)
    requires IsNational(books, Buy, nbb) && IsNational(books, Sell, nbo)
    requires nbb.valid && nbo.valid && nbb.price >= nbo.price && nbb.venue != nbo.venue
    ensures Conflicts(books, p)
  {
    var k :| Reports(books, Buy, nbb, k);
    var l :| Reports(books, Sell, nbo, l);
    p := Pair(nbb.venue, nbo.venue, nbb.price, nbo.price, if nbb.price == nbo.price then Locked else Crossed);
    assert Holds(books, Buy, p.bidVenue, k) && PriceAt(books, p.bidVenue, k) == p.bidTicks;
    assert Holds(books, Sell, p.offerVenue, l) && PriceAt(books, p.offerVenue, l) == p.offerTicks;
  }

  lemma ConflictCrosses(books: seq<ShapedBook>, nbb: Quote, nbo: Quote, p: Pair)
    requires IsNational(books, Buy, nbb) && IsNational(books, Sell, nbo)
    requires Conflicts(books, p)
    ensures nbb.valid && nbo.valid && nbb.price >= nbo.price
  {
    var k :| Holds(books, Buy, p.bidVenue, k) && PriceAt(books, p.bidVenue, k) == p.bidTicks;
    var l :| Holds(books, Sell, p.offerVenue, l) && PriceAt(books, p.offerVenue, l) == p.offerTicks;
    NationalBounds(books, Buy, nbb, p.bidVenue, k);
    NationalBounds(books, Sell, nbo, p.offerVenue, l);
  }

  /** A listed pair means the national bid stands at or above the national offer; the
      converse holds whenever those two come from different venues. */
  lemma ListingAgreesWithNational(books: seq<ShapedBook>, nbb: Quote, nbo: Quote, out: seq<Pair>)
    requires Lists(books, out) && IsNational(books, Buy, nbb) && IsNational(books, Sell, nbo)
    ensures out != [] ==> nbb.valid && nbo.valid && nbb.price >= nbo.price
    ensures nbb.valid && nbo.valid && nbb.price >= nbo.price && nbb.venue != nbo.venue ==> out != []
  {
    if out != [] {
      ConflictCrosses(books, nbb, nbo, out[0]);
    }
    if nbb.valid && nbo.valid && nbb.price >= nbo.price && nbb.venue != nbo.venue {
      var p := NationalConflict(books, nbb, nbo);
      assert p in out;
    }
  }

  /** A venue that crosses only itself is not listed, so the condition above is needed. */
  lemma OwnCrossIsNotListed(b: ShapedBook, out: seq<Pair>)
    requires Exact(b) && b.HasBid() && b.HasAsk() && b.bestBid >= b.bestAsk && Lists([b], out)
    ensures Best([b], Buy).valid && Best([b], Sell).valid && Best([b], Buy).price >= Best([b], Sell).price
    ensures out == []
  {
    HeadIsMember(out);
  }

  // ----- the program -----

  ghost function Heads(venues: seq<OrderBook>): set<object> { set v | v in venues :: v as object }

  ghost function Bids(venues: seq<OrderBook>): set<object> { set v | v in venues :: v.bid as object }

  ghost function Asks(venues: seq<OrderBook>): set<object> { set v | v in venues :: v.ask as object }

  ghost function Frame(venues: seq<OrderBook>): set<object> {
    Heads(venues) + Bids(venues) + Asks(venues)
  }

  ghost predicate AllValid(venues: seq<OrderBook>)
    reads Frame(venues)
  {
    forall v :: v in venues ==> v.Valid()
  }

  lemma FrameCovers(venues: seq<OrderBook>, n: nat)
    requires n < |venues|
    ensures Frame(venues[..n]) <= Frame(venues)
    ensures venues[n] in Frame(venues) && venues[n].bid in Frame(venues) && venues[n].ask in Frame(venues)
  {
    assert venues[n] in venues && forall v :: v in venues[..n] ==> v in venues;
    assert Heads(venues[..n]) <= Heads(venues);
    assert Bids(venues[..n]) <= Bids(venues);
    assert Asks(venues[..n]) <= Asks(venues);
  }

  /** The books' values, all at this moment. */
  ghost function Snapshot(venues: seq<OrderBook>): (books: seq<ShapedBook>)
    requires AllValid(venues)
    reads Frame(venues)
    ensures |books| == |venues|
    ensures forall i :: 0 <= i < |venues| ==> books[i] == venues[i].Value()
  {
    if venues == [] then [] else
    var n := |venues| - 1;
    FrameCovers(venues, n);
    Snapshot(venues[..n]) + [venues[n].Value()]
  }

  method BestBid(venues: seq<OrderBook>) returns (best: Quote)
    requires AllValid(venues)
    ensures best == Best(Snapshot(venues), Buy)
    ensures AllExact(Snapshot(venues)) ==> IsNational(Snapshot(venues), Buy, best)
  {
    ghost var books := Snapshot(venues);
    best := NO_QUOTE;
    for i := 0 to |venues|
      invariant best == Best(books[..i], Buy)
    {
      assert books[..i + 1][..i] == books[..i];
      var v := venues[i];
      if v.bestBid >= 0 {
        var px := v.base + v.bestBid;
        if !best.valid || px > best.price {
          best := Quote(i, px, ToUint32(v.bid[v.bestBid]), true);
        }
      }
    }
    assert books[..|venues|] == books;
    if AllExact(books) { BestIsNational(books, Buy); }
  }

  method BestOffer(venues: seq<OrderBook>) returns (best: Quote)
    requires AllValid(venues)
    ensures best == Best(Snapshot(venues), Sell)
    ensures AllExact(Snapshot(venues)) ==> IsNational(Snapshot(venues), Sell, best)
  {
    ghost var books := Snapshot(venues);
    best := NO_QUOTE;
    for i := 0 to |venues|
      invariant best == Best(books[..i], Sell)
    {
      assert books[..i + 1][..i] == books[..i];
      var v := venues[i];
      if v.bestAsk < LEVELS {
        var px := v.base + v.bestAsk;
        if !best.valid || px < best.price {
          best := Quote(i, px, ToUint32(v.ask[v.bestAsk]), true);
        }
      }
    }
    assert books[..|venues|] == books;
    if AllExact(books) { BestIsNational(books, Sell); }
  }

  method Classify(venues: seq<OrderBook>) returns (out: seq<Pair>)
    requires AllValid(venues)
    ensures Ordered(out) && forall p :: p in out <==> TouchesConflict(Snapshot(venues), p)
    ensures AllExact(Snapshot(venues)) ==> Lists(Snapshot(venues), out)
  {
    ghost var books := Snapshot(venues);
    out := [];
    for i := 0 to |venues|
      invariant ListedBefore(books, out, i, 0)
    {
      if venues[i].bestBid < 0 { continue; }
      var bid := venues[i].base + venues[i].bestBid;
      for j := 0 to |venues|
        invariant ListedBefore(books, out, i, j)
      {
        if i == j || venues[j].bestAsk >= LEVELS { continue; }
        var offer := venues[j].base + venues[j].bestAsk;
        if bid == offer {
          out := out + [Pair(i, j, bid, offer, Locked)];
        } else if bid > offer {
          out := out + [Pair(i, j, bid, offer, Crossed)];
        }
      }
    }
    if AllExact(books) {
      forall p ensures p in out <==> Conflicts(books, p) { ConflictIsExact(books, p); }
    }
  }

  /** Everything before the pair of venues `(i, j)`, and nothing else, is listed. */
  ghost predicate ListedBefore(books: seq<ShapedBook>, out: seq<Pair>, i: nat, j: nat) {
    && Ordered(out)
    && forall p :: p in out <==>
         TouchesConflict(books, p) && (p.bidVenue < i || (p.bidVenue == i && p.offerVenue < j))
  }

  // ----- the from-scratch oracles -----

  /** `q` is what a scan of one venue's raw array finds. */
  ghost predicate Scanned(b: ShapedBook, side: Side, venue: int, q: Quote) {
    if side.Buy? then
      exists k :: IsTop(b.bid, k) &&
        q == if k >= 0 then Quote(venue, b.base + k, ToUint32(b.bid[k]), true) else NO_QUOTE
    else
      exists k :: IsBottom(b.ask, k) &&
        q == if k < LEVELS then Quote(venue, b.base + k, ToUint32(b.ask[k]), true) else NO_QUOTE
  }

  method OracleBestBid(book: OrderBook, venue: int) returns (q: Quote)
    requires book.Valid()
    ensures Scanned(book.Value(), Buy, venue, q)
  {
    ghost var b := book.Value();
    var k := LEVELS - 1;
    while k >= 0
      invariant -1 <= k < LEVELS
      invariant forall j :: k < j < LEVELS ==> b.bid[j] <= 0
    {
      if book.bid[k] > 0 {
        assert IsTop(b.bid, k);
        return Quote(venue, book.base + k, ToUint32(book.bid[k]), true);
      }
      k := k - 1;
    }
    assert IsTop(b.bid, -1);
    q := NO_QUOTE;
  }

  method OracleBestAsk(book: OrderBook, venue: int) returns (q: Quote)
    requires book.Valid()
    ensures Scanned(book.Value(), Sell, venue, q)
  {
    ghost var b := book.Value();
    for k := 0 to LEVELS
      invariant forall j :: 0 <= j < k ==> b.ask[j] <= 0
    {
      if book.ask[k] > 0 {
        assert IsBottom(b.ask, k);
        return Quote(venue, book.base + k, ToUint32(book.ask[k]), true);
      }
    }
    assert IsBottom(b.ask, LEVELS);
    q := NO_QUOTE;
  }

  /** The cached touch agrees with the scan exactly when the running index is the true
      extreme of the raw array. */
  lemma TouchAgreesWithScan(b: ShapedBook, side: Side, venue: int)
    ensures Scanned(b, side, venue, Touch(b, side, venue)) <==>
            if side.Buy? then IsTop(b.bid, b.bestBid) else IsBottom(b.ask, b.bestAsk)
  {
  }
}
