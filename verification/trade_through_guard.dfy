/**
 The outbound-order guard: an order that would execute at its own venue is refused when
 another venue shows a strictly better price.
 */
module TradeThroughGuards {
  import opened Protocol
  import opened OrderBooks
  import opened Nbbo
  import MarketSimulators
  import VenueFeeds

  datatype OutboundOrder = OutboundOrder(side: Side, limit: int, qty: nat, venue: nat)

  datatype Decision = Accepted | RejectedTradeThrough | RejectedNoLiquidity

  datatype GuardResult = GuardResult(decision: Decision, better: Option<Quote>, ownTouch: int)

  function Evaluate(order: OutboundOrder, books: seq<ShapedBook>): GuardResult
    requires order.venue < |books|
  {
    var own := books[order.venue];
    if order.side.Buy? then
      if !own.HasAsk() then GuardResult(RejectedNoLiquidity, None, 0) else
      var ownTouch := own.AskTicks();
      if order.limit < ownTouch then GuardResult(Accepted, None, ownTouch) else
      var nbo := Best(books, Sell);
      if nbo.valid && nbo.venue != order.venue && nbo.price < ownTouch
      then GuardResult(RejectedTradeThrough, Some(nbo), ownTouch)
      else GuardResult(Accepted, None, ownTouch)
    else
      if !own.HasBid() then GuardResult(RejectedNoLiquidity, None, 0) else
      var ownTouch := own.BidTicks();
      if order.limit > ownTouch then GuardResult(Accepted, None, ownTouch) else
      var nbb := Best(books, Buy);
      if nbb.valid && nbb.venue != order.venue && nbb.price > ownTouch
      then GuardResult(RejectedTradeThrough, Some(nbb), ownTouch)
      else GuardResult(Accepted, None, ownTouch)
  }

  // ----- what the decision means for the raw depth -----

  /** The side an order takes liquidity from. */
  function Against(side: Side): Side {
    if side.Buy? then Sell else Buy
  }

  /** The limit reaches a price on the other side. */
  predicate Reaches(order: OutboundOrder, price: int) {
    !Beats(Against(order.side), order.limit, price)
  }

  ghost predicate HasLiquidity(order: OutboundOrder, books: seq<ShapedBook>) {
    exists k :: Holds(books, Against(order.side), order.venue, k)
  }

  /** The order would execute at its own venue at once. */
  ghost predicate Marketable(order: OutboundOrder, books: seq<ShapedBook>) {
    exists k :: Holds(books, Against(order.side), order.venue, k) && Reaches(order, PriceAt(books, order.venue, k))
  }

  /** Level `k` of venue `i` is strictly better than everything at the order's own venue. */
  ghost predicate BeatsOwnVenue(order: OutboundOrder, books: seq<ShapedBook>, i: nat, k: nat) {
    && order.venue < |books|
    && Holds(books, Against(order.side), i, k)
    && forall l :: Holds(books, Against(order.side), order.venue, l) ==>
         Beats(Against(order.side), PriceAt(books, i, k), PriceAt(books, order.venue, l))
  }

  ghost predicate BetterElsewhere(order: OutboundOrder, books: seq<ShapedBook>) {
    exists i: nat, k: nat :: i != order.venue && BeatsOwnVenue(order, books, i, k)
  }

  /** The own touch, in terms of the raw depth of the own venue. */
  lemma OwnTouch(order: OutboundOrder, books: seq<ShapedBook>)
    requires order.venue < |books| && Exact(books[order.venue])
    ensures var own, side := books[order.venue], Against(order.side);
            && (HasLiquidity(order, books) <==> Quoting(own, side))
            && (Marketable(order, books) <==> Quoting(own, side) && Reaches(order, TouchTicks(own, side)))
  {
    var side := Against(order.side);
    TouchIsExtreme(books, side, order.venue);
    if Quoting(books[order.venue], side) {
      assert Holds(books, side, order.venue, TouchLevel(books[order.venue], side));
    }
  }

  lemma BetterIsTheBest(order: OutboundOrder, books: seq<ShapedBook>)
    requires order.venue < |books| && AllExact(books) && Quoting(books[order.venue], Against(order.side))
    ensures var side := Against(order.side);
            var q := Best(books, side);
            BetterElsewhere(order, books) <==>
              q.valid && q.venue != order.venue && Beats(side, q.price, TouchTicks(books[order.venue], side))
  {
    var side := Against(order.side);
    var q := Best(books, side);
    BestIsNational(books, side);
    TouchIsExtreme(books, side, order.venue);
    var top := TouchLevel(books[order.venue], side);
    assert Holds(books, side, order.venue, top);
    if BetterElsewhere(order, books) {
      var i: nat, k: nat :| i != order.venue && BeatsOwnVenue(order, books, i, k);
      NationalBounds(books, side, q, i, k);
    }
    if q.valid && q.venue != order.venue && Beats(side, q.price, TouchTicks(books[order.venue], side)) {
      var k :| Reports(books, side, q, k);
      assert BeatsOwnVenue(order, books, q.venue, k);
    }
  }

  /** A price at which the own venue would trade with the order, and better than which it has none. */
  ghost predicate IsOwnBest(order: OutboundOrder, books: seq<ShapedBook>, price: int)
    requires order.venue < |books|
  {
    && (exists k :: Holds(books, Against(order.side), order.venue, k) && PriceAt(books, order.venue, k) == price)
    && forall k :: Holds(books, Against(order.side), order.venue, k) ==>
         !Beats(Against(order.side), PriceAt(books, order.venue, k), price)
  }

  /** The guard refuses for want of liquidity exactly when the own venue's other side is
      empty, and as a trade-through exactly when the order is marketable at its own venue
      and some other venue holds a strictly better price than any of the own venue's; it
      then reports the best quote over all venues.  The touch it reports is the own venue's
      best price, or zero when there is none. */
  lemma DecisionIsExact(order: OutboundOrder, books: seq<ShapedBook>)
    requires order.venue < |books| && AllExact(books)
    ensures var r := Evaluate(order, books);
            && (r.decision.RejectedNoLiquidity? <==> !HasLiquidity(order, books))
            && (r.decision.RejectedTradeThrough? <==> Marketable(order, books) && BetterElsewhere(order, books))
            && (r.better.Some? <==> r.decision.RejectedTradeThrough?)
            && (r.better.Some? ==> IsNational(books, Against(order.side), r.better.value)
                                   && r.better.value.valid && r.better.value.venue != order.venue)
            && (if HasLiquidity(order, books) then IsOwnBest(order, books, r.ownTouch) else r.ownTouch == 0)
  {
    OwnTouch(order, books);
    TouchIsExtreme(books, Against(order.side), order.venue);
    if Quoting(books[order.venue], Against(order.side)) {
      BetterIsTheBest(order, books);
      BestIsNational(books, Against(order.side));
    }
  }

  /** Sending a refused order to the venue that was reported, with the same limit, is
      always accepted, and would execute there. */
  lemma ResendIsAccepted(order: OutboundOrder, books: seq<ShapedBook>)
    requires order.venue < |books| && AllExact(books)
    requires Evaluate(order, books).decision.RejectedTradeThrough?
    ensures var q := Evaluate(order, books).better.value;
            && 0 <= q.venue < |books|
            && Evaluate(order.(venue := q.venue), books).decision.Accepted?
            && Marketable(order.(venue := q.venue), books)
  {
    var side := Against(order.side);
    DecisionIsExact(order, books);
    var q := Evaluate(order, books).better.value;
    var k :| Reports(books, side, q, k);
    var again := order.(venue := q.venue);
    OwnTouch(order, books);
    OwnTouch(again, books);
    assert Holds(books, side, again.venue, k) && Reaches(again, PriceAt(books, again.venue, k));
    NationalIsUnique(books, side, q, Best(books, side));
  }

  // ----- the documented rule -----

  /** The rule as documented: a limit past the national quote is a trade-through. */
  predicate PastNational(order: OutboundOrder, books: seq<ShapedBook>) {
    var q := Best(books, Against(order.side));
    q.valid && Beats(Against(order.side), q.price, order.limit)
  }

  /** How the program decides on an order past the national quote.  It is a trade-through
      unless the own venue's other side is empty, which is refused for want of liquidity, or
      the limit does not reach the own touch, or the own touch is the national price; the
      last two are accepted.  And only orders past the national quote are trade-throughs. */
  lemma DocumentedRule(order: OutboundOrder, books: seq<ShapedBook>)
    requires order.venue < |books| && AllExact(books)
    ensures Evaluate(order, books).decision.RejectedTradeThrough? ==> PastNational(order, books)
    ensures PastNational(order, books) ==>
              var own, side := books[order.venue], Against(order.side);
              Evaluate(order, books).decision ==
                if !Quoting(own, side) then RejectedNoLiquidity
                else if !Reaches(order, TouchTicks(own, side)) then Accepted
                else if TouchTicks(own, side) == Best(books, side).price then Accepted
                else RejectedTradeThrough
  {
    var side := Against(order.side);
    var q := Best(books, side);
    BestIsNational(books, side);
    if Quoting(books[order.venue], side) {
      TouchIsExtreme(books, side, order.venue);
      NationalBounds(books, side, q, order.venue, TouchLevel(books[order.venue], side));
      if q.valid && q.venue == order.venue {
        var k :| Reports(books, side, q, k);
      }
    }
  }

  /** The three ways to part do occur.  A venue alone: past its touch, and accepted. */
  lemma LoneVenueDisagrees(order: OutboundOrder, b: ShapedBook)
    requires order.venue == 0 && Exact(b) && Quoting(b, Against(order.side))
    requires Beats(Against(order.side), TouchTicks(b, Against(order.side)), order.limit)
    ensures PastNational(order, [b]) && Evaluate(order, [b]).decision.Accepted?
  {
    DecisionIsExact(order, [b]);
    OwnTouch(order, [b]);
    assert [b][..0] == [];
  }

  /** Two venues, a limit between their offers: past the other's quote, short of the own
      touch, and accepted, to rest where the other venue would have sold to it. */
  lemma RestingOrderDisagrees(order: OutboundOrder, own: ShapedBook, other: ShapedBook)
    requires order.venue == 0 && Exact(own) && Exact(other)
    requires var side := Against(order.side);
             && Quoting(own, side) && Quoting(other, side)
             && Beats(side, TouchTicks(other, side), order.limit) && Beats(side, order.limit, TouchTicks(own, side))
    ensures var books := [own, other];
            && PastNational(order, books) && BetterElsewhere(order, books) && !Marketable(order, books)
            && Evaluate(order, books).decision.Accepted?
  {
    var books, side := [own, other], Against(order.side);
    assert books[..1] == [own] && [own][..0] == [];
    assert Best([own], side) == Touch(own, side, 0);
    assert Best(books, side) == Touch(other, side, 1);
    BetterIsTheBest(order, books);
    OwnTouch(order, books);
  }

  /** An own venue with nothing to offer: past the other's quote, and refused for want of liquidity. */
  lemma EmptyVenueDisagrees(order: OutboundOrder, own: ShapedBook, other: ShapedBook)
    requires order.venue == 0 && Exact(own) && Exact(other)
    requires var side := Against(order.side);
             !Quoting(own, side) && Quoting(other, side) && Beats(side, TouchTicks(other, side), order.limit)
    ensures PastNational(order, [own, other]) && Evaluate(order, [own, other]).decision.RejectedNoLiquidity?
  {
    assert [own, other][..1] == [own] && [own][..0] == [];
  }

  /** A book with one sell order of one share. */
  function OneOffer(centre: int, price: int): ShapedBook {
    Added(Centred(BLANK, centre), Sell, price, 1)
  }

  lemma OneOfferQuotes(centre: int, price: int)
    requires -100 <= price - centre <= 100
    ensures Exact(OneOffer(centre, price))
    ensures Quoting(OneOffer(centre, price), Sell) && TouchTicks(OneOffer(centre, price), Sell) == price
  {
    CentredIsExact(BLANK, centre);
    DoKeepsExact(Centred(BLANK, centre), Grow(Sell, price, 1));
  }

  /** For instance: offers at 10002 here and 10000 there, and a buy limited at 10001. */
  lemma RestingOrderExample()
    ensures var order := OutboundOrder(Buy, 10001, 1, 0);
            var books := [OneOffer(10000, 10002), OneOffer(10000, 10000)];
            AllExact(books) && PastNational(order, books) && Evaluate(order, books).decision.Accepted?
  {
    OneOfferQuotes(10000, 10002);
    OneOfferQuotes(10000, 10000);
    RestingOrderDisagrees(OutboundOrder(Buy, 10001, 1, 0), OneOffer(10000, 10002), OneOffer(10000, 10000));
  }

  // ----- reachable books -----

  /** A book that some run of a venue feed leaves behind. */
  ghost predicate Reachable(b: ShapedBook) {
    exists initial, centre, ds :: FedBy(b, initial, centre, ds)
  }

  ghost predicate FedBy(b: ShapedBook, initial: int, centre: int, ds: seq<MarketSimulators.Draw>) {
    && MarketSimulators.Drawable(MarketSimulators.Start([initial]), ds)
    && b == VenueFeeds.FeedAfter(initial, centre, ds).venue.book
  }

  /** So for venues fed in any way, each at its own point of its own run, the guard and the
      consolidated quotes are exact against the raw depth. */
  lemma FedVenuesAreExact(books: seq<ShapedBook>)
    requires forall b :: b in books ==> Reachable(b)
    ensures AllExact(books)
  {
    forall i | 0 <= i < |books| ensures Exact(books[i]) {
      assert Reachable(books[i]);
      var initial, centre, ds :| FedBy(books[i], initial, centre, ds);
      VenueFeeds.EveryFeedIsSound(initial, centre, ds);
    }
  }
}
