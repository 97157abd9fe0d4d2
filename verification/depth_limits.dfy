/**
 When a level's depth outgrows the 32 bits of a quote.
 */
module DepthLimits {
  import opened Protocol
  import opened OrderBooks
  import opened Sums
  import opened Nbbo
  import OM = OrderMaps
  import QB = QueueBooks
  import Coupling = BookCoupling
  import Simulator = MarketSimulators
  import Feeds = VenueFeeds

  /** The quantity a quote reports is the touch's depth exactly when the depth fits 32 bits. */
  lemma QuotedQuantityIsExact(b: ShapedBook, side: Side, venue: int)
    requires Exact(b) && Quoting(b, side)
    ensures TouchLevel(b, side) >= 0
    ensures Touch(b, side, venue).qty == b.At(side, TouchLevel(b, side)) <==> b.At(side, TouchLevel(b, side)) < TWO_32
  {
    assert side.Buy? ==> IsTop(b.bid, b.bestBid);
    assert side.Sell? ==> IsBottom(b.ask, b.bestAsk);
  }

  /** No message of a simulator adds more than 500. */
  lemma {:induction false} AddsAreSmall(s: Simulator.Sim, ds: seq<Simulator.Draw>)
    requires Simulator.Drawable(s, ds)
    ensures QB.AddedOver(QB.QBook(map[], map[], 0), Simulator.Stream(s, ds)) <= 500 * |ds|
  {
    if ds == [] {
    } else {
      var ms := Simulator.Stream(s, ds);
      AddsAreSmall(s, ds[..|ds| - 1]);
      assert ms[..|ms| - 1] == Simulator.Stream(s, ds[..|ds| - 1]);
    }
  }

  lemma PartOfAll(q: QB.QBook, sel: QB.LevelKey -> bool)
    ensures Total(q.levels, QB.Picked(sel)) <= Total(q.levels, QB.Picked(QB.AllLevels()))
  {
    TotalDominates(q.levels, QB.Picked(QB.AllLevels()), QB.Picked(sel));
  }

  lemma RestingIsSmall(s: Simulator.Sim, ds: seq<Simulator.Draw>, sel: QB.LevelKey -> bool)
    requires Simulator.Drawable(s, ds)
    ensures Total(QB.Replay(QB.QBook(map[], map[], 0), Simulator.Stream(s, ds)).levels, QB.Picked(sel)) <= 500 * |ds|
  {
    QB.QuantityIsConserved(Simulator.Stream(s, ds));
    AddsAreSmall(s, ds);
    PartOfAll(QB.Replay(QB.QBook(map[], map[], 0), Simulator.Stream(s, ds)), sel);
  }

  /** So no level of a venue's book exceeds 500 per message. */
  lemma FedDepthIsSmall(initial: int, centre: int, ds: seq<Simulator.Draw>, side: Side, i: nat)
    requires Simulator.Drawable(Simulator.Start([initial]), ds) && i < LEVELS
    ensures Feeds.FeedAfter(initial, centre, ds).venue.book.At(side, i) <= 500 * |ds|
  {
    var ms := Simulator.Stream(Simulator.Start([initial]), ds);
    var v, q := OM.Replay(OM.Opening(centre), ms), QB.Replay(QB.QBook(map[], map[], 0), ms);
    Coupling.ReplayKeepsCoupled(centre, ms);
    assert Coupling.SameDepth(v, q, side, i);
    RestingIsSmall(Simulator.Start([initial]), ds, Coupling.SharesIndex(side, v.book.base, i));
  }

  /** Every quote over venues fed at most 8,589,934 messages each reports its depth in full. */
  lemma FedQuoteIsExact(initial: int, centre: int, ds: seq<Simulator.Draw>, side: Side, venue: int)
    requires Simulator.Drawable(Simulator.Start([initial]), ds) && |ds| <= 8_589_934
    requires Quoting(Feeds.FeedAfter(initial, centre, ds).venue.book, side)
    ensures var b := Feeds.FeedAfter(initial, centre, ds).venue.book;
            TouchLevel(b, side) >= 0 && Touch(b, side, venue).qty == b.At(side, TouchLevel(b, side))
  {
    var b := Feeds.FeedAfter(initial, centre, ds).venue.book;
    Feeds.EveryFeedIsSound(initial, centre, ds);
    QuotedQuantityIsExact(b, side, venue);
    FedDepthIsSmall(initial, centre, ds, side, TouchLevel(b, side));
  }

  // ----- the bound is tight -----

  function BidDraw(): Simulator.Draw {
    Simulator.Draw(0, None, true, Buy, 1, 500, 0, Simulator.DrawDelete, 1)
  }

  function BidDraws(k: nat): (ds: seq<Simulator.Draw>)
    ensures |ds| == k
  {
    if k == 0 then [] else BidDraws(k - 1) + [BidDraw()]
  }

  /** All bids so far rest at one level. */
  ghost predicate Stacked(f: Feeds.Feed, initial: int, k: nat) {
    && f.sim.refs == [initial] && |f.sim.live| == 1
    && f.venue.book.base == initial - HALF
    && f.venue.book.bestBid == (if k == 0 then -1 else HALF - 1)
    && f.venue.book.bid[HALF - 1] == 500 * k
  }

  lemma StackStep(f: Feeds.Feed, initial: int, k: nat)
    requires Stacked(f, initial, k)
    ensures Simulator.Possible(f.sim, BidDraw()) && Stacked(Feeds.Stepped(f, BidDraw()), initial, k + 1)
  {
    OM.RunOfTransition(f.venue.book, f.venue.orders, Simulator.Emitted(f.sim, BidDraw()));
  }

  lemma {:induction false} BidsStack(initial: int, k: nat)
    ensures Simulator.Drawable(Simulator.Start([initial]), BidDraws(k))
    ensures Stacked(Feeds.FeedAfter(initial, initial, BidDraws(k)), initial, k)
  {
    var ds := BidDraws(k);
    if k == 0 {
    } else {
      BidsStack(initial, k - 1);
      assert ds[..k - 1] == BidDraws(k - 1) && ds[k - 1] == BidDraw();
      StackStep(Feeds.FeedAfter(initial, initial, BidDraws(k - 1)), initial, k - 1);
      Feeds.FeedAfterSnoc(initial, initial, ds);
    }
  }

  lemma StackOverflows(initial: int, k: nat)
    requires k >= 8_589_935
    ensures Simulator.Drawable(Simulator.Start([initial]), BidDraws(k))
    ensures var b := Feeds.FeedAfter(initial, initial, BidDraws(k)).venue.book;
            Quoting(b, Buy) && Touch(b, Buy, 0).qty != b.At(Buy, b.bestBid)
  {
    BidsStack(initial, k);
    Feeds.EveryFeedIsSound(initial, initial, BidDraws(k));
    QuotedQuantityIsExact(Feeds.FeedAfter(initial, initial, BidDraws(k)).venue.book, Buy, 0);
  }

  /** With one message more a venue can quote less than it holds. */
  lemma QuoteCanFallShort(initial: int)
    ensures exists ds: seq<Simulator.Draw> ::
              && |ds| == 8_589_935 && Simulator.Drawable(Simulator.Start([initial]), ds)
              && var b := Feeds.FeedAfter(initial, initial, ds).venue.book;
                 Quoting(b, Buy) && Touch(b, Buy, 0).qty != b.At(Buy, b.bestBid)
  {
    var k: nat := 8_589_935;
    StackOverflows(initial, k);
    assert |BidDraws(k)| == k;
  }
}
