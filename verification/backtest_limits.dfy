/**
 How far the backtest can be trusted on the generator's own streams: exact trackers up to
 a message count, a run that fails just past it, and what a placement sees before it.
 */
module BacktestLimits {
  import opened Protocol
  import opened OrderBooks
  import opened Backtests
  import opened BacktestRuns
  import opened Sums
  import OM = OrderMaps
  import QB = QueueBooks
  import Coupling = BookCoupling
  import Simulator = MarketSimulators
  import Feeds = VenueFeeds
  import Framing
  import Reports = BacktestReports

  const LIMIT: nat := 8_589_935

  function NoQueue(): QB.QBook {
    QB.QBook(map[], map[], 0)
  }

  // ----- how much can rest on the bid side -----

  function Bids(): QB.LevelKey -> bool {
    (key: QB.LevelKey) => key.side == Buy
  }

  ghost function BidTotal(q: QB.QBook): nat {
    Total(q.levels, QB.Picked(Bids()))
  }

  ghost predicate HasOffer(q: QB.QBook) {
    exists key :: key in q.levels && key.side == Sell
  }

  /** At most 500 a message rests to buy, and one message less once anything rests to sell. */
  ghost predicate BidsBounded(q: QB.QBook, n: nat) {
    BidTotal(q) <= 500 * n && (HasOffer(q) ==> BidTotal(q) + 500 <= 500 * n)
  }

  predicate AddsAtMost500(m: Msg) {
    m.AddOrder? || m.Replace? ==> m.qty <= 500
  }

  /** A message that brings the first sell order brings no buy quantity. */
  lemma FirstOffer(q: QB.QBook, m: Msg)
    requires QB.WellFormed(q) && !HasOffer(q) && HasOffer(QB.Applied(q, m))
    ensures QB.AddedAt(q, m, Bids()) == 0
  {
    var key :| key in QB.Applied(q, m).levels && key.side == Sell;
    assert key !in q.levels;
    if m.Replace? && m.id in q.orders {
      assert QB.Resolves(q, m.id, q.orders[m.id]);
    }
  }

  lemma StepBidsBounded(q: QB.QBook, m: Msg, n: nat)
    requires QB.WellFormed(q) && BidsBounded(q, n) && AddsAtMost500(m)
    ensures BidsBounded(QB.Applied(q, m), n + 1)
  {
    QB.AppliedTotal(q, m, Bids());
    if !HasOffer(q) && HasOffer(QB.Applied(q, m)) { FirstOffer(q, m); }
  }

  lemma {:induction false} GeneratedBidsBounded(s: Simulator.Sim, ds: seq<Simulator.Draw>)
    requires Simulator.Drawable(s, ds)
    ensures BidsBounded(QB.Replay(NoQueue(), Simulator.Stream(s, ds)), |ds|)
  {
    if ds == [] {
    } else {
      var rest := ds[..|ds| - 1];
      var ms := Simulator.Stream(s, ds);
      GeneratedBidsBounded(s, rest);
      assert ms[..|ms| - 1] == Simulator.Stream(s, rest);
      QB.ReplayIsWellFormed(NoQueue(), Simulator.Stream(s, rest));
      StepBidsBounded(QB.Replay(NoQueue(), Simulator.Stream(s, rest)), ms[|ms| - 1], |rest|);
    }
  }

  lemma {:induction false} NothingWeighed<K, V>(m: map<K, V>, w: (K, V) -> nat)
    requires forall k :: k in m ==> w(k, m[k]) == 0
    ensures Total(m, w) == 0
    decreases |m|
  {
    if m == map[] {
    } else {
      var k :| k in m;
      TotalRemove(m, w, k);
      NothingWeighed(m - {k}, w);
    }
  }

  /** An array book that offers something does so because a sell order rests. */
  lemma AskNeedsOffer(v: OM.Venue, q: QB.QBook)
    requires Coupling.CoupledBooks(v, q) && Exact(v.book) && v.book.HasAsk()
    ensures HasOffer(q)
  {
    var sel := Coupling.SharesIndex(Sell, v.book.base, v.book.bestAsk);
    assert Coupling.SameDepth(v, q, Sell, v.book.bestAsk);
    if forall key :: key in q.levels ==> QB.Picked(sel)(key, q.levels[key]) == 0 {
      NothingWeighed(q.levels, QB.Picked(sel));
      assert false;
    }
    var key :| key in q.levels && QB.Picked(sel)(key, q.levels[key]) != 0;
  }

  lemma BidLevelInTotal(q: QB.QBook, key: QB.LevelKey)
    requires key.side == Buy
    ensures QB.LevelQty(q, key) <= BidTotal(q)
  {
    if key in q.levels { TotalRemove(q.levels, QB.Picked(Bids()), key); }
  }

  // ----- the engine on a generated stream -----

  /** The books before any placement of the last message are exact, coupled and bounded. */
  lemma GeneratedBooks(reference: int, refs: seq<int>, ds: seq<Simulator.Draw>)
    requires Simulator.Drawable(Simulator.Start(refs), ds)
    ensures var ms := Simulator.Stream(Simulator.Start(refs), ds);
            var v, q := OM.Replay(OM.Opening(reference), ms), QB.Replay(NoQueue(), ms);
            && Coupling.CoupledBooks(v, q) && Exact(v.book) && v.book.base == reference - HALF
            && BidsBounded(q, |ds|)
  {
    var ms := Simulator.Stream(Simulator.Start(refs), ds);
    Simulator.StreamIsConsistent(refs, ds);
    Feeds.ConsistentIsClean(OM.Opening(reference), ms);
    OM.OpeningIsSound(reference);
    OM.ReplayIsSound(OM.Opening(reference), ms);
    Coupling.ReplayKeepsCoupled(reference, ms);
    GeneratedBidsBounded(Simulator.Start(refs), ds);
  }

  /** The state a placement on the last message sees. */
  lemma SweptReplays(cfg: Config, reference: int, ms: seq<Msg>)
    requires cfg.interval > 0 && ms != []
    ensures var s := Swept(cfg, Ticks(cfg, reference, ms[..|ms| - 1]), ms[|ms| - 1], |ms| - 1);
            s.venue == OM.Replay(OM.Opening(reference), ms) && s.queue == QB.Replay(NoQueue(), ms)
  {
    TicksReplay(cfg, reference, ms[..|ms| - 1]);
  }

  /** Up to 8,589,935 messages no placement can meet a level of 2^32: one message at least
      brought the offer that a placement requires. */
  lemma {:induction false} SimulatedPlacementsFit(cfg: Config, reference: int, refs: seq<int>, ds: seq<Simulator.Draw>)
    requires cfg.interval > 0 && Simulator.Drawable(Simulator.Start(refs), ds) && |ds| <= LIMIT
    ensures PlacementsFit(cfg, reference, Simulator.Stream(Simulator.Start(refs), ds))
  {
    if ds == [] {
    } else {
      var start, rest := Simulator.Start(refs), ds[..|ds| - 1];
      var ms := Simulator.Stream(start, ds);
      SimulatedPlacementsFit(cfg, reference, refs, rest);
      assert ms[..|ms| - 1] == Simulator.Stream(start, rest);
      SweptReplays(cfg, reference, ms);
      GeneratedBooks(reference, refs, ds);
      var v, q := OM.Replay(OM.Opening(reference), ms), QB.Replay(NoQueue(), ms);
      if v.book.HasAsk() {
        AskNeedsOffer(v, q);
        BidLevelInTotal(q, BestBidLevel(v.book));
      }
    }
  }

  /** So a backtest of any generated stream of up to 8,589,935 messages, for any
      configuration and any centre of the book, has exact trackers throughout. */
  lemma SimulatedTrackersAreExact(cfg: Config, reference: int, refs: seq<int>, ds: seq<Simulator.Draw>)
    requires cfg.interval > 0 && Simulator.Drawable(Simulator.Start(refs), ds) && |ds| <= LIMIT
    ensures EngineTracksExactly(Ticks(cfg, reference, Simulator.Stream(Simulator.Start(refs), ds)))
  {
    SimulatedPlacementsFit(cfg, reference, refs, ds);
    TrackersAreExact(cfg, reference, Simulator.Stream(Simulator.Start(refs), ds));
  }

  // ----- one offer and a pile of bids -----

  function Bid(reference: int, qty: nat, k: nat): Msg {
    AddOrder(Header(0, 0), k + 1, Buy, reference - 1, qty)
  }

  /** One sell order, then `k` buy orders at one price. */
  function Piled(reference: int, qty: nat, k: nat): (ms: seq<Msg>)
    ensures |ms| == k + 1
  {
    if k == 0 then [AddOrder(Header(0, 0), 1, Sell, reference + 1, qty)]
    else Piled(reference, qty, k - 1) + [Bid(reference, qty, k)]
  }

  function PileKey(reference: int): QB.LevelKey {
    QB.LevelKey(0, Buy, reference - 1)
  }

  ghost predicate PiledBook(b: ShapedBook, reference: int, k: nat) {
    b.base == reference - HALF && b.bestAsk == HALF + 1 && b.bestBid == if k == 0 then -1 else HALF - 1
  }

  lemma {:induction false} PileBuildsBook(reference: int, qty: nat, k: nat)
    ensures PiledBook(OM.Replay(OM.Opening(reference), Piled(reference, qty, k)).book, reference, k)
  {
    var ms, v := Piled(reference, qty, k), OM.Opening(reference);
    if k == 0 {
      assert ms[..0] == [];
      OM.RunOfTransition(v.book, v.orders, ms[0]);
    } else {
      PileBuildsBook(reference, qty, k - 1);
      assert ms[..k] == Piled(reference, qty, k - 1);
      var before := OM.Replay(v, Piled(reference, qty, k - 1));
      OM.RunOfTransition(before.book, before.orders, ms[k]);
    }
  }

  /** The level holds `total`, and the first bid rests there. */
  ghost predicate PiledQueue(q: QB.QBook, reference: int, total: nat, k: nat) {
    && QB.LevelQty(q, PileKey(reference)) == total
    && (k > 0 ==> 2 in q.orders && q.orders[2].level == PileKey(reference))
  }

  lemma InsertGrowsLevel(q: QB.QBook, key: QB.LevelKey, id: nat, qty: nat)
    ensures QB.LevelQty(QB.Inserted(q, key, id, qty), key) == QB.LevelQty(q, key) + qty
  {
    var list := QB.ListAt(q, key) + [QB.QEntry(id, qty, q.nextSeq)];
    assert list[..|list| - 1] == QB.ListAt(q, key);
  }

  lemma BidGrowsPile(q: QB.QBook, reference: int, qty: nat, total: nat, k: nat)
    requires k > 0 && PiledQueue(q, reference, total, k - 1)
    ensures PiledQueue(QB.Applied(q, Bid(reference, qty, k)), reference, total + qty, k)
  {
    InsertGrowsLevel(q, PileKey(reference), k + 1, qty);
  }

  lemma OneMore(qty: nat, k: nat)
    requires k > 0
    ensures (k - 1) * qty + qty == k * qty
  {
  }

  lemma QueueSnoc(q: QB.QBook, ms: seq<Msg>, m: Msg)
    ensures QB.Replay(q, ms + [m]) == QB.Applied(QB.Replay(q, ms), m)
  {
    assert (ms + [m])[..|ms|] == ms;
  }

  lemma FirstOfPile(reference: int, qty: nat)
    ensures PiledQueue(QB.Replay(NoQueue(), Piled(reference, qty, 0)), reference, 0, 0)
  {
    QueueSnoc(NoQueue(), [], Piled(reference, qty, 0)[0]);
    assert [] + [Piled(reference, qty, 0)[0]] == Piled(reference, qty, 0);
  }

  lemma {:induction false} PileBuildsQueue(reference: int, qty: nat, k: nat)
    ensures PiledQueue(QB.Replay(NoQueue(), Piled(reference, qty, k)), reference, k * qty, k)
    decreases k
  {
    if k == 0 {
      FirstOfPile(reference, qty);
    } else {
      var rest := Piled(reference, qty, k - 1);
      PileBuildsQueue(reference, qty, k - 1);
      QueueSnoc(NoQueue(), rest, Bid(reference, qty, k));
      BidGrowsPile(QB.Replay(NoQueue(), rest), reference, qty, (k - 1) * qty, k);
      OneMore(qty, k);
    }
  }

  /** The newest active order is a queue-tracked one at the pile, placed on this queue book. */
  ghost predicate NewestAt(e: Engine, reference: int) {
    && e.active != []
    && var a := e.active[|e.active| - 1];
       !a.isNaive && a.level == PileKey(reference) && a.tracker == Some(QB.PlacedAt(e.queue, PileKey(reference)))
  }

  lemma PlacedIsNewest(cfg: Config, s: Engine, reference: int, n: nat)
    requires BestBidLevel(s.venue.book) == PileKey(reference)
    ensures NewestAt(Place(cfg, s, n), reference)
  {
    assert Place(cfg, s, n).active[|s.active| + 1] == TrackedOrder(cfg, s, n);
  }

  lemma PileIsPlacedOn(cfg: Config, reference: int, qty: nat, k: nat)
    requires k > 0 && cfg.interval > 0 && k % cfg.interval == 0
    ensures var s := Swept(cfg, Ticks(cfg, reference, Piled(reference, qty, k)[..k]), Piled(reference, qty, k)[k], k);
            && Places(cfg, s.venue.book, k) && BestBidLevel(s.venue.book) == PileKey(reference)
            && s.queue == QB.Replay(NoQueue(), Piled(reference, qty, k))
  {
    SweptReplays(cfg, reference, Piled(reference, qty, k));
    PileBuildsBook(reference, qty, k);
  }

  /** A placement on the last bid reads the pile, narrowed. */
  lemma PilePlaces(cfg: Config, reference: int, qty: nat, k: nat)
    requires k > 0 && cfg.interval > 0 && k % cfg.interval == 0
    ensures var e := Ticks(cfg, reference, Piled(reference, qty, k));
            QB.WellFormed(e.queue) && PiledQueue(e.queue, reference, k * qty, k) && NewestAt(e, reference)
    ensures k * qty >= TWO_32 ==> !PlacementsFit(cfg, reference, Piled(reference, qty, k))
  {
    var ms := Piled(reference, qty, k);
    PileIsPlacedOn(cfg, reference, qty, k);
    PileBuildsQueue(reference, qty, k);
    QB.ReplayIsWellFormed(NoQueue(), ms);
    PlacedIsNewest(cfg, Swept(cfg, Ticks(cfg, reference, ms[..k]), ms[k], k), reference, k);
  }

  lemma NewestIsWrong(e: Engine, reference: int, total: nat, k: nat)
    requires QB.WellFormed(e.queue) && PiledQueue(e.queue, reference, total, k) && NewestAt(e, reference)
    requires total >= TWO_32
    ensures !EngineTracksExactly(e)
  {
    QB.PlacementAgrees(e.queue, PileKey(reference));
    var a := e.active[|e.active| - 1];
    assert a in e.active && !TracksExactly(e.queue, a);
  }

  /** A pile of 2^32 or more leaves the newest tracker wrong. */
  lemma PileOverflows(cfg: Config, reference: int, qty: nat, k: nat)
    requires k > 0 && cfg.interval > 0 && k % cfg.interval == 0 && k * qty >= TWO_32
    ensures !PlacementsFit(cfg, reference, Piled(reference, qty, k))
    ensures !EngineTracksExactly(Ticks(cfg, reference, Piled(reference, qty, k)))
  {
    PilePlaces(cfg, reference, qty, k);
    NewestIsWrong(Ticks(cfg, reference, Piled(reference, qty, k)), reference, k * qty, k);
  }

  // ----- a false fill -----

  /** The newest order, queue-tracked, is reported filled at message `n` with 2^32 ahead of it. */
  ghost predicate FalselyFilled(before: Engine, results: seq<OrderResult>, n: nat) {
    && before.active != []
    && var a := before.active[|before.active| - 1];
       && !a.isNaive && a.tracker.Some?
       && QB.QtyAhead(before.queue, a.level, a.tracker.value.arrival) == TWO_32
       && FilledLast(results, a.id, n)
  }

  lemma TradeFalselyFills(cfg: Config, e: Engine, reference: int, trade: Msg, n: nat)
    requires cfg.interval > 0 && trade.Execute? && trade.id == 2
    requires QB.WellFormed(e.queue) && PiledQueue(e.queue, reference, TWO_32, 2) && NewestAt(e, reference)
    ensures FalselyFilled(e, Tick(cfg, e, trade, n).results, n)
  {
    FullPile(e, reference);
    TradeFills(cfg, e, trade, n);
  }

  lemma PileFalselyFills(cfg: Config, reference: int, qty: nat, k: nat, trade: Msg)
    requires k == 2 && k * qty == TWO_32 && cfg.interval > 0 && k % cfg.interval == 0
    requires trade.Execute? && trade.id == 2
    ensures var ms := Piled(reference, qty, k);
            FalselyFilled(Ticks(cfg, reference, ms), Ticks(cfg, reference, ms + [trade]).results, k + 1)
  {
    var ms := Piled(reference, qty, k);
    PilePlaces(cfg, reference, qty, k);
    TradeFalselyFills(cfg, Ticks(cfg, reference, ms), reference, trade, k + 1);
    TickSnoc(cfg, reference, ms, trade);
  }

  lemma TwoBids(reference: int, qty: nat, k: nat)
    requires k == 2
    ensures Piled(reference, qty, k) == [AddOrder(Header(0, 0), 1, Sell, reference + 1, qty),
                                         AddOrder(Header(0, 0), 2, Buy, reference - 1, qty),
                                         AddOrder(Header(0, 0), 3, Buy, reference - 1, qty)]
  {
    assert Piled(reference, qty, k) == Piled(reference, qty, k - 1) + [Bid(reference, qty, k)];
    assert Piled(reference, qty, k - 1) == Piled(reference, qty, k - 2) + [Bid(reference, qty, k - 1)];
  }

  lemma PileFits(reference: int, ms: seq<Msg>, qty: nat, trade: Msg)
    requires Framing.FitsPrice(reference - 1) && Framing.FitsPrice(reference + 1) && qty < TWO_32
    requires ms == [AddOrder(Header(0, 0), 1, Sell, reference + 1, qty), AddOrder(Header(0, 0), 2, Buy, reference - 1, qty),
                    AddOrder(Header(0, 0), 3, Buy, reference - 1, qty)]
    requires Framing.Fits(trade)
    ensures forall m :: m in ms + [trade] ==> Framing.Fits(m)
  {
  }

  /** Two buys of 2^31 make a level of exactly 2^32, which narrows to nothing: an order
      placed behind them believes itself at the front, and one share traded fills it. */
  lemma FalseFill(cfg: Config, reference: int)
    requires cfg.interval == 1 || cfg.interval == 2
    requires Framing.FitsPrice(reference - 1) && Framing.FitsPrice(reference + 1)
    ensures var ms := [AddOrder(Header(0, 0), 1, Sell, reference + 1, 0x8000_0000),
                       AddOrder(Header(0, 0), 2, Buy, reference - 1, 0x8000_0000),
                       AddOrder(Header(0, 0), 3, Buy, reference - 1, 0x8000_0000)];
            var trade := Execute(Header(0, 0), 2, 1);
            && (forall m :: m in ms + [trade] ==> Framing.Fits(m))
            && FalselyFilled(Ticks(cfg, reference, ms), Ticks(cfg, reference, ms + [trade]).results, 3)
  {
    var qty: nat, k: nat := 0x8000_0000, 2;
    TwoBids(reference, qty, k);
    PileFits(reference, Piled(reference, qty, k), qty, Execute(Header(0, 0), 2, 1));
    PileFalselyFills(cfg, reference, qty, k, Execute(Header(0, 0), 2, 1));
  }

  lemma TickSnoc(cfg: Config, reference: int, ms: seq<Msg>, m: Msg)
    requires cfg.interval > 0
    ensures Ticks(cfg, reference, ms + [m]) == Tick(cfg, Ticks(cfg, reference, ms), m, |ms|)
  {
    assert (ms + [m])[..|ms|] == ms;
  }

  /** The last result fills a queue-tracked order. */
  predicate FilledLast(results: seq<OrderResult>, id: nat, n: nat) {
    results != [] && var r := results[|results| - 1];
    r.id == id && !r.isNaive && r.outcome == Filled && r.resolved == n
  }

  lemma FullPile(e: Engine, reference: int)
    requires QB.WellFormed(e.queue) && PiledQueue(e.queue, reference, TWO_32, 2) && NewestAt(e, reference)
    ensures var a := e.active[|e.active| - 1];
            && a.tracker.value.front && a.tracker.value.level == a.level
            && QB.QtyAhead(e.queue, a.level, a.tracker.value.arrival) == TWO_32
            && 2 in e.queue.orders && e.queue.orders[2].level == a.level
  {
    QB.AheadOfAll(QB.ListAt(e.queue, PileKey(reference)), e.queue.nextSeq);
  }

  /** A trade at its level fills an order whose tracker says front. */
  lemma TradeFills(cfg: Config, e: Engine, trade: Msg, n: nat)
    requires cfg.interval > 0 && e.active != []
    requires var a := e.active[|e.active| - 1];
             && !a.isNaive && a.tracker.Some? && a.tracker.value.front && a.tracker.value.level == a.level
             && trade.Execute? && trade.id in e.queue.orders && e.queue.orders[trade.id].level == a.level
    ensures FilledLast(Tick(cfg, e, trade, n).results, e.active[|e.active| - 1].id, n)
  {
    QB.ExecuteEffect(e.queue, trade);
    assert Fills(e.active[|e.active| - 1], QB.EffectOf(e.queue, trade));
  }

  // ----- the limit is tight -----

  /** The generator can emit that pile, 500 at a time. */
  function PileDraw(side: Side): Simulator.Draw {
    Simulator.Draw(0, None, true, side, 1, 500, 0, Simulator.DrawDelete, 1)
  }

  function PileDraws(k: nat): (ds: seq<Simulator.Draw>)
    ensures |ds| == k + 1
  {
    if k == 0 then [PileDraw(Sell)] else PileDraws(k - 1) + [PileDraw(Buy)]
  }

  ghost predicate AtPile(s: Simulator.Sim, reference: int, k: nat) {
    s.refs == [reference] && |s.live| == 1 && s.nextId == k + 2
  }

  lemma PileDrawStep(s: Simulator.Sim, reference: int, k: nat)
    requires AtPile(s, reference, k)
    ensures Simulator.Possible(s, PileDraw(Buy))
    ensures Simulator.Emitted(s, PileDraw(Buy)) == Bid(reference, 500, k + 1)
    ensures AtPile(Simulator.After(s, PileDraw(Buy)), reference, k + 1)
  {
  }

  lemma PileStarts(reference: int)
    ensures var start, d := Simulator.Start([reference]), PileDraw(Sell);
            && Simulator.Possible(start, d)
            && Simulator.Emitted(start, d) == Piled(reference, 500, 0)[0]
            && AtPile(Simulator.After(start, d), reference, 0)
  {
  }

  lemma {:induction false} PileIsGenerated(reference: int, k: nat)
    ensures Simulator.Drawable(Simulator.Start([reference]), PileDraws(k))
    ensures Simulator.Stream(Simulator.Start([reference]), PileDraws(k)) == Piled(reference, 500, k)
    ensures AtPile(Simulator.SimAfter(Simulator.Start([reference]), PileDraws(k)), reference, k)
  {
    var start, ds := Simulator.Start([reference]), PileDraws(k);
    if k == 0 {
      PileStarts(reference);
      assert ds[..0] == [] && ds[0] == PileDraw(Sell);
      assert Simulator.SimAfter(start, ds[..0]) == start && Simulator.Stream(start, ds[..0]) == [];
    } else {
      PileIsGenerated(reference, k - 1);
      assert ds[..k] == PileDraws(k - 1) && ds[k] == PileDraw(Buy);
      PileDrawStep(Simulator.SimAfter(start, PileDraws(k - 1)), reference, k - 1);
    }
  }

  lemma PileAtLimit(cfg: Config, reference: int, k: nat)
    requires k == LIMIT && cfg.interval > 0 && k % cfg.interval == 0
    ensures Simulator.Drawable(Simulator.Start([reference]), PileDraws(k))
    ensures !EngineTracksExactly(Ticks(cfg, reference, Simulator.Stream(Simulator.Start([reference]), PileDraws(k))))
  {
    PileIsGenerated(reference, k);
    PileOverflows(cfg, reference, 500, k);
  }

  /** One message more and some generated run has a wrong tracker. */
  lemma LimitIsTight(cfg: Config, reference: int)
    requires cfg.interval == 1
    ensures exists ds: seq<Simulator.Draw> :: |ds| == LIMIT + 1 && Simulator.Drawable(Simulator.Start([reference]), ds)
              && !EngineTracksExactly(Ticks(cfg, reference, Simulator.Stream(Simulator.Start([reference]), ds)))
  {
    var k: nat := LIMIT;
    PileAtLimit(cfg, reference, k);
    assert |PileDraws(k)| == k + 1;
  }

  // ----- what a placement sees -----

  /** Every level of the queue book belongs to instrument 0 and lies near the opening price. */
  ghost predicate LevelsNear(q: QB.QBook, initial: int, w: nat) {
    forall key :: key in q.levels ==> key.instrument == 0 && -(w as int) <= key.price - initial <= w
  }

  predicate InsertsNear(m: Msg, initial: int, w: nat) {
    m.AddOrder? || m.Replace? ==> m.header.instrument == 0 && -(w as int) <= m.price - initial <= w
  }

  lemma StepLevelsNear(q: QB.QBook, m: Msg, initial: int, w: nat)
    requires QB.WellFormed(q) && LevelsNear(q, initial, w) && InsertsNear(m, initial, w)
    ensures LevelsNear(QB.Applied(q, m), initial, w)
  {
    if m.id in q.orders {
      assert QB.Resolves(q, m.id, q.orders[m.id]);
    }
  }

  lemma EmissionIsNear(s: Simulator.Sim, d: Simulator.Draw, initial: int, n: nat)
    requires |s.refs| == 1 && -3 * n <= s.refs[0] - initial <= 3 * n && Simulator.Possible(s, d)
    ensures InsertsNear(Simulator.Emitted(s, d), initial, 3 * n + 203)
  {
  }

  lemma NearWidens(q: QB.QBook, initial: int, w: nat, x: nat)
    requires LevelsNear(q, initial, w) && w <= x
    ensures LevelsNear(q, initial, x)
  {
  }

  lemma StreamSnoc(s: Simulator.Sim, ds: seq<Simulator.Draw>)
    requires ds != [] && Simulator.Drawable(s, ds)
    ensures var rest, ms := ds[..|ds| - 1], Simulator.Stream(s, ds);
            && Simulator.Drawable(s, rest) && Simulator.Possible(Simulator.SimAfter(s, rest), ds[|ds| - 1])
            && |ms| == |ds| && ms[..|ds| - 1] == Simulator.Stream(s, rest)
            && ms[|ds| - 1] == Simulator.Emitted(Simulator.SimAfter(s, rest), ds[|ds| - 1])
  {
  }

  lemma {:induction false} GeneratedLevelsNear(initial: int, ds: seq<Simulator.Draw>)
    requires Simulator.Drawable(Simulator.Start([initial]), ds)
    ensures LevelsNear(QB.Replay(NoQueue(), Simulator.Stream(Simulator.Start([initial]), ds)), initial, 3 * |ds| + 200)
  {
    var start := Simulator.Start([initial]);
    var ms := Simulator.Stream(start, ds);
    if ds == [] {
    } else {
      var n := |ds| - 1;
      GeneratedLevelsNear(initial, ds[..n]);
      StreamSnoc(start, ds);
      Feeds.DriftIsBounded(initial, ds[..n]);
      EmissionIsNear(Simulator.SimAfter(start, ds[..n]), ds[n], initial, n);
      QB.ReplayIsWellFormed(NoQueue(), ms[..n]);
      var q := QB.Replay(NoQueue(), ms[..n]);
      NearWidens(q, initial, 3 * n + 200, 3 * n + 203);
      StepLevelsNear(q, ms[n], initial, 3 * n + 203);
    }
  }

  /** Near levels do not share an index. */
  lemma NearLevelsDiffer(q: QB.QBook, initial: int, w: nat, i: nat, key: QB.LevelKey)
    requires LevelsNear(q, initial, w) && w < 1_000_000_000 && i < LEVELS && key in q.levels
    requires Coupling.SharesIndex(Buy, initial - HALF, i)(key)
    ensures key == QB.LevelKey(0, Buy, initial - HALF + i)
  {
  }

  /** On a one-instrument run the level a placement joins holds just what the array shows
      at the touch: something, and less than 2^32. */
  lemma TouchIsQueued(initial: int, ds: seq<Simulator.Draw>)
    requires Simulator.Drawable(Simulator.Start([initial]), ds) && |ds| <= LIMIT
    requires var v := OM.Replay(OM.Opening(initial), Simulator.Stream(Simulator.Start([initial]), ds));
             v.book.HasBid() && v.book.HasAsk()
    ensures var ms := Simulator.Stream(Simulator.Start([initial]), ds);
            var v, q := OM.Replay(OM.Opening(initial), ms), QB.Replay(NoQueue(), ms);
            0 < QB.LevelQty(q, BestBidLevel(v.book)) == v.book.At(Buy, v.book.bestBid) < TWO_32
  {
    var ms := Simulator.Stream(Simulator.Start([initial]), ds);
    var v, q := OM.Replay(OM.Opening(initial), ms), QB.Replay(NoQueue(), ms);
    GeneratedBooks(initial, [initial], ds);
    AskNeedsOffer(v, q);
    BidLevelInTotal(q, BestBidLevel(v.book));
    Coupling.AheadIsTouchDepth(v, q);
    GeneratedLevelsNear(initial, ds);
    forall key | key in q.levels && Coupling.SharesIndex(Buy, v.book.base, v.book.bestBid)(key)
      ensures key == BestBidLevel(v.book)
    {
      NearLevelsDiffer(q, initial, 3 * |ds| + 200, v.book.bestBid, key);
    }
  }

  /** The quantity that both orders of a placement record is the array's positive touch
      depth, and the tracker starts behind exactly that. */
  ghost predicate SeesTheTouch(cfg: Config, s: Engine, n: nat) {
    && s.venue.book.HasBid()
    && var a := TrackedOrder(cfg, s, n);
       && a.aheadAtPlace == NaiveOrder(cfg, s, n).aheadAtPlace == s.venue.book.At(Buy, s.venue.book.bestBid) > 0
       && a.tracker.value.ahead == a.aheadAtPlace && !a.tracker.value.front
  }

  lemma PlacementSees(cfg: Config, s: Engine, n: nat)
    requires s.venue.book.HasBid()
    requires 0 < QB.LevelQty(s.queue, BestBidLevel(s.venue.book)) == s.venue.book.At(Buy, s.venue.book.bestBid) < TWO_32
    ensures SeesTheTouch(cfg, s, n)
  {
  }

  /** Every placement of the engine on a one-instrument run sees the touch. */
  lemma PlacementsSeeTheTouch(cfg: Config, initial: int, ds: seq<Simulator.Draw>)
    requires cfg.interval > 0 && Simulator.Drawable(Simulator.Start([initial]), ds) && 0 < |ds| <= LIMIT
    ensures var ms := Simulator.Stream(Simulator.Start([initial]), ds);
            var n := |ms| - 1;
            var s := Swept(cfg, Ticks(cfg, initial, ms[..n]), ms[n], n);
            Places(cfg, s.venue.book, n) ==> SeesTheTouch(cfg, s, n)
  {
    var ms := Simulator.Stream(Simulator.Start([initial]), ds);
    var n := |ms| - 1;
    var s := Swept(cfg, Ticks(cfg, initial, ms[..n]), ms[n], n);
    SweptReplays(cfg, initial, ms);
    if Places(cfg, s.venue.book, n) {
      TouchIsQueued(initial, ds);
      PlacementSees(cfg, s, n);
    }
  }

  ghost predicate AllBehind(active: seq<ActiveOrder>, results: seq<OrderResult>) {
    && (forall a :: a in active ==> a.aheadAtPlace > 0)
    && (forall r :: r in results ==> r.aheadAtPlace > 0)
  }

  lemma {:induction false} SweepBehind(active: seq<ActiveOrder>, eff: QB.Effect, book: ShapedBook, idx: nat, ttl: nat)
    requires forall a :: a in active ==> a.aheadAtPlace > 0
    ensures AllBehind(Kept(active, eff, idx, ttl), Resolved(active, eff, book, idx, ttl))
  {
    if active == [] {
    } else {
      SweepBehind(active[..|active| - 1], eff, book, idx, ttl);
    }
  }

  lemma TickBehind(cfg: Config, e: Engine, m: Msg, n: nat)
    requires cfg.interval > 0 && AllBehind(e.active, e.results)
    requires Places(cfg, Swept(cfg, e, m, n).venue.book, n) ==> SeesTheTouch(cfg, Swept(cfg, e, m, n), n)
    ensures AllBehind(Tick(cfg, e, m, n).active, Tick(cfg, e, m, n).results)
  {
    SweepBehind(e.active, QB.EffectOf(e.queue, m), Swept(cfg, e, m, n).venue.book, n, cfg.ttl);
  }

  lemma {:induction false} TicksBehind(cfg: Config, initial: int, ds: seq<Simulator.Draw>)
    requires cfg.interval > 0 && Simulator.Drawable(Simulator.Start([initial]), ds) && |ds| <= LIMIT
    ensures var e := Ticks(cfg, initial, Simulator.Stream(Simulator.Start([initial]), ds)); AllBehind(e.active, e.results)
  {
    if ds == [] {
    } else {
      var start := Simulator.Start([initial]);
      var ms, n := Simulator.Stream(start, ds), |ds| - 1;
      TicksBehind(cfg, initial, ds[..n]);
      StreamSnoc(start, ds);
      PlacementsSeeTheTouch(cfg, initial, ds);
      TickBehind(cfg, Ticks(cfg, initial, ms[..n]), ms[n], n);
    }
  }

  lemma {:induction false} LeftoversBehind(active: seq<ActiveOrder>, book: ShapedBook, n: nat)
    requires forall a :: a in active ==> a.aheadAtPlace > 0
    ensures forall r :: r in Leftovers(active, book, n) ==> r.aheadAtPlace > 0
  {
    if active == [] {
    } else {
      LeftoversBehind(active[..|active| - 1], book, n);
    }
  }

  /** No order of the backtest ever starts at the front of its queue: every result reports
      something ahead of it at its placement. */
  lemma EveryOrderStartsBehind(cfg: Config, initial: int, ds: seq<Simulator.Draw>)
    requires cfg.interval > 0 && Simulator.Drawable(Simulator.Start([initial]), ds) && |ds| <= LIMIT
    ensures forall r :: r in Results(cfg, initial, Simulator.Stream(Simulator.Start([initial]), ds)) ==> r.aheadAtPlace > 0
  {
    var ms := Simulator.Stream(Simulator.Start([initial]), ds);
    TicksBehind(cfg, initial, ds);
    LeftoversBehind(Ticks(cfg, initial, ms).active, Ticks(cfg, initial, ms).venue.book, |ms|);
  }

  // ----- the side conditions of a report -----

  lemma {:induction false} StreamPrefix(s: Simulator.Sim, ds: seq<Simulator.Draw>, k: nat)
    requires Simulator.Drawable(s, ds) && k <= |ds|
    ensures Simulator.Drawable(s, ds[..k]) && Simulator.Stream(s, ds)[..k] == Simulator.Stream(s, ds[..k])
    decreases |ds|
  {
    if k == |ds| {
      assert ds[..k] == ds;
    } else {
      StreamPrefix(s, ds[..|ds| - 1], k);
      StreamSnoc(s, ds);
      assert ds[..|ds| - 1][..k] == ds[..k];
      assert Simulator.Stream(s, ds)[..|ds| - 1][..k] == Simulator.Stream(s, ds)[..k];
    }
  }

  /** On a generated stream every book is exact, so what is said of the raw arrays at a
      placement or a resolution holds without condition. */
  lemma GeneratedBooksAreExact(x: Reports.Scenario, refs: seq<int>, ds: seq<Simulator.Draw>, k: nat)
    requires Simulator.Drawable(Simulator.Start(refs), ds) && k <= |ds|
    requires Reports.Faithful(x) && x.ms == Simulator.Stream(Simulator.Start(refs), ds)
    ensures Exact(x.books[k])
  {
    assert Reports.FaithfulAt(x, k);
    StreamPrefix(Simulator.Start(refs), ds, k);
    GeneratedBooks(x.reference, refs, ds[..k]);
  }

  /** And up to 8,589,935 messages every placement fits 32 bits, so that every fill is told. */
  lemma GeneratedPlacementsFit(x: Reports.Scenario, refs: seq<int>, ds: seq<Simulator.Draw>, r: OrderResult)
    requires x.cfg.interval > 0 && Simulator.Drawable(Simulator.Start(refs), ds) && |ds| <= LIMIT
    requires Reports.Faithful(x) && x.ms == Simulator.Stream(Simulator.Start(refs), ds) && r in Results(x.cfg, x.reference, x.ms)
    ensures r.placed < |x.ms|
    ensures QB.LevelQty(x.queues[r.placed + 1], QB.LevelKey(0, r.side, r.price)) < TWO_32
  {
    Reports.EveryResultIsTold(x, r);
    var k := r.placed + 1;
    assert Reports.FaithfulAt(x, k);
    StreamPrefix(Simulator.Start(refs), ds, k);
    GeneratedBooks(x.reference, refs, ds[..k]);
    var v, q := OM.Replay(OM.Opening(x.reference), x.ms[..k]), x.queues[k];
    AskNeedsOffer(v, q);
    BidLevelInTotal(q, QB.LevelKey(0, r.side, r.price));
  }
}
