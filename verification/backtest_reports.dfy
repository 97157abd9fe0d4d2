/**
 What a backtest result says, told from the message stream alone: which message filled an
 order and that no earlier one should have, what the market showed then, and what was placed.
 */
module BacktestReports {
  import opened Protocol
  import opened OrderBooks
  import opened Backtests
  import OM = OrderMaps
  import QB = QueueBooks
  import Runs = BacktestRuns

  /** A run with the books recorded after each number of messages: `books[k]` and `queues[k]`
      are what message `k` meets. */
  datatype Recording = Recording(cfg: Config, reference: int, ms: seq<Msg>, books: seq<ShapedBook>, queues: seq<QB.QBook>)

  type Scenario = x: Recording | |x.books| == |x.ms| + 1 && |x.queues| == |x.ms| + 1
    witness Recording(Config(1, 1, 1), 0, [], [BLANK], [QB.QBook(map[], map[], 0)])

  /** The recording of a stream. */
  function Recorded(cfg: Config, reference: int, ms: seq<Msg>): Scenario {
    Recording(cfg, reference, ms,
              seq(|ms| + 1, k requires 0 <= k <= |ms| => OM.Replay(OM.Opening(reference), ms[..k]).book),
              seq(|ms| + 1, k requires 0 <= k <= |ms| => QB.Replay(QB.QBook(map[], map[], 0), ms[..k])))
  }

  /** The books recorded after `k` messages are those of the stream. */
  ghost predicate FaithfulAt(x: Scenario, k: nat)
    requires k <= |x.ms|
  {
    && x.books[k] == OM.Replay(OM.Opening(x.reference), x.ms[..k]).book
    && x.queues[k] == QB.Replay(QB.QBook(map[], map[], 0), x.ms[..k])
  }

  ghost predicate Faithful(x: Scenario) {
    forall k :: 0 <= k <= |x.ms| ==> FaithfulAt(x, k)
  }

  lemma RecordedIsFaithful(cfg: Config, reference: int, ms: seq<Msg>)
    ensures Faithful(Recorded(cfg, reference, ms))
  {
  }

  function State(x: Scenario, k: nat): Engine
    requires x.cfg.interval > 0 && k <= |x.ms|
  {
    Ticks(x.cfg, x.reference, x.ms[..k])
  }

  // ----- events of the stream -----

  /** Message `k` executes an order that rests at the level. */
  predicate Trade(x: Scenario, k: nat, level: QB.LevelKey) {
    && k < |x.ms| && x.ms[k].Execute?
    && x.ms[k].id in x.queues[k].orders && x.queues[k].orders[x.ms[k].id].level == level
  }

  /** And nothing that arrived before an order placed after message `placed` still rests there. */
  predicate FrontTrade(x: Scenario, k: nat, level: QB.LevelKey, placed: nat) {
    && Trade(x, k, level) && placed < |x.ms|
    && QB.QtyAhead(x.queues[k], level, x.queues[placed + 1].nextSeq) == 0
  }

  /** What fills an order of either model. */
  predicate FillEvent(x: Scenario, isNaive: bool, placed: nat, level: QB.LevelKey, k: nat) {
    if isNaive then Trade(x, k, level) else FrontTrade(x, k, level, placed)
  }

  /** The placement met a level whose quantity fits 32 bits; a naive order does not care. */
  predicate Fits32(x: Scenario, isNaive: bool, placed: nat, level: QB.LevelKey) {
    isNaive || (placed < |x.ms| && QB.LevelQty(x.queues[placed + 1], level) < TWO_32)
  }

  /** A pair is placed once message `k` has been applied. */
  predicate PlacesAfter(x: Scenario, k: nat)
    requires x.cfg.interval > 0
  {
    k < |x.ms| && k % x.cfg.interval == 0 && x.books[k + 1].HasBid() && x.books[k + 1].HasAsk()
  }

  /** How many pairs were placed before message `k`. */
  function Pairs(x: Scenario, k: nat): nat
    requires x.cfg.interval > 0
  {
    if k == 0 then 0 else Pairs(x, k - 1) + if PlacesAfter(x, k - 1) then 1 else 0
  }

  /** The terms of a placement: a buy of the configured size at the best bid, with the
      touches and the queue as they were. */
  predicate PlacedAs(x: Scenario, placed: nat, pairId: nat, level: QB.LevelKey, qty: nat, bid: int, ask: int, ahead: nat)
    requires x.cfg.interval > 0
  {
    && PlacesAfter(x, placed) && pairId == Pairs(x, placed) + 1
    && bid == x.books[placed + 1].base + x.books[placed + 1].bestBid
    && ask == x.books[placed + 1].base + x.books[placed + 1].bestAsk
    && level == QB.LevelKey(0, Buy, bid) && qty == x.cfg.orderQty
    && ahead == QB.LevelQty(x.queues[placed + 1], level) % 0x1_0000_0000
  }

  // ----- active orders -----

  ghost predicate Unfilled(x: Scenario, isNaive: bool, placed: nat, level: QB.LevelKey, n: nat) {
    Fits32(x, isNaive, placed, level) ==>
      forall k :: placed < k < n ==> !FillEvent(x, isNaive, placed, level, k)
  }

  predicate TrackerTold(x: Scenario, a: ActiveOrder, n: nat)
    requires n <= |x.ms|
  {
    if a.isNaive then a.tracker.None? else
    && a.tracker.Some? && a.placed < |x.ms|
    && a.tracker.value.level == a.level && a.tracker.value.arrival == x.queues[a.placed + 1].nextSeq
    && (Fits32(x, false, a.placed, a.level) ==> QB.Agrees(x.queues[n], a.tracker.value))
  }

  ghost predicate ActiveTold(x: Scenario, a: ActiveOrder, n: nat)
    requires x.cfg.interval > 0 && n <= |x.ms|
  {
    && a.placed < n
    && PlacedAs(x, a.placed, a.pairId, a.level, a.qty, a.bidAtPlace, a.askAtPlace, a.aheadAtPlace)
    && Unfilled(x, a.isNaive, a.placed, a.level, n)
    && TrackerTold(x, a, n)
  }

  /** The effect tells the trades of message `n`, and how the quantity ahead of anybody moves. */
  ghost predicate Tells(x: Scenario, n: nat, eff: QB.Effect) {
    && n < |x.ms|
    && (eff.reduction.Some? && eff.reduction.value.isExecute <==> x.ms[n].Execute? && x.ms[n].id in x.queues[n].orders)
    && (x.ms[n].Execute? && x.ms[n].id in x.queues[n].orders ==>
          eff.reduction.value.level == x.queues[n].orders[x.ms[n].id].level)
    && forall key, bound: nat :: Moves(x, n, eff, key, bound)
  }

  /** The quantity ahead of an earlier arrival moves by what the effect reports ahead of it. */
  ghost predicate Moves(x: Scenario, n: nat, eff: QB.Effect, key: QB.LevelKey, bound: nat)
    requires n < |x.ms|
  {
    bound <= x.queues[n].nextSeq ==> QB.MovesBy(x.queues[n], x.queues[n + 1], eff, key, bound)
  }

  lemma EffectTells(x: Scenario, n: nat)
    requires Follows(x, n)
    ensures Tells(x, n, QB.EffectOf(x.queues[n], x.ms[n]))
  {
    QB.ExecuteEffect(x.queues[n], x.ms[n]);
    var eff := QB.EffectOf(x.queues[n], x.ms[n]);
    forall key, bound: nat ensures Moves(x, n, eff, key, bound) {
      if bound <= x.queues[n].nextSeq { QB.ApplyAdvances(x.queues[n], x.ms[n], key, bound); }
    }
  }

  lemma QueueStep(q: QB.QBook, ms: seq<Msg>, n: nat)
    requires n < |ms| && QB.WellFormed(q)
    ensures QB.WellFormed(QB.Replay(q, ms[..n]))
    ensures QB.Replay(q, ms[..n + 1]) == QB.Applied(QB.Replay(q, ms[..n]), ms[n])
  {
    QB.ReplayIsWellFormed(q, ms[..n]);
    assert ms[..n + 1][..n] == ms[..n];
  }

  /** The queue book after message `n` is what the message makes of the one before. */
  ghost predicate Follows(x: Scenario, n: nat) {
    n < |x.ms| && QB.WellFormed(x.queues[n]) && x.queues[n + 1] == QB.Applied(x.queues[n], x.ms[n])
  }

  lemma QueueNext(x: Scenario, n: nat)
    requires Faithful(x) && n < |x.ms|
    ensures Follows(x, n)
  {
    assert FaithfulAt(x, n) && FaithfulAt(x, n + 1);
    QueueStep(QB.QBook(map[], map[], 0), x.ms, n);
  }

  /** The engine's fill rule is the event of the stream. */
  lemma FillsIsEvent(x: Scenario, a: ActiveOrder, n: nat, eff: QB.Effect)
    requires x.cfg.interval > 0 && Tells(x, n, eff) && ActiveTold(x, a, n) && Fits32(x, a.isNaive, a.placed, a.level)
    ensures Fills(a, eff) <==> FillEvent(x, a.isNaive, a.placed, a.level, n)
  {
    if !a.isNaive {
      var t := a.tracker.value;
      assert Moves(x, n, eff, t.level, t.arrival);
      QB.ConsumeAdvances(x.queues[n], t, x.queues[n + 1], eff);
    }
  }

  lemma AgedTracker(x: Scenario, a: ActiveOrder, n: nat, eff: QB.Effect)
    requires Tells(x, n, eff) && TrackerTold(x, a, n)
    ensures TrackerTold(x, Aged(a, eff), n + 1)
  {
    if !a.isNaive && Fits32(x, false, a.placed, a.level) {
      var t := a.tracker.value;
      assert Moves(x, n, eff, t.level, t.arrival);
      QB.ConsumeAdvances(x.queues[n], t, x.queues[n + 1], eff);
    }
  }

  /** An order that a message leaves active had no event up to and including that message. */
  lemma AgedTold(x: Scenario, a: ActiveOrder, n: nat, eff: QB.Effect)
    requires x.cfg.interval > 0 && Tells(x, n, eff) && ActiveTold(x, a, n) && !Fills(a, eff)
    ensures ActiveTold(x, Aged(a, eff), n + 1)
  {
    AgedTracker(x, a, n, eff);
    if Fits32(x, a.isNaive, a.placed, a.level) { FillsIsEvent(x, a, n, eff); }
  }

  // ----- results -----

  /** The book that a result quotes: after its message, or at the end of the stream. */
  function QuotedAfter(x: Scenario, r: OrderResult): nat {
    if r.resolved < |x.ms| then r.resolved + 1 else |x.ms|
  }

  /** Filled exactly by an event of its own, the first since it was placed. */
  ghost predicate OutcomeTold(x: Scenario, r: OrderResult) {
    var level := QB.LevelKey(0, r.side, r.price);
    && r.placed < r.resolved <= |x.ms|
    && (Fits32(x, r.isNaive, r.placed, level) ==>
          && (r.outcome == Filled <==> FillEvent(x, r.isNaive, r.placed, level, r.resolved))
          && forall k :: r.placed < k < r.resolved ==> !FillEvent(x, r.isNaive, r.placed, level, k))
  }

  predicate QuotesTold(x: Scenario, r: OrderResult) {
    var b := x.books[QuotedAfter(x, r)];
    && r.bidAtFill == (if b.bestBid >= 0 then b.base + b.bestBid else r.bidAtPlace)
    && r.askAtFill == (if b.bestAsk < LEVELS then b.base + b.bestAsk else r.askAtPlace)
  }

  ghost predicate ResultTold(x: Scenario, r: OrderResult)
    requires x.cfg.interval > 0
  {
    && PlacedAs(x, r.placed, r.pairId, QB.LevelKey(0, r.side, r.price), r.qty, r.bidAtPlace, r.askAtPlace, r.aheadAtPlace)
    && OutcomeTold(x, r) && QuotesTold(x, r)
  }

  lemma ResolvedTold(x: Scenario, a: ActiveOrder, n: nat, eff: QB.Effect)
    requires x.cfg.interval > 0 && Tells(x, n, eff) && ActiveTold(x, a, n)
    ensures var v := Verdict(a, eff, n, x.cfg.ttl);
            v.Some? ==> ResultTold(x, Finish(x.books[n + 1], a, v.value, n))
  {
    if Fits32(x, a.isNaive, a.placed, a.level) { FillsIsEvent(x, a, n, eff); }
  }

  lemma LeftoverTold(x: Scenario, a: ActiveOrder)
    requires x.cfg.interval > 0 && ActiveTold(x, a, |x.ms|)
    ensures ResultTold(x, Finish(x.books[|x.ms|], a, StillResting, |x.ms|))
  {
  }

  // ----- the whole run -----

  ghost predicate AllActiveTold(x: Scenario, active: seq<ActiveOrder>, n: nat)
    requires x.cfg.interval > 0 && n <= |x.ms|
  {
    forall a :: a in active ==> ActiveTold(x, a, n)
  }

  ghost predicate AllResultsTold(x: Scenario, results: seq<OrderResult>)
    requires x.cfg.interval > 0
  {
    forall r :: r in results ==> ResultTold(x, r)
  }

  lemma SweepTold(x: Scenario, active: seq<ActiveOrder>, n: nat, eff: QB.Effect)
    requires x.cfg.interval > 0 && Tells(x, n, eff) && AllActiveTold(x, active, n)
    ensures AllResultsTold(x, Resolved(active, eff, x.books[n + 1], n, x.cfg.ttl))
    ensures AllActiveTold(x, Kept(active, eff, n, x.cfg.ttl), n + 1)
  {
    var b, ttl := x.books[n + 1], x.cfg.ttl;
    SweepMembers(active, eff, b, n, ttl);
    forall r | r in Resolved(active, eff, b, n, ttl) ensures ResultTold(x, r) {
      var a :| a in active && Verdict(a, eff, n, ttl).Some? && r == Finish(b, a, Verdict(a, eff, n, ttl).value, n);
      ResolvedTold(x, a, n, eff);
    }
    forall k | k in Kept(active, eff, n, ttl) ensures ActiveTold(x, k, n + 1) {
      var a :| a in active && Verdict(a, eff, n, ttl).None? && k == Aged(a, eff);
      AgedTold(x, a, n, eff);
    }
  }

  /** The orders placed after a message. */
  lemma PlacedTold(x: Scenario, s: Engine, n: nat)
    requires x.cfg.interval > 0 && n < |x.ms| && PlacesAfter(x, n) && QB.WellFormed(x.queues[n + 1])
    requires s.venue.book == x.books[n + 1] && s.queue == x.queues[n + 1] && s.nextPair == Pairs(x, n) + 1
    ensures ActiveTold(x, NaiveOrder(x.cfg, s, n), n + 1) && ActiveTold(x, TrackedOrder(x.cfg, s, n), n + 1)
  {
    QB.PlacementAgrees(s.queue, BestBidLevel(s.venue.book));
  }

  /** The engine's state after `n` messages, as far as the recording tells it. */
  ghost predicate StateTold(x: Scenario, e: Engine, n: nat)
    requires x.cfg.interval > 0 && n <= |x.ms|
  {
    && e.queue == x.queues[n] && e.venue.book == x.books[n]
    && e.nextPair == Pairs(x, n) + 1 && AllActiveTold(x, e.active, n) && AllResultsTold(x, e.results)
  }

  lemma SweptTold(x: Scenario, e: Engine, n: nat)
    requires x.cfg.interval > 0 && Follows(x, n) && StateTold(x, e, n) && OM.Step(e.venue, x.ms[n]).book == x.books[n + 1]
    ensures var s := Swept(x.cfg, e, x.ms[n], n);
            && s.queue == x.queues[n + 1] && s.venue.book == x.books[n + 1] && s.nextPair == Pairs(x, n) + 1
            && AllActiveTold(x, s.active, n + 1) && AllResultsTold(x, s.results)
  {
    EffectTells(x, n);
    SweepTold(x, e.active, n, QB.EffectOf(x.queues[n], x.ms[n]));
  }

  lemma TickTold(x: Scenario, e: Engine, n: nat)
    requires x.cfg.interval > 0 && Follows(x, n) && StateTold(x, e, n) && OM.Step(e.venue, x.ms[n]).book == x.books[n + 1]
    ensures StateTold(x, Tick(x.cfg, e, x.ms[n], n), n + 1)
  {
    SweptTold(x, e, n);
    if PlacesAfter(x, n) {
      QB.AppliedIsWellFormed(x.queues[n], x.ms[n]);
      PlacedTold(x, Swept(x.cfg, e, x.ms[n], n), n);
    }
  }

  lemma TicksNext(cfg: Config, reference: int, ms: seq<Msg>, n: nat)
    requires cfg.interval > 0 && n < |ms|
    ensures Ticks(cfg, reference, ms[..n + 1]) == Tick(cfg, Ticks(cfg, reference, ms[..n]), ms[n], n)
  {
    assert ms[..n + 1][..n] == ms[..n];
  }

  lemma BookNext(v: OM.Venue, ms: seq<Msg>, n: nat)
    requires n < |ms|
    ensures OM.Replay(v, ms[..n + 1]) == OM.Step(OM.Replay(v, ms[..n]), ms[n])
  {
    assert ms[..n + 1][..n] == ms[..n];
  }

  /** The recording is of the engine's own books. */
  lemma StateNext(x: Scenario, n: nat)
    requires x.cfg.interval > 0 && Faithful(x) && n < |x.ms|
    ensures State(x, n + 1) == Tick(x.cfg, State(x, n), x.ms[n], n)
    ensures Follows(x, n) && OM.Step(State(x, n).venue, x.ms[n]).book == x.books[n + 1]
  {
    QueueNext(x, n);
    assert FaithfulAt(x, n + 1);
    Runs.TicksReplay(x.cfg, x.reference, x.ms[..n]);
    TicksNext(x.cfg, x.reference, x.ms, n);
    BookNext(OM.Opening(x.reference), x.ms, n);
  }

  lemma StartTold(x: Scenario)
    requires x.cfg.interval > 0 && Faithful(x)
    ensures StateTold(x, State(x, 0), 0)
  {
    assert x.ms[..0] == [] && FaithfulAt(x, 0);
  }

  lemma RunNext(x: Scenario, n: nat)
    requires x.cfg.interval > 0 && Faithful(x) && n < |x.ms| && StateTold(x, State(x, n), n)
    ensures StateTold(x, State(x, n + 1), n + 1)
  {
    StateNext(x, n);
    TickTold(x, State(x, n), n);
  }

  lemma {:induction false} RunTold(x: Scenario, n: nat)
    requires x.cfg.interval > 0 && Faithful(x) && n <= |x.ms|
    ensures StateTold(x, State(x, n), n)
    decreases n
  {
    if n == 0 {
      StartTold(x);
    } else {
      RunTold(x, n - 1);
      RunNext(x, n - 1);
    }
  }

  lemma ResultsAre(x: Scenario)
    requires x.cfg.interval > 0
    ensures var e := State(x, |x.ms|);
            Results(x.cfg, x.reference, x.ms) == e.results + Leftovers(e.active, e.venue.book, |x.ms|)
  {
    assert x.ms[..|x.ms|] == x.ms;
  }

  lemma LeftoversTold(x: Scenario, e: Engine)
    requires x.cfg.interval > 0 && StateTold(x, e, |x.ms|)
    ensures AllResultsTold(x, e.results + Leftovers(e.active, e.venue.book, |x.ms|))
  {
    var n := |x.ms|;
    LeftoversAre(e.active, e.venue.book, n);
    forall r | r in Leftovers(e.active, e.venue.book, n) ensures ResultTold(x, r) {
      var a :| a in e.active && r == Finish(e.venue.book, a, StillResting, n);
      LeftoverTold(x, a);
    }
  }

  /** Every result of every run is told by the stream. */
  lemma EveryResultIsTold(x: Scenario, r: OrderResult)
    requires x.cfg.interval > 0 && Faithful(x) && r in Results(x.cfg, x.reference, x.ms)
    ensures ResultTold(x, r)
  {
    RunTold(x, |x.ms|);
    LeftoversTold(x, State(x, |x.ms|));
    ResultsAre(x);
  }

  // ----- fills -----

  /** The first event after a placement is the resolving one, or there is none. */
  lemma OutcomeIsFirstEvent(x: Scenario, r: OrderResult, level: QB.LevelKey)
    requires level == QB.LevelKey(0, r.side, r.price) && OutcomeTold(x, r) && Fits32(x, r.isNaive, r.placed, level)
    ensures r.outcome == Filled <==> FillEvent(x, r.isNaive, r.placed, level, r.resolved)
    ensures forall k :: r.placed < k < r.resolved ==> !FillEvent(x, r.isNaive, r.placed, level, k)
    ensures r.outcome != Filled ==> forall k :: r.placed < k <= r.resolved ==> !FillEvent(x, r.isNaive, r.placed, level, k)
  {
  }

  /** A naive order is filled exactly when the message that resolves it executes an order
      resting at its level, and no message since its placement did so before; one that is
      cancelled or left resting met no such message. */
  lemma NaiveFillsAreTrades(x: Scenario, r: OrderResult)
    requires x.cfg.interval > 0 && Faithful(x) && r in Results(x.cfg, x.reference, x.ms) && r.isNaive
    ensures var level := QB.LevelKey(0, r.side, r.price);
            && (r.outcome == Filled <==> Trade(x, r.resolved, level))
            && (forall k :: r.placed < k < r.resolved ==> !Trade(x, k, level))
            && (r.outcome != Filled ==> forall k :: r.placed < k <= r.resolved ==> !Trade(x, k, level))
  {
    var level := QB.LevelKey(0, r.side, r.price);
    EveryResultIsTold(x, r);
    OutcomeIsFirstEvent(x, r, level);
    assert forall k: nat :: FillEvent(x, true, r.placed, level, k) <==> Trade(x, k, level);
  }

  /** A queue-tracked order placed behind less than 2^32 is filled exactly when the message that
      resolves it executes an order of its level while nothing that arrived before the
      placement still rests there, and no message since then did so before. */
  lemma TrackedFillsAreFrontTrades(x: Scenario, r: OrderResult)
    requires x.cfg.interval > 0 && Faithful(x) && r in Results(x.cfg, x.reference, x.ms) && !r.isNaive
    requires r.placed < |x.ms| && QB.LevelQty(x.queues[r.placed + 1], QB.LevelKey(0, r.side, r.price)) < TWO_32
    ensures var level := QB.LevelKey(0, r.side, r.price);
            && (r.outcome == Filled <==> FrontTrade(x, r.resolved, level, r.placed))
            && (forall k :: r.placed < k < r.resolved ==> !FrontTrade(x, k, level, r.placed))
            && (r.outcome != Filled ==> forall k :: r.placed < k <= r.resolved ==> !FrontTrade(x, k, level, r.placed))
  {
    var level := QB.LevelKey(0, r.side, r.price);
    EveryResultIsTold(x, r);
    OutcomeIsFirstEvent(x, r, level);
    assert forall k: nat :: FillEvent(x, false, r.placed, level, k) <==> FrontTrade(x, k, level, r.placed);
  }

  // ----- quotes -----

  /** The price of the highest non-empty bid level, or `otherwise` when all are empty. */
  ghost predicate HighestBid(b: ShapedBook, price: int, otherwise: int) {
    if forall k :: 0 <= k < LEVELS ==> b.bid[k] <= 0 then price == otherwise else
    exists k :: 0 <= k < LEVELS && b.bid[k] > 0 && price == b.base + k && forall j :: k < j < LEVELS ==> b.bid[j] <= 0
  }

  /** The price of the lowest non-empty offer level, or `otherwise` when all are empty. */
  ghost predicate LowestOffer(b: ShapedBook, price: int, otherwise: int) {
    if forall k :: 0 <= k < LEVELS ==> b.ask[k] <= 0 then price == otherwise else
    exists k :: 0 <= k < LEVELS && b.ask[k] > 0 && price == b.base + k && forall j :: 0 <= j < k ==> b.ask[j] <= 0
  }

  lemma TouchesAreRaw(b: ShapedBook, otherBid: int, otherAsk: int)
    requires Exact(b)
    ensures HighestBid(b, if b.bestBid >= 0 then b.base + b.bestBid else otherBid, otherBid)
    ensures LowestOffer(b, if b.bestAsk < LEVELS then b.base + b.bestAsk else otherAsk, otherAsk)
  {
    assert IsTop(b.bid, b.bestBid) && IsBottom(b.ask, b.bestAsk);
  }

  /** The quotes at resolution are the extremes of the raw arrays after the resolving message,
      after the last for an order left resting, and those at placement where a side is empty. */
  lemma FillQuotesAreRaw(x: Scenario, r: OrderResult)
    requires x.cfg.interval > 0 && Faithful(x) && r in Results(x.cfg, x.reference, x.ms)
    requires Exact(x.books[QuotedAfter(x, r)])
    ensures HighestBid(x.books[QuotedAfter(x, r)], r.bidAtFill, r.bidAtPlace)
    ensures LowestOffer(x.books[QuotedAfter(x, r)], r.askAtFill, r.askAtPlace)
  {
    EveryResultIsTold(x, r);
    TouchesAreRaw(x.books[QuotedAfter(x, r)], r.bidAtPlace, r.askAtPlace);
  }

  ghost predicate TwoSided(b: ShapedBook) {
    (exists k :: 0 <= k < LEVELS && b.bid[k] > 0) && (exists k :: 0 <= k < LEVELS && b.ask[k] > 0)
  }

  /** The terms of a result are those of its placement: a buy of the configured size at the
      highest non-empty bid after message `placed`, quoting both raw extremes of that moment
      and what rested at that level. */
  lemma PlacementsAreRaw(x: Scenario, r: OrderResult)
    requires x.cfg.interval > 0 && Faithful(x) && r in Results(x.cfg, x.reference, x.ms)
    requires r.placed < |x.ms| ==> Exact(x.books[r.placed + 1])
    ensures r.placed < |x.ms| && r.placed % x.cfg.interval == 0
    ensures var b := x.books[r.placed + 1];
            && TwoSided(b) && HighestBid(b, r.bidAtPlace, r.bidAtPlace) && LowestOffer(b, r.askAtPlace, r.askAtPlace)
    ensures r.side == Buy && r.price == r.bidAtPlace && r.qty == x.cfg.orderQty
    ensures r.aheadAtPlace == QB.LevelQty(x.queues[r.placed + 1], QB.LevelKey(0, Buy, r.price)) % 0x1_0000_0000
  {
    EveryResultIsTold(x, r);
    var b := x.books[r.placed + 1];
    TouchesAreRaw(b, r.bidAtPlace, r.askAtPlace);
    assert b.bid[b.bestBid] > 0 && b.ask[b.bestAsk] > 0;
  }

  // ----- when pairs are placed -----

  /** The order of the pair placed after message `k`, of the given model, is active or resolved. */
  ghost predicate Present(active: seq<ActiveOrder>, results: seq<OrderResult>, k: nat, pairId: nat, isNaive: bool) {
    || (exists a :: a in active && a.placed == k && a.pairId == pairId && a.isNaive == isNaive)
    || (exists r :: r in results && r.placed == k && r.pairId == pairId && r.isNaive == isNaive)
  }

  lemma {:induction false} SweepKeepsPresent(active: seq<ActiveOrder>, a: ActiveOrder, eff: QB.Effect, book: ShapedBook,
                                             idx: nat, ttl: nat)
    requires a in active
    ensures Present(Kept(active, eff, idx, ttl), Resolved(active, eff, book, idx, ttl), a.placed, a.pairId, a.isNaive)
  {
    var last := active[|active| - 1];
    var rest := active[..|active| - 1];
    if a == last {
      var v := Verdict(a, eff, idx, ttl);
      if v.Some? {
        assert Finish(book, a, v.value, idx) in Resolved(active, eff, book, idx, ttl);
      } else {
        assert Aged(a, eff) in Kept(active, eff, idx, ttl);
      }
    } else {
      SweepKeepsPresent(rest, a, eff, book, idx, ttl);
      assert forall b :: b in Kept(rest, eff, idx, ttl) ==> b in Kept(active, eff, idx, ttl);
      assert forall r :: r in Resolved(rest, eff, book, idx, ttl) ==> r in Resolved(active, eff, book, idx, ttl);
    }
  }

  lemma {:induction false} LeftoversKeepPresent(active: seq<ActiveOrder>, a: ActiveOrder, book: ShapedBook, n: nat)
    requires a in active
    ensures Finish(book, a, StillResting, n) in Leftovers(active, book, n)
  {
    if a == active[|active| - 1] {
    } else {
      LeftoversKeepPresent(active[..|active| - 1], a, book, n);
    }
  }

  lemma TickKeepsPresent(cfg: Config, e: Engine, m: Msg, n: nat, k: nat, pairId: nat, isNaive: bool)
    requires cfg.interval > 0 && Present(e.active, e.results, k, pairId, isNaive)
    ensures var t := Tick(cfg, e, m, n); Present(t.active, t.results, k, pairId, isNaive)
  {
    var s := Swept(cfg, e, m, n);
    if a :| a in e.active && a.placed == k && a.pairId == pairId && a.isNaive == isNaive {
      SweepKeepsPresent(e.active, a, QB.EffectOf(e.queue, m), s.venue.book, n, cfg.ttl);
    }
    assert Present(s.active, s.results, k, pairId, isNaive);
    assert forall a :: a in s.active ==> a in Tick(cfg, e, m, n).active;
  }

  lemma PlacementIsPresent(cfg: Config, s: Engine, k: nat, isNaive: bool)
    ensures Present(Place(cfg, s, k).active, s.results, k, s.nextPair, isNaive)
  {
    assert NaiveOrder(cfg, s, k) in Place(cfg, s, k).active;
    assert TrackedOrder(cfg, s, k) in Place(cfg, s, k).active;
  }

  lemma PairIsPresent(x: Scenario, e: Engine, k: nat, isNaive: bool)
    requires x.cfg.interval > 0 && PlacesAfter(x, k) && StateTold(x, e, k)
    requires Follows(x, k) && OM.Step(e.venue, x.ms[k]).book == x.books[k + 1]
    ensures var t := Tick(x.cfg, e, x.ms[k], k); Present(t.active, t.results, k, Pairs(x, k) + 1, isNaive)
  {
    SweptTold(x, e, k);
    PlacementIsPresent(x.cfg, Swept(x.cfg, e, x.ms[k], k), k, isNaive);
  }

  ghost predicate PresentAt(x: Scenario, n: nat, k: nat, pairId: nat, isNaive: bool)
    requires x.cfg.interval > 0 && n <= |x.ms|
  {
    Present(State(x, n).active, State(x, n).results, k, pairId, isNaive)
  }

  lemma PresentFirst(x: Scenario, k: nat, isNaive: bool)
    requires x.cfg.interval > 0 && Faithful(x) && PlacesAfter(x, k)
    ensures PresentAt(x, k + 1, k, Pairs(x, k) + 1, isNaive)
  {
    RunTold(x, k);
    StateNext(x, k);
    PairIsPresent(x, State(x, k), k, isNaive);
  }

  lemma PresentNext(x: Scenario, n: nat, k: nat, pairId: nat, isNaive: bool)
    requires x.cfg.interval > 0 && Faithful(x) && n < |x.ms| && PresentAt(x, n, k, pairId, isNaive)
    ensures PresentAt(x, n + 1, k, pairId, isNaive)
  {
    StateNext(x, n);
    TickKeepsPresent(x.cfg, State(x, n), x.ms[n], n, k, pairId, isNaive);
  }

  lemma {:induction false} PairStaysPresent(x: Scenario, n: nat, k: nat, pairId: nat, isNaive: bool)
    requires x.cfg.interval > 0 && Faithful(x) && k < n <= |x.ms| && PresentAt(x, k + 1, k, pairId, isNaive)
    ensures PresentAt(x, n, k, pairId, isNaive)
    decreases n
  {
    if n == k + 1 {
    } else {
      PairStaysPresent(x, n - 1, k, pairId, isNaive);
      PresentNext(x, n - 1, k, pairId, isNaive);
    }
  }

  /** A result of the given model for the placement after message `k`. */
  ghost predicate Reports(x: Scenario, k: nat, pairId: nat, isNaive: bool)
    requires x.cfg.interval > 0
  {
    exists r :: r in Results(x.cfg, x.reference, x.ms) && r.placed == k && r.pairId == pairId && r.isNaive == isNaive
  }

  lemma PairIsReported(x: Scenario, k: nat, isNaive: bool)
    requires x.cfg.interval > 0 && Faithful(x) && PlacesAfter(x, k)
    ensures Reports(x, k, Pairs(x, k) + 1, isNaive)
  {
    var n := |x.ms|;
    var e := State(x, n);
    PresentFirst(x, k, isNaive);
    PairStaysPresent(x, n, k, Pairs(x, k) + 1, isNaive);
    ResultsAre(x);
    if a :| a in e.active && a.placed == k && a.pairId == Pairs(x, k) + 1 && a.isNaive == isNaive {
      LeftoversKeepPresent(e.active, a, e.venue.book, n);
      assert Finish(e.venue.book, a, StillResting, n) in Results(x.cfg, x.reference, x.ms);
    }
  }

  /** A pair is placed after message `k`, one order of each model under the next pair number,
      exactly when the interval divides `k` and both sides of the raw book are non-empty then;
      and nothing else is placed. */
  lemma PairsArePlacedWhenDue(x: Scenario, k: nat)
    requires x.cfg.interval > 0 && Faithful(x) && k < |x.ms| && Exact(x.books[k + 1])
    ensures k % x.cfg.interval == 0 && TwoSided(x.books[k + 1]) ==>
              Reports(x, k, Pairs(x, k) + 1, true) && Reports(x, k, Pairs(x, k) + 1, false)
    ensures forall r :: r in Results(x.cfg, x.reference, x.ms) && r.placed == k ==>
              k % x.cfg.interval == 0 && TwoSided(x.books[k + 1]) && r.pairId == Pairs(x, k) + 1
  {
    var b := x.books[k + 1];
    assert IsTop(b.bid, b.bestBid) && IsBottom(b.ask, b.bestAsk);
    if k % x.cfg.interval == 0 && TwoSided(b) {
      PairIsReported(x, k, true);
      PairIsReported(x, k, false);
    }
    forall r | r in Results(x.cfg, x.reference, x.ms) && r.placed == k
      ensures k % x.cfg.interval == 0 && TwoSided(b) && r.pairId == Pairs(x, k) + 1
    {
      EveryResultIsTold(x, r);
      assert b.bid[b.bestBid] > 0 && b.ask[b.bestAsk] > 0;
    }
  }

  // ----- the order of the results -----

  /** Reported at an earlier message, or at the same one and placed earlier. */
  predicate Precedes(r: OrderResult, t: OrderResult) {
    r.resolved < t.resolved || (r.resolved == t.resolved && r.id < t.id)
  }

  ghost predicate InOrder(results: seq<OrderResult>) {
    forall j, k :: 0 <= j < k < |results| ==> Precedes(results[j], results[k])
  }

  ghost predicate IdsAscend(active: seq<ActiveOrder>, nextId: nat) {
    && (forall j, k :: 0 <= j < k < |active| ==> active[j].id < active[k].id)
    && forall a :: a in active ==> a.id < nextId
  }

  ghost predicate ReportedBefore(results: seq<OrderResult>, n: nat) {
    forall r :: r in results ==> r.resolved < n
  }

  lemma {:induction false} KeptIds(active: seq<ActiveOrder>, eff: QB.Effect, idx: nat, ttl: nat, nextId: nat)
    requires IdsAscend(active, nextId)
    ensures IdsAscend(Kept(active, eff, idx, ttl), nextId)
    ensures forall b :: b in Kept(active, eff, idx, ttl) ==> active != [] && b.id <= active[|active| - 1].id
  {
    if active == [] {
    } else {
      KeptIds(active[..|active| - 1], eff, idx, ttl, nextId);
    }
  }

  lemma {:induction false} ResolvedInOrder(active: seq<ActiveOrder>, eff: QB.Effect, book: ShapedBook, idx: nat, ttl: nat, nextId: nat)
    requires IdsAscend(active, nextId)
    ensures InOrder(Resolved(active, eff, book, idx, ttl))
    ensures forall r :: r in Resolved(active, eff, book, idx, ttl) ==>
              r.resolved == idx && active != [] && r.id <= active[|active| - 1].id
  {
    if active == [] {
    } else {
      ResolvedInOrder(active[..|active| - 1], eff, book, idx, ttl, nextId);
    }
  }

  lemma {:induction false} LeftoversInOrder(active: seq<ActiveOrder>, book: ShapedBook, n: nat, nextId: nat)
    requires IdsAscend(active, nextId)
    ensures InOrder(Leftovers(active, book, n))
    ensures forall r :: r in Leftovers(active, book, n) ==>
              r.resolved == n && active != [] && r.id <= active[|active| - 1].id
  {
    if active == [] {
    } else {
      LeftoversInOrder(active[..|active| - 1], book, n, nextId);
    }
  }

  lemma LaterInOrder(x: seq<OrderResult>, y: seq<OrderResult>, n: nat)
    requires InOrder(x) && InOrder(y) && ReportedBefore(x, n) && forall r :: r in y ==> r.resolved == n
    ensures InOrder(x + y)
  {
  }

  ghost predicate EngineInOrder(e: Engine, n: nat) {
    IdsAscend(e.active, e.nextId) && InOrder(e.results) && ReportedBefore(e.results, n)
  }

  lemma SweptInOrder(cfg: Config, e: Engine, m: Msg, n: nat)
    requires EngineInOrder(e, n)
    ensures EngineInOrder(Swept(cfg, e, m, n), n + 1)
  {
    var eff, book := QB.EffectOf(e.queue, m), OM.Step(e.venue, m).book;
    KeptIds(e.active, eff, n, cfg.ttl, e.nextId);
    ResolvedInOrder(e.active, eff, book, n, cfg.ttl, e.nextId);
    LaterInOrder(e.results, Resolved(e.active, eff, book, n, cfg.ttl), n);
  }

  lemma TickInOrder(cfg: Config, e: Engine, m: Msg, n: nat)
    requires cfg.interval > 0 && EngineInOrder(e, n)
    ensures EngineInOrder(Tick(cfg, e, m, n), n + 1)
  {
    SweptInOrder(cfg, e, m, n);
    var s := Swept(cfg, e, m, n);
    var x, y := NaiveOrder(cfg, s, n), TrackedOrder(cfg, s, n);
    assert x.id == s.nextId && y.id == s.nextId + 1;
  }

  lemma {:induction false} TicksInOrder(cfg: Config, reference: int, ms: seq<Msg>)
    requires cfg.interval > 0
    ensures EngineInOrder(Ticks(cfg, reference, ms), |ms|)
  {
    if ms == [] {
    } else {
      var rest, n := ms[..|ms| - 1], |ms| - 1;
      TicksInOrder(cfg, reference, rest);
      TickInOrder(cfg, Ticks(cfg, reference, rest), ms[n], n);
    }
  }

  /** Results are reported message by message, and at one message in the order of placement. */
  lemma ResultsAreInOrder(cfg: Config, reference: int, ms: seq<Msg>)
    requires cfg.interval > 0
    ensures InOrder(Results(cfg, reference, ms))
  {
    var e := Ticks(cfg, reference, ms);
    TicksInOrder(cfg, reference, ms);
    LeftoversInOrder(e.active, e.venue.book, |ms|, e.nextId);
    LaterInOrder(e.results, Leftovers(e.active, e.venue.book, |ms|), |ms|);
  }
}
