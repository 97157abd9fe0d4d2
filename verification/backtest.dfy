/**
 The backtest engine: one message stream drives the array book, the queue book and
 two fill models over the same placements.
 */
module Backtests {
  import opened Protocol
  import opened Masks
  import opened OrderBooks
  import OM = OrderMaps
  import QB = QueueBooks

  datatype Outcome = Filled | Canceled | StillResting

  datatype OrderResult = OrderResult(
    id: nat, pairId: nat, isNaive: bool, side: Side, price: int, qty: nat, placed: nat, resolved: nat,
    outcome: Outcome, bidAtPlace: int, askAtPlace: int, bidAtFill: int, askAtFill: int, aheadAtPlace: nat)

  datatype ActiveOrder = ActiveOrder(
    id: nat, pairId: nat, isNaive: bool, level: QB.LevelKey, placed: nat, bidAtPlace: int, askAtPlace: int,
    qty: nat, aheadAtPlace: nat, tracker: Option<QB.Tracker>)

  datatype Config = Config(interval: nat, ttl: nat, orderQty: nat)

  datatype Engine = Engine(venue: OM.Venue, queue: QB.QBook, active: seq<ActiveOrder>, nextId: nat, nextPair: nat,
                           results: seq<OrderResult>)

  function Opening(reference: int): Engine {
    Engine(OM.Opening(reference), QB.QBook(map[], map[], 0), [], 1, 1, [])
  }

  /** The naive model fills on any trade at the level; the queue model when its tracker says so. */
  predicate Fills(a: ActiveOrder, eff: QB.Effect) {
    if a.isNaive then eff.reduction.Some? && eff.reduction.value.level == a.level && eff.reduction.value.isExecute
    else a.tracker.Some? && QB.Consumed(a.tracker.value, eff).1
  }

  /** What one message decides about one order. */
  function Verdict(a: ActiveOrder, eff: QB.Effect, idx: nat, ttl: nat): Option<Outcome> {
    if Fills(a, eff) then Some(Filled) else if idx - a.placed >= ttl then Some(Canceled) else None
  }

  function Aged(a: ActiveOrder, eff: QB.Effect): ActiveOrder {
    if a.isNaive || a.tracker.None? then a else a.(tracker := Some(QB.Consumed(a.tracker.value, eff).0))
  }

  function Finish(book: ShapedBook, a: ActiveOrder, outcome: Outcome, idx: nat): OrderResult {
    OrderResult(a.id, a.pairId, a.isNaive, a.level.side, a.level.price, a.qty, a.placed, idx, outcome,
                a.bidAtPlace, a.askAtPlace,
                if book.HasBid() then book.BidTicks() else a.bidAtPlace,
                if book.HasAsk() then book.AskTicks() else a.askAtPlace, a.aheadAtPlace)
  }

  /** The orders one message resolves, in their order of placement. */
  function Resolved(active: seq<ActiveOrder>, eff: QB.Effect, book: ShapedBook, idx: nat, ttl: nat): seq<OrderResult> {
    if active == [] then [] else
    var a := active[|active| - 1];
    var v := Verdict(a, eff, idx, ttl);
    Resolved(active[..|active| - 1], eff, book, idx, ttl) + if v.Some? then [Finish(book, a, v.value, idx)] else []
  }

  /** The orders it leaves active. */
  function Kept(active: seq<ActiveOrder>, eff: QB.Effect, idx: nat, ttl: nat): seq<ActiveOrder> {
    if active == [] then [] else
    var a := active[|active| - 1];
    Kept(active[..|active| - 1], eff, idx, ttl) + if Verdict(a, eff, idx, ttl).Some? then [] else [Aged(a, eff)]
  }

  function BestBidLevel(book: ShapedBook): QB.LevelKey {
    QB.LevelKey(0, Buy, book.BidTicks())
  }

  function NaiveOrder(cfg: Config, e: Engine, idx: nat): ActiveOrder {
    var book := e.venue.book;
    ActiveOrder(e.nextId, e.nextPair, true, BestBidLevel(book), idx, book.BidTicks(), book.AskTicks(), cfg.orderQty,
                ToUint32(QB.LevelQty(e.queue, BestBidLevel(book))), None)
  }

  function TrackedOrder(cfg: Config, e: Engine, idx: nat): ActiveOrder {
    NaiveOrder(cfg, e, idx).(id := e.nextId + 1, isNaive := false,
                             tracker := Some(QB.PlacedAt(e.queue, BestBidLevel(e.venue.book))))
  }

  /** Place one naive and one queue-tracked order at the best bid. */
  function Place(cfg: Config, e: Engine, idx: nat): Engine {
    e.(active := e.active + [NaiveOrder(cfg, e, idx), TrackedOrder(cfg, e, idx)],
       nextId := e.nextId + 2, nextPair := e.nextPair + 1)
  }

  predicate Places(cfg: Config, book: ShapedBook, idx: nat)
    requires cfg.interval > 0
  {
    idx % cfg.interval == 0 && book.HasBid() && book.HasAsk()
  }

  /** The sweep over the active orders, once the books have moved and the effect is known. */
  function Sweep(cfg: Config, e: Engine, venue: OM.Venue, queue: QB.QBook, eff: QB.Effect, idx: nat): Engine {
    e.(venue := venue, queue := queue,
       results := e.results + Resolved(e.active, eff, venue.book, idx, cfg.ttl),
       active := Kept(e.active, eff, idx, cfg.ttl))
  }

  /** The state after a message and its sweep, before any placement. */
  function Swept(cfg: Config, e: Engine, m: Msg, idx: nat): Engine {
    Sweep(cfg, e, OM.Step(e.venue, m), QB.Applied(e.queue, m), QB.EffectOf(e.queue, m), idx)
  }

  function Tick(cfg: Config, e: Engine, m: Msg, idx: nat): Engine
    requires cfg.interval > 0
  {
    var s := Swept(cfg, e, m, idx);
    if Places(cfg, s.venue.book, idx) then Place(cfg, s, idx) else s
  }

  function Ticks(cfg: Config, reference: int, ms: seq<Msg>): Engine
    requires cfg.interval > 0
  {
    if ms == [] then Opening(reference) else
    Tick(cfg, Ticks(cfg, reference, ms[..|ms| - 1]), ms[|ms| - 1], |ms| - 1)
  }

  function Leftovers(active: seq<ActiveOrder>, book: ShapedBook, n: nat): seq<OrderResult> {
    if active == [] then [] else
    Leftovers(active[..|active| - 1], book, n) + [Finish(book, active[|active| - 1], StillResting, n)]
  }

  /** The results of a whole run. */
  function Results(cfg: Config, reference: int, ms: seq<Msg>): seq<OrderResult>
    requires cfg.interval > 0
  {
    var e := Ticks(cfg, reference, ms);
    e.results + Leftovers(e.active, e.venue.book, |ms|)
  }

  // ----- every placed order yields one result, in time -----

  /** The longest an order can stay active, in messages. */
  function Horizon(cfg: Config): nat { if cfg.ttl <= 1 then 1 else cfg.ttl }

  predicate ActiveOk(cfg: Config, nextPair: nat, a: ActiveOrder, n: nat) {
    && 1 <= a.pairId < nextPair
    && a.id == (if a.isNaive then 2 * a.pairId - 1 else 2 * a.pairId)
    && (!a.isNaive ==> a.tracker.Some? && a.tracker.value.level == a.level)
    && a.placed < n <= a.placed + Horizon(cfg)
  }

  predicate ResultOk(cfg: Config, nextPair: nat, r: OrderResult, n: nat) {
    && 1 <= r.pairId < nextPair
    && r.id == (if r.isNaive then 2 * r.pairId - 1 else 2 * r.pairId)
    && r.placed < r.resolved <= n
    && match r.outcome
       case Filled => r.resolved <= r.placed + Horizon(cfg)
       case Canceled => r.resolved == r.placed + Horizon(cfg)
       case StillResting => r.resolved == n && n <= r.placed + Horizon(cfg)
  }

  /** How many active orders carry an id. */
  function Waiting(active: seq<ActiveOrder>, id: nat): nat {
    if active == [] then 0 else Waiting(active[..|active| - 1], id) + if active[|active| - 1].id == id then 1 else 0
  }

  /** How many results carry an id. */
  function Reported(results: seq<OrderResult>, id: nat): nat {
    if results == [] then 0 else Reported(results[..|results| - 1], id) + if results[|results| - 1].id == id then 1 else 0
  }

  ghost predicate ActivesOk(cfg: Config, active: seq<ActiveOrder>, nextPair: nat, n: nat) {
    forall a :: a in active ==> ActiveOk(cfg, nextPair, a, n)
  }

  predicate Settled(cfg: Config, nextPair: nat, r: OrderResult, n: nat) {
    ResultOk(cfg, nextPair, r, n) && !r.outcome.StillResting? && r.resolved < n
  }

  ghost predicate AllSettled(cfg: Config, results: seq<OrderResult>, nextPair: nat, n: nat) {
    forall r :: r in results ==> Settled(cfg, nextPair, r, n)
  }

  /** An id handed out is either active or in the results, once; any other is in neither. */
  ghost predicate ConservedAt(results: seq<OrderResult>, active: seq<ActiveOrder>, nextId: nat, id: nat) {
    Reported(results, id) + Waiting(active, id) == if 1 <= id < nextId then 1 else 0
  }

  ghost predicate Conserved(results: seq<OrderResult>, active: seq<ActiveOrder>, nextId: nat) {
    forall id: nat :: ConservedAt(results, active, nextId, id)
  }

  ghost predicate Timed(cfg: Config, e: Engine, n: nat) {
    && e.nextPair >= 1 && e.nextId == 2 * e.nextPair - 1
    && ActivesOk(cfg, e.active, e.nextPair, n)
    && AllSettled(cfg, e.results, e.nextPair, n)
    && Conserved(e.results, e.active, e.nextId)
  }

  lemma ReportedSnoc(x: seq<OrderResult>, r: OrderResult, id: nat)
    ensures Reported(x + [r], id) == Reported(x, id) + if r.id == id then 1 else 0
  {
    assert (x + [r])[..|x|] == x;
  }

  lemma WaitingSnoc(x: seq<ActiveOrder>, a: ActiveOrder, id: nat)
    ensures Waiting(x + [a], id) == Waiting(x, id) + if a.id == id then 1 else 0
  {
    assert (x + [a])[..|x|] == x;
  }

  lemma {:induction false} ReportedConcat(x: seq<OrderResult>, y: seq<OrderResult>, id: nat)
    ensures Reported(x + y, id) == Reported(x, id) + Reported(y, id)
  {
    if y == [] {
      assert x + y == x;
    } else {
      ReportedConcat(x, y[..|y| - 1], id);
      ReportedSnoc(x + y[..|y| - 1], y[|y| - 1], id);
      assert x + y == x + y[..|y| - 1] + [y[|y| - 1]];
    }
  }

  /** A sweep moves each id to exactly one side. */
  lemma {:induction false} SweepSplits(active: seq<ActiveOrder>, eff: QB.Effect, book: ShapedBook, idx: nat, ttl: nat, id: nat)
    ensures Reported(Resolved(active, eff, book, idx, ttl), id) + Waiting(Kept(active, eff, idx, ttl), id) == Waiting(active, id)
  {
    if active == [] {
    } else {
      var rest, a := active[..|active| - 1], active[|active| - 1];
      SweepSplits(rest, eff, book, idx, ttl, id);
      var v := Verdict(a, eff, idx, ttl);
      if v.Some? {
        ReportedSnoc(Resolved(rest, eff, book, idx, ttl), Finish(book, a, v.value, idx), id);
        assert Kept(active, eff, idx, ttl) == Kept(rest, eff, idx, ttl);
      } else {
        WaitingSnoc(Kept(rest, eff, idx, ttl), Aged(a, eff), id);
        assert Resolved(active, eff, book, idx, ttl) == Resolved(rest, eff, book, idx, ttl);
      }
    }
  }

  /** Whatever a sweep yields comes from one active order by its verdict. */
  lemma {:induction false} SweepMembers(active: seq<ActiveOrder>, eff: QB.Effect, book: ShapedBook, idx: nat, ttl: nat)
    ensures forall r :: r in Resolved(active, eff, book, idx, ttl) ==>
              exists a :: a in active && Verdict(a, eff, idx, ttl).Some?
                          && r == Finish(book, a, Verdict(a, eff, idx, ttl).value, idx)
    ensures forall k :: k in Kept(active, eff, idx, ttl) ==>
              exists a :: a in active && Verdict(a, eff, idx, ttl).None? && k == Aged(a, eff)
  {
    if active == [] {
    } else {
      SweepMembers(active[..|active| - 1], eff, book, idx, ttl);
    }
  }

  lemma VerdictInTime(cfg: Config, nextPair: nat, a: ActiveOrder, eff: QB.Effect, book: ShapedBook, n: nat)
    requires ActiveOk(cfg, nextPair, a, n)
    ensures var v := Verdict(a, eff, n, cfg.ttl);
            if v.Some? then Settled(cfg, nextPair, Finish(book, a, v.value, n), n + 1)
            else ActiveOk(cfg, nextPair, Aged(a, eff), n + 1)
  {
  }

  lemma SweepSettles(cfg: Config, active: seq<ActiveOrder>, nextPair: nat, eff: QB.Effect, book: ShapedBook, n: nat)
    requires ActivesOk(cfg, active, nextPair, n)
    ensures AllSettled(cfg, Resolved(active, eff, book, n, cfg.ttl), nextPair, n + 1)
    ensures ActivesOk(cfg, Kept(active, eff, n, cfg.ttl), nextPair, n + 1)
  {
    SweepMembers(active, eff, book, n, cfg.ttl);
    forall r | r in Resolved(active, eff, book, n, cfg.ttl) ensures Settled(cfg, nextPair, r, n + 1) {
      var a :| a in active && Verdict(a, eff, n, cfg.ttl).Some? && r == Finish(book, a, Verdict(a, eff, n, cfg.ttl).value, n);
      VerdictInTime(cfg, nextPair, a, eff, book, n);
    }
    forall k | k in Kept(active, eff, n, cfg.ttl) ensures ActiveOk(cfg, nextPair, k, n + 1) {
      var a :| a in active && Verdict(a, eff, n, cfg.ttl).None? && k == Aged(a, eff);
      VerdictInTime(cfg, nextPair, a, eff, book, n);
    }
  }

  lemma SweepConserves(e: Engine, eff: QB.Effect, book: ShapedBook, n: nat, ttl: nat)
    requires Conserved(e.results, e.active, e.nextId)
    ensures Conserved(e.results + Resolved(e.active, eff, book, n, ttl), Kept(e.active, eff, n, ttl), e.nextId)
  {
    var out, kept := Resolved(e.active, eff, book, n, ttl), Kept(e.active, eff, n, ttl);
    forall id: nat ensures ConservedAt(e.results + out, kept, e.nextId, id) {
      assert ConservedAt(e.results, e.active, e.nextId, id);
      SweepSplits(e.active, eff, book, n, ttl, id);
      ReportedConcat(e.results, out, id);
    }
  }

  lemma SettledStays(cfg: Config, results: seq<OrderResult>, nextPair: nat, n: nat, nextPair': nat, n': nat)
    requires AllSettled(cfg, results, nextPair, n) && nextPair <= nextPair' && n <= n'
    ensures AllSettled(cfg, results, nextPair', n')
  {
    forall r | r in results ensures Settled(cfg, nextPair', r, n') {
      assert Settled(cfg, nextPair, r, n);
    }
  }

  lemma SweepIsTimed(cfg: Config, e: Engine, venue: OM.Venue, queue: QB.QBook, eff: QB.Effect, n: nat)
    requires Timed(cfg, e, n)
    ensures Timed(cfg, Sweep(cfg, e, venue, queue, eff, n), n + 1)
  {
    SweepSettles(cfg, e.active, e.nextPair, eff, venue.book, n);
    SweepConserves(e, eff, venue.book, n, cfg.ttl);
    SettledStays(cfg, e.results, e.nextPair, n, e.nextPair, n + 1);
  }

  lemma IssueConserves(results: seq<OrderResult>, active: seq<ActiveOrder>, x: ActiveOrder)
    requires Conserved(results, active, x.id) && x.id >= 1
    ensures Conserved(results, active + [x], x.id + 1)
  {
    var more, next := active + [x], x.id + 1;
    forall id: nat ensures ConservedAt(results, more, next, id) {
      assert ConservedAt(results, active, x.id, id);
      WaitingSnoc(active, x, id);
    }
  }

  lemma NewOrdersOk(cfg: Config, e: Engine, n: nat)
    requires e.nextPair >= 1 && e.nextId == 2 * e.nextPair - 1
    ensures ActiveOk(cfg, e.nextPair + 1, NaiveOrder(cfg, e, n), n + 1)
    ensures ActiveOk(cfg, e.nextPair + 1, TrackedOrder(cfg, e, n), n + 1)
    ensures NaiveOrder(cfg, e, n).id == e.nextId && TrackedOrder(cfg, e, n).id == e.nextId + 1
  {
  }

  lemma IssueIsTimed(cfg: Config, e: Engine, x: ActiveOrder, y: ActiveOrder, n: nat)
    requires Timed(cfg, e, n)
    requires x.id == e.nextId && y.id == e.nextId + 1
    requires ActiveOk(cfg, e.nextPair + 1, x, n) && ActiveOk(cfg, e.nextPair + 1, y, n)
    ensures Timed(cfg, e.(active := e.active + [x, y], nextId := e.nextId + 2, nextPair := e.nextPair + 1), n)
  {
    IssueConserves(e.results, e.active, x);
    IssueConserves(e.results, e.active + [x], y);
    var active := e.active + [x, y];
    assert active == e.active + [x] + [y];
    SettledStays(cfg, e.results, e.nextPair, n, e.nextPair + 1, n);
    forall a | a in active ensures ActiveOk(cfg, e.nextPair + 1, a, n) {
      if a in e.active { assert ActiveOk(cfg, e.nextPair, a, n); }
    }
  }

  lemma TickIsTimed(cfg: Config, e: Engine, m: Msg, n: nat)
    requires cfg.interval > 0 && Timed(cfg, e, n)
    ensures Timed(cfg, Tick(cfg, e, m, n), n + 1)
  {
    var s := Swept(cfg, e, m, n);
    SweepIsTimed(cfg, e, OM.Step(e.venue, m), QB.Applied(e.queue, m), QB.EffectOf(e.queue, m), n);
    if Places(cfg, s.venue.book, n) {
      NewOrdersOk(cfg, s, n);
      IssueIsTimed(cfg, s, NaiveOrder(cfg, s, n), TrackedOrder(cfg, s, n), n + 1);
    }
  }

  lemma {:induction false} TicksAreTimed(cfg: Config, reference: int, ms: seq<Msg>)
    requires cfg.interval > 0
    ensures Timed(cfg, Ticks(cfg, reference, ms), |ms|)
  {
    if ms == [] {
    } else {
      TicksAreTimed(cfg, reference, ms[..|ms| - 1]);
      TickIsTimed(cfg, Ticks(cfg, reference, ms[..|ms| - 1]), ms[|ms| - 1], |ms| - 1);
    }
  }

  lemma {:induction false} LeftoversAre(active: seq<ActiveOrder>, book: ShapedBook, n: nat)
    ensures forall r :: r in Leftovers(active, book, n) ==> exists a :: a in active && r == Finish(book, a, StillResting, n)
  {
    if active == [] {
    } else {
      LeftoversAre(active[..|active| - 1], book, n);
    }
  }

  lemma {:induction false} LeftoversReport(active: seq<ActiveOrder>, book: ShapedBook, n: nat, id: nat)
    ensures Reported(Leftovers(active, book, n), id) == Waiting(active, id)
  {
    if active == [] {
    } else {
      LeftoversReport(active[..|active| - 1], book, n, id);
      ReportedSnoc(Leftovers(active[..|active| - 1], book, n), Finish(book, active[|active| - 1], StillResting, n), id);
    }
  }

  /** For every stream, interval and time-to-live: each order ever placed has exactly one
      result, and nothing else has any. */
  lemma EachOrderReportsOnce(cfg: Config, reference: int, ms: seq<Msg>, id: nat)
    requires cfg.interval > 0
    ensures Reported(Results(cfg, reference, ms), id) == if 1 <= id < Ticks(cfg, reference, ms).nextId then 1 else 0
  {
    TicksAreTimed(cfg, reference, ms);
    var e := Ticks(cfg, reference, ms);
    assert ConservedAt(e.results, e.active, e.nextId, id);
    LeftoversReport(e.active, e.venue.book, |ms|, id);
    ReportedConcat(e.results, Leftovers(e.active, e.venue.book, |ms|), id);
  }

  /** Fills come within the horizon, cancels exactly at it, and what still rests at the
      end is no older. */
  lemma ResolutionIsTimed(cfg: Config, reference: int, ms: seq<Msg>, r: OrderResult)
    requires cfg.interval > 0 && r in Results(cfg, reference, ms)
    ensures ResultOk(cfg, Ticks(cfg, reference, ms).nextPair, r, |ms|)
  {
    TicksAreTimed(cfg, reference, ms);
    var e := Ticks(cfg, reference, ms);
    LeftoversAre(e.active, e.venue.book, |ms|);
    if r in e.results {
      assert Settled(cfg, e.nextPair, r, |ms|);
    } else {
      var a :| a in e.active && r == Finish(e.venue.book, a, StillResting, |ms|);
      assert ActiveOk(cfg, e.nextPair, a, |ms|);
    }
  }

  // ----- a queue fill implies a naive fill -----

  ghost predicate NaiveFilled(results: seq<OrderResult>, pairId: nat, when: nat) {
    exists j :: 0 <= j < |results| && results[j].isNaive && results[j].pairId == pairId
                && results[j].outcome.Filled? && results[j].resolved <= when
  }

  /** Every filled queue-tracked order is preceded by its naive partner's fill, at the
      same or an earlier message. */
  ghost predicate FillsFollow(results: seq<OrderResult>) {
    forall k :: 0 <= k < |results| && !results[k].isNaive && results[k].outcome.Filled? ==>
      NaiveFilled(results[..k], results[k].pairId, results[k].resolved)
  }

  predicate Partners(x: ActiveOrder, y: ActiveOrder) {
    x.isNaive && x.pairId == y.pairId && x.level == y.level && x.placed == y.placed
  }

  /** A waiting queue-tracked order still stands behind its naive partner, or the partner has filled. */
  ghost predicate LinkedAt(active: seq<ActiveOrder>, results: seq<OrderResult>, n: nat, k: nat)
    requires k < |active|
  {
    !active[k].isNaive ==> (k > 0 && Partners(active[k - 1], active[k])) || NaiveFilled(results, active[k].pairId, n)
  }

  ghost predicate Linked(active: seq<ActiveOrder>, results: seq<OrderResult>, n: nat) {
    forall k: nat :: k < |active| ==> LinkedAt(active, results, n, k)
  }

  predicate TracksLevel(a: ActiveOrder) {
    !a.isNaive ==> a.tracker.Some? && a.tracker.value.level == a.level
  }

  lemma NaiveFilledGrows(x: seq<OrderResult>, y: seq<OrderResult>, pairId: nat, when: nat, later: nat)
    requires NaiveFilled(x, pairId, when) && x <= y && when <= later
    ensures NaiveFilled(y, pairId, later)
  {
    var j :| 0 <= j < |x| && x[j].isNaive && x[j].pairId == pairId && x[j].outcome.Filled? && x[j].resolved <= when;
    assert y[j] == x[j];
  }

  lemma FillsFollowSnoc(x: seq<OrderResult>, r: OrderResult)
    requires FillsFollow(x)
    requires !r.isNaive && r.outcome.Filled? ==> NaiveFilled(x, r.pairId, r.resolved)
    ensures FillsFollow(x + [r])
  {
    var y := x + [r];
    forall k | 0 <= k < |y| && !y[k].isNaive && y[k].outcome.Filled?
      ensures NaiveFilled(y[..k], y[k].pairId, y[k].resolved)
    {
      assert y[..k] == x[..k];
      if k == |x| { assert x[..k] == x; }
    }
  }

  lemma LinkedGrows(active: seq<ActiveOrder>, x: seq<OrderResult>, y: seq<OrderResult>, n: nat, n': nat)
    requires Linked(active, x, n) && x <= y && n <= n'
    ensures Linked(active, y, n')
  {
    forall k: nat | k < |active| ensures LinkedAt(active, y, n', k) {
      assert LinkedAt(active, x, n, k);
      if NaiveFilled(x, active[k].pairId, n) { NaiveFilledGrows(x, y, active[k].pairId, n, n'); }
    }
  }

  lemma LinkedSnoc(active: seq<ActiveOrder>, a: ActiveOrder, results: seq<OrderResult>, n: nat)
    requires Linked(active, results, n)
    requires !a.isNaive ==> (active != [] && Partners(active[|active| - 1], a)) || NaiveFilled(results, a.pairId, n)
    ensures Linked(active + [a], results, n)
  {
    forall k: nat | k < |active + [a]| ensures LinkedAt(active + [a], results, n, k) {
      if k < |active| { assert LinkedAt(active, results, n, k); }
    }
  }

  /** What the sweep has established after its first orders. */
  ghost predicate SweepLinked(done: seq<ActiveOrder>, results: seq<OrderResult>, eff: QB.Effect, book: ShapedBook, n: nat, ttl: nat) {
    var sofar := results + Resolved(done, eff, book, n, ttl);
    var kept := Kept(done, eff, n, ttl);
    && FillsFollow(sofar)
    && Linked(kept, sofar, n)
    && (done != [] && done[|done| - 1].isNaive ==>
          var a := done[|done| - 1];
          && (Verdict(a, eff, n, ttl).None? ==> kept != [] && kept[|kept| - 1] == a)
          && (Fills(a, eff) ==> NaiveFilled(sofar, a.pairId, n)))
  }

  /** A trade that fills a tracked order fills a naive order at the same level, and
      partners time out together. */
  lemma PartnersShareFate(x: ActiveOrder, y: ActiveOrder, eff: QB.Effect, n: nat, ttl: nat)
    requires Partners(x, y) && TracksLevel(y)
    ensures !y.isNaive && Fills(y, eff) ==> Fills(x, eff)
    ensures Verdict(x, eff, n, ttl) == Some(Canceled) ==> Verdict(y, eff, n, ttl).Some?
  {
  }

  lemma SweepResolves(done: seq<ActiveOrder>, a: ActiveOrder, results: seq<OrderResult>, eff: QB.Effect, book: ShapedBook, n: nat, ttl: nat)
    requires SweepLinked(done, results, eff, book, n, ttl) && TracksLevel(a)
    requires !a.isNaive ==> (done != [] && Partners(done[|done| - 1], a)) || NaiveFilled(results, a.pairId, n)
    requires Verdict(a, eff, n, ttl).Some?
    ensures SweepLinked(done + [a], results, eff, book, n, ttl)
  {
    var r := Finish(book, a, Verdict(a, eff, n, ttl).value, n);
    var before := results + Resolved(done, eff, book, n, ttl);
    assert (done + [a])[..|done|] == done;
    assert results + Resolved(done + [a], eff, book, n, ttl) == before + [r];
    assert Kept(done + [a], eff, n, ttl) == Kept(done, eff, n, ttl);
    if !a.isNaive && Fills(a, eff) {
      if NaiveFilled(results, a.pairId, n) {
        NaiveFilledGrows(results, before, a.pairId, n, n);
      } else {
        PartnersShareFate(done[|done| - 1], a, eff, n, ttl);
      }
    }
    FillsFollowSnoc(before, r);
    LinkedGrows(Kept(done, eff, n, ttl), before, before + [r], n, n);
    if a.isNaive && Fills(a, eff) {
      assert (before + [r])[|before|] == r;
    }
  }

  lemma SweepKeeps(done: seq<ActiveOrder>, a: ActiveOrder, results: seq<OrderResult>, eff: QB.Effect, book: ShapedBook, n: nat, ttl: nat)
    requires SweepLinked(done, results, eff, book, n, ttl) && TracksLevel(a)
    requires !a.isNaive ==> (done != [] && Partners(done[|done| - 1], a)) || NaiveFilled(results, a.pairId, n)
    requires Verdict(a, eff, n, ttl).None?
    ensures SweepLinked(done + [a], results, eff, book, n, ttl)
  {
    var before := results + Resolved(done, eff, book, n, ttl);
    var kept := Kept(done, eff, n, ttl);
    assert (done + [a])[..|done|] == done;
    assert Resolved(done + [a], eff, book, n, ttl) == Resolved(done, eff, book, n, ttl);
    assert Kept(done + [a], eff, n, ttl) == kept + [Aged(a, eff)];
    if !a.isNaive {
      if NaiveFilled(results, a.pairId, n) {
        NaiveFilledGrows(results, before, a.pairId, n, n);
      } else {
        PartnersShareFate(done[|done| - 1], a, eff, n, ttl);
      }
    }
    LinkedSnoc(kept, Aged(a, eff), before, n);
  }

  lemma {:induction false} SweepIsLinked(active: seq<ActiveOrder>, results: seq<OrderResult>, eff: QB.Effect, book: ShapedBook, n: nat, ttl: nat)
    requires FillsFollow(results) && Linked(active, results, n)
    requires forall k :: 0 <= k < |active| ==> TracksLevel(active[k])
    ensures SweepLinked(active, results, eff, book, n, ttl)
  {
    if active == [] {
      assert results + [] == results;
    } else {
      var p := |active| - 1;
      var rest, a := active[..p], active[p];
      forall k: nat | k < |rest| ensures LinkedAt(rest, results, n, k) {
        assert LinkedAt(active, results, n, k);
      }
      SweepIsLinked(rest, results, eff, book, n, ttl);
      assert LinkedAt(active, results, n, p);
      assert rest + [a] == active;
      if Verdict(a, eff, n, ttl).Some? {
        SweepResolves(rest, a, results, eff, book, n, ttl);
      } else {
        SweepKeeps(rest, a, results, eff, book, n, ttl);
      }
    }
  }

  lemma PlaceIsLinked(cfg: Config, e: Engine, n: nat)
    requires Linked(e.active, e.results, n)
    ensures Linked(Place(cfg, e, n).active, e.results, n)
  {
    var x, y := NaiveOrder(cfg, e, n), TrackedOrder(cfg, e, n);
    LinkedSnoc(e.active, x, e.results, n);
    LinkedSnoc(e.active + [x], y, e.results, n);
    assert e.active + [x] + [y] == e.active + [x, y];
  }

  lemma {:induction false} TicksAreLinked(cfg: Config, reference: int, ms: seq<Msg>)
    requires cfg.interval > 0
    ensures FillsFollow(Ticks(cfg, reference, ms).results)
    ensures Linked(Ticks(cfg, reference, ms).active, Ticks(cfg, reference, ms).results, |ms|)
  {
    if ms == [] {
    } else {
      var rest, n := ms[..|ms| - 1], |ms| - 1;
      TicksAreLinked(cfg, reference, rest);
      TicksAreTimed(cfg, reference, rest);
      var e := Ticks(cfg, reference, rest);
      forall k | 0 <= k < |e.active| ensures TracksLevel(e.active[k]) {
        assert ActiveOk(cfg, e.nextPair, e.active[k], n);
      }
      var s := Swept(cfg, e, ms[n], n);
      SweepIsLinked(e.active, e.results, QB.EffectOf(e.queue, ms[n]), s.venue.book, n, cfg.ttl);
      if Places(cfg, s.venue.book, n) {
        PlaceIsLinked(cfg, s, n);
        LinkedGrows(Place(cfg, s, n).active, s.results, s.results, n, n + 1);
      } else {
        LinkedGrows(s.active, s.results, s.results, n, n + 1);
      }
    }
  }

  lemma {:induction false} LeftoversFollow(results: seq<OrderResult>, active: seq<ActiveOrder>, book: ShapedBook, n: nat)
    requires FillsFollow(results)
    ensures FillsFollow(results + Leftovers(active, book, n))
  {
    if active == [] {
      assert results + [] == results;
    } else {
      var rest, r := active[..|active| - 1], Finish(book, active[|active| - 1], StillResting, n);
      LeftoversFollow(results, rest, book, n);
      FillsFollowSnoc(results + Leftovers(rest, book, n), r);
      assert results + Leftovers(active, book, n) == results + Leftovers(rest, book, n) + [r];
    }
  }

  /** For every stream, interval and time-to-live: a filled queue-tracked order's naive
      partner is filled too, at the same or an earlier message and earlier in the results. */
  lemma QueueFillImpliesNaiveFill(cfg: Config, reference: int, ms: seq<Msg>)
    requires cfg.interval > 0
    ensures FillsFollow(Results(cfg, reference, ms))
  {
    TicksAreLinked(cfg, reference, ms);
    var e := Ticks(cfg, reference, ms);
    LeftoversFollow(e.results, e.active, e.venue.book, |ms|);
  }

  function FillCount(results: seq<OrderResult>, naive: bool): nat {
    if results == [] then 0 else
    FillCount(results[..|results| - 1], naive)
    + if results[|results| - 1].isNaive == naive && results[|results| - 1].outcome.Filled? then 1 else 0
  }

  function FilledPairs(results: seq<OrderResult>, naive: bool): set<nat> {
    set k | 0 <= k < |results| && results[k].isNaive == naive && results[k].outcome.Filled? :: results[k].pairId
  }

  predicate PairNumbered(r: OrderResult) {
    r.id == if r.isNaive then 2 * r.pairId - 1 else 2 * r.pairId
  }

  lemma {:induction false} ReportedIfPresent(results: seq<OrderResult>, k: nat)
    requires k < |results|
    ensures Reported(results, results[k].id) >= 1
  {
    if k < |results| - 1 { ReportedIfPresent(results[..|results| - 1], k); }
  }

  lemma PairsSnoc(rest: seq<OrderResult>, r: OrderResult, naive: bool)
    ensures FilledPairs(rest + [r], naive)
            == FilledPairs(rest, naive) + if r.isNaive == naive && r.outcome.Filled? then {r.pairId} else {}
  {
    var all := rest + [r];
    forall p | p in FilledPairs(rest, naive) ensures p in FilledPairs(all, naive) {
      var k :| 0 <= k < |rest| && rest[k].isNaive == naive && rest[k].outcome.Filled? && rest[k].pairId == p;
      assert all[k] == rest[k];
    }
    assert all[|rest|] == r;
  }

  lemma PairIsNew(rest: seq<OrderResult>, r: OrderResult)
    requires Reported(rest + [r], r.id) <= 1
    requires PairNumbered(r) && forall x :: x in rest ==> PairNumbered(x)
    ensures r.pairId !in FilledPairs(rest, r.isNaive)
  {
    if r.pairId in FilledPairs(rest, r.isNaive) {
      var k :| 0 <= k < |rest| && rest[k].isNaive == r.isNaive && rest[k].outcome.Filled? && rest[k].pairId == r.pairId;
      assert PairNumbered(rest[k]);
      ReportedIfPresent(rest, k);
      ReportedSnoc(rest, r, r.id);
    }
  }

  /** When no id reports twice, counting fills is counting pairs. */
  lemma {:induction false} FillCountIsPairs(results: seq<OrderResult>, naive: bool)
    requires forall id: nat :: Reported(results, id) <= 1
    requires forall r :: r in results ==> PairNumbered(r)
    ensures FillCount(results, naive) == |FilledPairs(results, naive)|
  {
    if results == [] {
    } else {
      var rest, r := results[..|results| - 1], results[|results| - 1];
      assert results == rest + [r];
      forall id: nat ensures Reported(rest, id) <= 1 {
        ReportedSnoc(rest, r, id);
      }
      FillCountIsPairs(rest, naive);
      PairsSnoc(rest, r, naive);
      PairIsNew(rest, r);
    }
  }

  lemma SubsetIsSmaller(a: set<nat>, b: set<nat>)
    requires a <= b
    ensures |a| <= |b|
  {
    assert b == a + (b - a);
  }

  /** So queue-tracked fills never exceed naive fills. */
  lemma QueueFillsAtMostNaiveFills(cfg: Config, reference: int, ms: seq<Msg>)
    requires cfg.interval > 0
    ensures FillCount(Results(cfg, reference, ms), false) <= FillCount(Results(cfg, reference, ms), true)
  {
    var results := Results(cfg, reference, ms);
    QueueFillImpliesNaiveFill(cfg, reference, ms);
    forall id: nat ensures Reported(results, id) <= 1 {
      EachOrderReportsOnce(cfg, reference, ms, id);
    }
    forall r | r in results ensures PairNumbered(r) {
      ResolutionIsTimed(cfg, reference, ms, r);
    }
    FillCountIsPairs(results, false);
    FillCountIsPairs(results, true);
    forall p | p in FilledPairs(results, false) ensures p in FilledPairs(results, true) {
      var k :| 0 <= k < |results| && !results[k].isNaive && results[k].outcome.Filled? && results[k].pairId == p;
      assert NaiveFilled(results[..k], p, results[k].resolved);
    }
    SubsetIsSmaller(FilledPairs(results, false), FilledPairs(results, true));
  }

  // ----- the object -----

  /** A sweep that has handled `j` of the orders it found: the kept ones stand before the rest. */
  ghost predicate Midway(was: seq<ActiveOrder>, j: nat, list: seq<ActiveOrder>, i: nat, out: seq<OrderResult>,
                         results: seq<OrderResult>, eff: QB.Effect, book: ShapedBook, idx: nat, ttl: nat)
  {
    && j <= |was| && i == |Kept(was[..j], eff, idx, ttl)|
    && list == Kept(was[..j], eff, idx, ttl) + was[j..]
    && out == results + Resolved(was[..j], eff, book, idx, ttl)
  }

  lemma SweepMoves(was: seq<ActiveOrder>, j: nat, list: seq<ActiveOrder>, i: nat, out: seq<OrderResult>,
                   results: seq<OrderResult>, eff: QB.Effect, book: ShapedBook, idx: nat, ttl: nat)
    requires Midway(was, j, list, i, out, results, eff, book, idx, ttl) && i < |list|
    ensures match Verdict(list[i], eff, idx, ttl)
            case Some(v) => Midway(was, j + 1, list[..i] + list[i + 1..], i, out + [Finish(book, list[i], v, idx)],
                                   results, eff, book, idx, ttl)
            case None => Midway(was, j + 1, list[i := Aged(list[i], eff)], i + 1, out, results, eff, book, idx, ttl)
  {
    assert was[..j + 1][..j] == was[..j];
    assert list[i] == was[j];
  }

  lemma SweepEnds(was: seq<ActiveOrder>, j: nat, list: seq<ActiveOrder>, i: nat, out: seq<OrderResult>,
                  results: seq<OrderResult>, eff: QB.Effect, book: ShapedBook, idx: nat, ttl: nat)
    requires Midway(was, j, list, i, out, results, eff, book, idx, ttl) && i >= |list|
    ensures list == Kept(was, eff, idx, ttl) && out == results + Resolved(was, eff, book, idx, ttl)
  {
    assert j == |was| && was[..j] == was;
  }

  class BacktestEngine {
    const cfg: Config
    const book: OrderBook
    var bookOrders: OM.Orders
    const qbook: QB.QueuePositionBook
    var active: seq<ActiveOrder>
    var nextId: nat
    var nextPair: nat

    ghost predicate Valid()
      reads this, book, book.bid, book.ask, qbook
    {
      book.Valid() && qbook.Valid()
    }

    ghost function Value(results: seq<OrderResult>): Engine
      requires Valid()
      reads this, book, book.bid, book.ask, qbook
    {
      Engine(OM.Venue(bookOrders, book.Value()), qbook.Value(), active, nextId, nextPair, results)
    }

    constructor (cfg: Config)
      ensures Valid() && fresh(book.Repr()) && fresh(qbook)
      ensures this.cfg == cfg && Value([]) == Engine(OM.Venue(map[], BLANK), QB.QBook(map[], map[], 0), [], 1, 1, [])
    {
      this.cfg := cfg;
      book := new OrderBook();
      bookOrders := map[];
      qbook := new QB.QueuePositionBook();
      active, nextId, nextPair := [], 1, 1;
    }

    method FinishOrder(a: ActiveOrder, outcome: Outcome, idx: nat) returns (r: OrderResult)
      requires book.Valid()
      ensures r == Finish(book.Value(), a, outcome, idx)
    {
      var bid := if book.bestBid >= 0 then book.base + book.bestBid else a.bidAtPlace;
      var ask := if book.bestAsk < LEVELS then book.base + book.bestAsk else a.askAtPlace;
      r := OrderResult(a.id, a.pairId, a.isNaive, a.level.side, a.level.price, a.qty, a.placed, idx, outcome,
                       a.bidAtPlace, a.askAtPlace, bid, ask, a.aheadAtPlace);
    }

    /** Whether a message resolves an order, and how the order ages if it does not. */
    method Decide(a: ActiveOrder, eff: QB.Effect, idx: nat) returns (verdict: Option<Outcome>, aged: ActiveOrder)
      ensures verdict == Verdict(a, eff, idx, cfg.ttl) && aged == Aged(a, eff)
    {
      verdict, aged := None, a;
      if a.isNaive {
        if eff.reduction.Some? && eff.reduction.value.level == a.level && eff.reduction.value.isExecute {
          verdict := Some(Filled);
        }
      } else if a.tracker.Some? {
        var (tracker, filled) := QB.Consumed(a.tracker.value, eff);
        aged := a.(tracker := Some(tracker));
        if filled { verdict := Some(Filled); }
      }
      if verdict.None? && idx - a.placed >= cfg.ttl {
        verdict := Some(Canceled);
      }
    }

    /** Walk the active orders, erasing the resolved ones in place. */
    method SweepActive(eff: QB.Effect, idx: nat, results: seq<OrderResult>) returns (out: seq<OrderResult>)
      requires Valid()
      modifies this`active
      ensures Valid()
      ensures out == results + Resolved(old(active), eff, book.Value(), idx, cfg.ttl)
      ensures active == Kept(old(active), eff, idx, cfg.ttl)
    {
      ghost var was, depth := active, book.Value();
      ghost var j: nat := 0;
      var i: nat := 0;
      out := results;
      while i < |active|
        invariant Midway(was, j, active, i, out, results, eff, depth, idx, cfg.ttl)
        invariant Valid() && book.Value() == depth
        decreases |active| - i
      {
        SweepMoves(was, j, active, i, out, results, eff, depth, idx, cfg.ttl);
        j := j + 1;
        i, out := Settle(i, eff, idx, out);
      }
      SweepEnds(was, j, active, i, out, results, eff, depth, idx, cfg.ttl);
    }

    /** Resolve and erase the order at the iterator, or age it and move on. */
    method Settle(i: nat, eff: QB.Effect, idx: nat, results: seq<OrderResult>) returns (next: nat, out: seq<OrderResult>)
      requires Valid() && i < |active|
      modifies this`active
      ensures Valid() && book.Value() == old(book.Value())
      ensures match Verdict(old(active)[i], eff, idx, cfg.ttl)
              case Some(v) =>
                && next == i && active == old(active)[..i] + old(active)[i + 1..]
                && out == results + [Finish(book.Value(), old(active)[i], v, idx)]
              case None => next == i + 1 && active == old(active)[i := Aged(old(active)[i], eff)] && out == results
    {
      var verdict, aged := Decide(active[i], eff, idx);
      next, out := i, results;
      if verdict.Some? {
        var r := FinishOrder(active[i], verdict.value, idx);
        out := out + [r];
        active := active[..i] + active[i + 1..];
      } else {
        active := active[i := aged];
        next := i + 1;
      }
    }

    method PlacePair(idx: nat)
      requires Valid()
      modifies this
      ensures Valid() && bookOrders == old(bookOrders)
      ensures forall results :: Value(results) == Place(cfg, old(Value(results)), idx)
    {
      var px := book.base + book.bestBid;
      var key := QB.LevelKey(0, Buy, px);
      var arrival := qbook.nextSeq;
      var ahead := qbook.LevelTotalQty(key);
      var ask := book.base + book.bestAsk;
      var pairId := nextPair;
      nextPair := nextPair + 1;
      var naive := ActiveOrder(nextId, pairId, true, key, idx, px, ask, cfg.orderQty, ahead, None);
      nextId := nextId + 1;
      active := active + [naive];
      var tracked := ActiveOrder(nextId, pairId, false, key, idx, px, ask, cfg.orderQty, ahead,
                                 Some(QB.Placed(key, arrival, ahead)));
      nextId := nextId + 1;
      active := active + [tracked];
      assert active == old(active) + [naive, tracked];
    }

    /** One turn of the replay loop: both books, the sweep, then perhaps a placement. */
    method Advance(m: Msg, idx: nat, results: seq<OrderResult>) returns (out: seq<OrderResult>)
      requires Valid() && cfg.interval > 0
      modifies this, book.Repr(), qbook
      ensures Valid() && Value(out) == Tick(cfg, old(Value(results)), m, idx)
    {
      bookOrders := OM.ApplyToBook(m, book, bookOrders);
      var eff := qbook.Apply(m);
      out := SweepActive(eff, idx, results);
      if idx % cfg.interval == 0 && book.bestBid >= 0 && book.bestAsk < LEVELS {
        PlacePair(idx);
      }
    }

    /** The replay loop, over any message stream. */
    method Run(ms: seq<Msg>, reference: int) returns (results: seq<OrderResult>)
      requires cfg.interval > 0
      requires Valid() && Value([]) == Engine(OM.Venue(map[], BLANK), QB.QBook(map[], map[], 0), [], 1, 1, [])
      modifies this, book.Repr(), qbook
      ensures Valid() && results == Results(cfg, reference, ms)
    {
      book.Init(reference);
      results := [];
      for idx := 0 to |ms|
        invariant Valid()
        invariant Value(results) == Ticks(cfg, reference, ms[..idx])
      {
        assert ms[..idx + 1][..idx] == ms[..idx];
        results := Advance(ms[idx], idx, results);
      }
      assert ms[..|ms|] == ms;
      results := Close(results, |ms|);
    }

    /** At the end of the stream every order still active is reported as resting. */
    method Close(filled: seq<OrderResult>, n: nat) returns (results: seq<OrderResult>)
      requires Valid()
      modifies this`active
      ensures Valid() && results == filled + Leftovers(old(active), book.Value(), n)
    {
      results := filled;
      ghost var depth := book.Value();
      for k := 0 to |active|
        invariant active == old(active)
        invariant results == filled + Leftovers(active[..k], depth, n)
      {
        assert active[..k + 1][..k] == active[..k];
        var r := FinishOrder(active[k], StillResting, n);
        results := results + [r];
      }
      assert active[..|active|] == active;
      active := [];
    }
  }
}
