/**
 Whole backtest runs: the engine's two books stay coupled, and every active order's
 constant-time tracker says what a scan of the queue book would.
 */
module BacktestRuns {
  import opened Protocol
  import opened OrderBooks
  import opened Backtests
  import OM = OrderMaps
  import QB = QueueBooks
  import Coupling = BookCoupling

  /** The engine's books are plain replays of the stream. */
  lemma {:induction false} TicksReplay(cfg: Config, reference: int, ms: seq<Msg>)
    requires cfg.interval > 0
    ensures Ticks(cfg, reference, ms).venue == OM.Replay(OM.Opening(reference), ms)
    ensures Ticks(cfg, reference, ms).queue == QB.Replay(QB.QBook(map[], map[], 0), ms)
  {
    if ms == [] {
    } else {
      TicksReplay(cfg, reference, ms[..|ms| - 1]);
    }
  }

  /** In every state of every run the two books agree, order by order and level by level. */
  lemma EngineBooksStayCoupled(cfg: Config, reference: int, ms: seq<Msg>)
    requires cfg.interval > 0
    ensures Coupling.CoupledBooks(Ticks(cfg, reference, ms).venue, Ticks(cfg, reference, ms).queue)
  {
    TicksReplay(cfg, reference, ms);
    Coupling.ReplayKeepsCoupled(reference, ms);
  }

  /** No placement of the run met a level of 2^32 or more. */
  predicate PlacementsFit(cfg: Config, reference: int, ms: seq<Msg>)
    requires cfg.interval > 0
  {
    ms == [] ||
    var rest, n := ms[..|ms| - 1], |ms| - 1;
    var s := Swept(cfg, Ticks(cfg, reference, rest), ms[n], n);
    && PlacementsFit(cfg, reference, rest)
    && (Places(cfg, s.venue.book, n) ==> QB.LevelQty(s.queue, BestBidLevel(s.venue.book)) < TWO_32)
  }

  /** A queue-tracked order carries a tracker that says what the scan says; a naive one none. */
  predicate TracksExactly(queue: QB.QBook, a: ActiveOrder) {
    && (a.tracker.Some? <==> !a.isNaive)
    && (a.tracker.Some? ==> QB.Agrees(queue, a.tracker.value))
  }

  ghost predicate AllTrackExactly(queue: QB.QBook, active: seq<ActiveOrder>) {
    forall a :: a in active ==> TracksExactly(queue, a)
  }

  lemma AgedTracksExactly(queue: QB.QBook, a: ActiveOrder, m: Msg)
    requires QB.WellFormed(queue) && TracksExactly(queue, a)
    ensures TracksExactly(QB.Applied(queue, m), Aged(a, QB.EffectOf(queue, m)))
  {
    if a.tracker.Some? { QB.ConsumeAgrees(queue, a.tracker.value, m); }
  }

  lemma {:induction false} SweepTracksExactly(queue: QB.QBook, active: seq<ActiveOrder>, m: Msg, idx: nat, ttl: nat)
    requires QB.WellFormed(queue) && AllTrackExactly(queue, active)
    ensures AllTrackExactly(QB.Applied(queue, m), Kept(active, QB.EffectOf(queue, m), idx, ttl))
  {
    if active == [] {
    } else {
      var rest, a := active[..|active| - 1], active[|active| - 1];
      SweepTracksExactly(queue, rest, m, idx, ttl);
      AgedTracksExactly(queue, a, m);
    }
  }

  ghost predicate EngineTracksExactly(e: Engine) {
    QB.WellFormed(e.queue) && AllTrackExactly(e.queue, e.active)
  }

  lemma SweptTracksExactly(cfg: Config, e: Engine, m: Msg, n: nat)
    requires EngineTracksExactly(e)
    ensures EngineTracksExactly(Swept(cfg, e, m, n))
  {
    QB.AppliedIsWellFormed(e.queue, m);
    SweepTracksExactly(e.queue, e.active, m, n, cfg.ttl);
  }

  lemma PlaceTracksExactly(cfg: Config, e: Engine, n: nat)
    requires EngineTracksExactly(e)
    requires QB.LevelQty(e.queue, BestBidLevel(e.venue.book)) < TWO_32
    ensures EngineTracksExactly(Place(cfg, e, n))
  {
    QB.PlacementAgrees(e.queue, BestBidLevel(e.venue.book));
    assert TracksExactly(e.queue, NaiveOrder(cfg, e, n)) && TracksExactly(e.queue, TrackedOrder(cfg, e, n));
  }

  /** In every state of every run whose placements fit 32 bits, every active tracker
      equals the from-scratch scan of the queue book. */
  lemma {:induction false} TrackersAreExact(cfg: Config, reference: int, ms: seq<Msg>)
    requires cfg.interval > 0 && PlacementsFit(cfg, reference, ms)
    ensures EngineTracksExactly(Ticks(cfg, reference, ms))
  {
    if ms == [] {
    } else {
      var rest, n := ms[..|ms| - 1], |ms| - 1;
      TrackersAreExact(cfg, reference, rest);
      var e := Ticks(cfg, reference, rest);
      SweptTracksExactly(cfg, e, ms[n], n);
      var s := Swept(cfg, e, ms[n], n);
      if Places(cfg, s.venue.book, n) { PlaceTracksExactly(cfg, s, n); }
    }
  }

  /** So a queue-tracked order fills exactly when the scan found nothing ahead of it before
      the message and the message executes an order of its level. */
  lemma FillsAreGenuine(cfg: Config, reference: int, ms: seq<Msg>, k: nat, m: Msg)
    requires cfg.interval > 0 && PlacementsFit(cfg, reference, ms)
    requires k < |Ticks(cfg, reference, ms).active| && !Ticks(cfg, reference, ms).active[k].isNaive
    ensures var e := Ticks(cfg, reference, ms);
            var a := e.active[k];
            && a.tracker.Some? && a.tracker.value.level == a.level
            && (Fills(a, QB.EffectOf(e.queue, m)) <==>
                && QB.QtyAhead(e.queue, a.level, a.tracker.value.arrival) == 0
                && m.Execute? && m.id in e.queue.orders && e.queue.orders[m.id].level == a.level)
  {
    var e := Ticks(cfg, reference, ms);
    TrackersAreExact(cfg, reference, ms);
    TicksAreTimed(cfg, reference, ms);
    assert TracksExactly(e.queue, e.active[k]);
    assert ActiveOk(cfg, e.nextPair, e.active[k], |ms|);
    QB.ConsumeAgrees(e.queue, e.active[k].tracker.value, m);
  }
}
