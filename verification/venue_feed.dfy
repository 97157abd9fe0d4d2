/**
 One simulated venue: a single-instrument order flow drives one book.  The book is
 centred on a price its caller chose, while the order flow drifts around its own
 reference, so an update that falls outside the band is a normal event here.
 */
module VenueFeeds {
  import opened Protocol
  import opened OrderBooks
  import opened MarketSimulators
  import OM = OrderMaps

  datatype Feed = Feed(sim: Sim, venue: OM.Venue)

  function Opened(initial: int, centre: int): Feed {
    Feed(Start([initial]), OM.Opening(centre))
  }

  function Stepped(f: Feed, d: Draw): Feed
    requires Possible(f.sim, d)
  {
    Feed(After(f.sim, d), OM.Step(f.venue, Emitted(f.sim, d)))
  }

  /** The feed after its simulator made the draws `ds`. */
  function FeedAfter(initial: int, centre: int, ds: seq<Draw>): Feed
    requires Drawable(Start([initial]), ds)
  {
    Feed(SimAfter(Start([initial]), ds), OM.Replay(OM.Opening(centre), Stream(Start([initial]), ds)))
  }

  lemma FeedAfterSnoc(initial: int, centre: int, ds: seq<Draw>)
    requires ds != [] && Drawable(Start([initial]), ds)
    ensures Drawable(Start([initial]), ds[..|ds| - 1])
    ensures Possible(FeedAfter(initial, centre, ds[..|ds| - 1]).sim, ds[|ds| - 1])
    ensures FeedAfter(initial, centre, ds) == Stepped(FeedAfter(initial, centre, ds[..|ds| - 1]), ds[|ds| - 1])
  {
    var ms := Stream(Start([initial]), ds);
    assert ms[..|ms| - 1] == Stream(Start([initial]), ds[..|ds| - 1]);
  }

  /** A new venue has an empty book, centred as its caller asked, no orders, and a flow that
      starts at its own reference; nothing has been dropped. */
  lemma FeedStarts(initial: int, centre: int)
    ensures FeedAfter(initial, centre, []) == Opened(initial, centre)
    ensures var f := Opened(initial, centre);
            && f.sim.refs == [initial] && |f.sim.live| == 1 && f.sim.live[0] == [] && f.venue.orders == map[]
            && Exact(f.venue.book) && f.venue.book.dropped == 0 && IndexOf(f.venue.book.base, centre) == 8192
            && !f.venue.book.HasBid() && !f.venue.book.HasAsk()
  {
    CentredIsExact(BLANK, centre);
  }

  // ----- every reachable state -----

  /** The venue's order map is what a receiver that drops nothing would hold. */
  lemma {:induction false} ReplayOrders(v: OM.Venue, ms: seq<Msg>)
    ensures OM.Replay(v, ms).orders == OrdersOver(v.orders, ms)
  {
    if ms == [] {
    } else {
      ReplayOrders(v, ms[..|ms| - 1]);
    }
  }

  lemma {:induction false} ConsistentIsClean(v: OM.Venue, ms: seq<Msg>)
    requires v.orders == map[] && ConsistentStream(ms)
    ensures OM.CleanStream(v, ms)
  {
    if ms == [] {
    } else {
      var rest := ms[..|ms| - 1];
      ConsistentIsClean(v, rest);
      ReplayOrders(v, rest);
      NothingIsTruncated(OrdersOver(map[], rest), OwnersOver(map[], rest), ms[|ms| - 1]);
    }
  }

  /** Whatever price the book is centred on and however much is dropped: the touches are
      exact, every level in the band is the sum of its live orders, and the live orders are
      the simulator's own. */
  lemma EveryFeedIsSound(initial: int, centre: int, ds: seq<Draw>)
    requires Drawable(Start([initial]), ds)
    ensures var f := FeedAfter(initial, centre, ds);
            && OM.Sound(f.venue) && f.venue.book.base == centre - HALF
            && Agree(f.sim, f.venue.orders, OwnersOver(map[], Stream(Start([initial]), ds)))
            && |f.sim.refs| == 1
  {
    var ms := Stream(Start([initial]), ds);
    StreamIsConsistent([initial], ds);
    ReplayOrders(OM.Opening(centre), ms);
    ConsistentIsClean(OM.Opening(centre), ms);
    OM.OpeningIsSound(centre);
    OM.ReplayIsSound(OM.Opening(centre), ms);
  }

  // ----- what is dropped -----

  /** Every update that a stream asks of the book, in order. */
  function Updates(orders: OM.Orders, ms: seq<Msg>): seq<BookOp> {
    if ms == [] then [] else
    Updates(orders, ms[..|ms| - 1]) + OM.Transition(OrdersOver(orders, ms[..|ms| - 1]), ms[|ms| - 1]).1
  }

  lemma {:induction false} RunConcat(b: ShapedBook, x: seq<BookOp>, y: seq<BookOp>)
    ensures Run(b, x + y) == Run(Run(b, x), y)
  {
    if y == [] {
      assert x + y == x;
    } else {
      RunConcat(b, x, y[..|y| - 1]);
      assert (x + y)[..|x + y| - 1] == x + y[..|y| - 1];
    }
  }

  lemma {:induction false} ReplayRunsUpdates(v: OM.Venue, ms: seq<Msg>)
    ensures OM.Replay(v, ms).book == Run(v.book, Updates(v.orders, ms))
  {
    if ms == [] {
    } else {
      var rest := ms[..|ms| - 1];
      ReplayRunsUpdates(v, rest);
      ReplayOrders(v, rest);
      RunConcat(v.book, Updates(v.orders, rest), OM.Transition(OrdersOver(v.orders, rest), ms[|ms| - 1]).1);
    }
  }

  lemma {:induction false} RunCountsDrops(b: ShapedBook, ops: seq<BookOp>)
    ensures Run(b, ops).base == b.base
    ensures Run(b, ops).dropped == b.dropped + OutOfBand(b.base, ops)
  {
    if ops == [] {
    } else {
      RunCountsDrops(b, ops[..|ops| - 1]);
    }
  }

  /** `dropped` is the number of updates asked of the book that fell outside its band. */
  lemma DroppedIsOutOfBand(initial: int, centre: int, ds: seq<Draw>)
    requires Drawable(Start([initial]), ds)
    ensures FeedAfter(initial, centre, ds).venue.book.dropped
            == OutOfBand(centre - HALF, Updates(map[], Stream(Start([initial]), ds)))
  {
    ReplayRunsUpdates(OM.Opening(centre), Stream(Start([initial]), ds));
    RunCountsDrops(OM.Opening(centre).book, Updates(map[], Stream(Start([initial]), ds)));
  }

  // ----- when nothing is dropped -----

  /** How far, as the book sees it, the order flow has moved from the centre. */
  function Drift(reference: int, centre: int): int {
    ToInt32(reference - centre)
  }

  /** Every price the order flow can quote lies in the band. */
  predicate Covered(reference: int, centre: int) {
    -7992 <= Drift(reference, centre) <= 7991
  }

  lemma Narrowing(x: int, y: int)
    requires 0 <= ToInt32(x) + y < LEVELS
    ensures ToInt32(x + y) == ToInt32(x) + y
  {
  }

  lemma NarrowingBack(x: int, y: int)
    requires 0 <= ToInt32(x) < LEVELS && -16384 <= y <= 16384
    ensures ToInt32(x + y) == ToInt32(x) + y
  {
  }

  lemma QuoteInBand(reference: int, centre: int, side: Side, offset: nat)
    requires 1 <= offset <= 200 && Covered(reference, centre)
    ensures InBand(centre - HALF, Quoted(reference, side, offset))
  {
    Narrowing(reference - centre, HALF + if side.Buy? then -(offset as int) else offset);
  }

  lemma ExtremesInBand(reference: int, centre: int)
    requires InBand(centre - HALF, Quoted(reference, Buy, 200)) && InBand(centre - HALF, Quoted(reference, Sell, 200))
    ensures Covered(reference, centre)
  {
    NarrowingBack(reference - 200 - (centre - HALF), 200 - HALF);
    NarrowingBack(reference - 200 - (centre - HALF), 400);
  }

  /** The window is exact: it is just where no possible quote is out of band. */
  lemma CoveredIsExact(reference: int, centre: int)
    ensures Covered(reference, centre) <==>
            forall side, offset: nat :: 1 <= offset <= 200 ==> InBand(centre - HALF, Quoted(reference, side, offset))
  {
    if Covered(reference, centre) {
      forall side, offset: nat | 1 <= offset <= 200 ensures InBand(centre - HALF, Quoted(reference, side, offset)) {
        QuoteInBand(reference, centre, side, offset);
      }
    } else if forall side, offset: nat :: 1 <= offset <= 200 ==> InBand(centre - HALF, Quoted(reference, side, offset)) {
      ExtremesInBand(reference, centre);
    }
  }

  ghost predicate AllInBand(orders: OM.Orders, base: int) {
    forall id :: id in orders ==> InBand(base, orders[id].price)
  }

  /** One message of a covered flow touches the band only. */
  lemma StepDropsNothing(f: Feed, d: Draw, centre: int, owners: map<nat, nat>)
    requires Possible(f.sim, d) && Agree(f.sim, f.venue.orders, owners)
    requires f.venue.book.base == centre - HALF && AllInBand(f.venue.orders, centre - HALF)
    requires Covered(Reference(f.sim, d), centre)
    ensures AllInBand(Stepped(f, d).venue.orders, centre - HALF)
    ensures Stepped(f, d).venue.book.dropped == f.venue.book.dropped
  {
    var m := Emitted(f.sim, d);
    QuoteInBand(Reference(f.sim, d), centre, Buy, d.offset);
    QuoteInBand(Reference(f.sim, d), centre, Sell, d.offset);
    EmissionKeepsAgreement(f.sim, d, f.venue.orders, owners);
    OM.RunOfTransition(f.venue.book, f.venue.orders, m);
  }

  /** The reference at every message so far was covered. */
  predicate StaysCovered(initial: int, centre: int, ds: seq<Draw>)
    requires Drawable(Start([initial]), ds)
  {
    ds == [] || (StaysCovered(initial, centre, ds[..|ds| - 1])
                 && Covered(Reference(SimAfter(Start([initial]), ds[..|ds| - 1]), ds[|ds| - 1]), centre))
  }

  /** While the reference stays within -7992 to +7991 ticks of the centre, nothing is ever
      dropped and every live order rests in the book. */
  lemma {:induction false} CoveredRunDropsNothing(initial: int, centre: int, ds: seq<Draw>)
    requires Drawable(Start([initial]), ds) && StaysCovered(initial, centre, ds)
    ensures FeedAfter(initial, centre, ds).venue.book.dropped == 0
    ensures AllInBand(FeedAfter(initial, centre, ds).venue.orders, centre - HALF)
  {
    if ds == [] {
    } else {
      var rest := ds[..|ds| - 1];
      FeedAfterSnoc(initial, centre, ds);
      CoveredRunDropsNothing(initial, centre, rest);
      EveryFeedIsSound(initial, centre, rest);
      StepDropsNothing(FeedAfter(initial, centre, rest), ds[|ds| - 1], centre,
                       OwnersOver(map[], Stream(Start([initial]), rest)));
    }
  }

  /** An add at a chosen side and distance, with a chosen drift. */
  function AddDraw(drift: Option<int>, side: Side, offset: nat): Draw {
    Draw(0, drift, true, side, offset, 1, 0, DrawDelete, 1)
  }

  /** The step with a given drift is safe from drops, whatever else is drawn, exactly when
      the drifted reference is covered. */
  lemma StepMayDrop(f: Feed, drift: Option<int>, centre: int, owners: map<nat, nat>)
    requires |f.sim.refs| == 1 && Agree(f.sim, f.venue.orders, owners)
    requires f.venue.book.base == centre - HALF && AllInBand(f.venue.orders, centre - HALF)
    requires drift.Some? ==> -3 <= drift.value <= 3
    ensures Covered(f.sim.refs[0] + (if drift.Some? then drift.value else 0), centre) <==>
            forall d :: Possible(f.sim, d) && d.drift == drift
                        ==> Stepped(f, d).venue.book.dropped == f.venue.book.dropped
  {
    var reference := f.sim.refs[0] + if drift.Some? then drift.value else 0;
    if Covered(reference, centre) {
      forall d | Possible(f.sim, d) && d.drift == drift
        ensures Stepped(f, d).venue.book.dropped == f.venue.book.dropped
      {
        StepDropsNothing(f, d, centre, owners);
      }
    } else if forall d :: Possible(f.sim, d) && d.drift == drift
                        ==> Stepped(f, d).venue.book.dropped == f.venue.book.dropped {
      AddAtEdge(f, drift, Buy, centre);
      AddAtEdge(f, drift, Sell, centre);
      ExtremesInBand(reference, centre);
    }
  }

  lemma AddAtEdge(f: Feed, drift: Option<int>, side: Side, centre: int)
    requires |f.sim.refs| == 1 && |f.sim.live| == 1 && f.venue.book.base == centre - HALF
    requires drift.Some? ==> -3 <= drift.value <= 3
    ensures var d := AddDraw(drift, side, 200);
            && Possible(f.sim, d) && d.drift == drift
            && Stepped(f, d).venue.book.dropped == f.venue.book.dropped
               + if InBand(centre - HALF, Quoted(Reference(f.sim, d), side, 200)) then 0 else 1
  {
    var d := AddDraw(drift, side, 200);
    OM.RunOfTransition(f.venue.book, f.venue.orders, Emitted(f.sim, d));
  }

  // ----- how long that is guaranteed -----

  /** The reference moves at most three ticks per message. */
  lemma {:induction false} DriftIsBounded(initial: int, ds: seq<Draw>)
    requires Drawable(Start([initial]), ds)
    ensures |SimAfter(Start([initial]), ds).refs| == 1
    ensures -3 * |ds| <= SimAfter(Start([initial]), ds).refs[0] - initial <= 3 * |ds|
  {
    if ds == [] {
    } else {
      DriftIsBounded(initial, ds[..|ds| - 1]);
    }
  }

  lemma SmallDriftIsCovered(reference: int, centre: int)
    requires -7992 <= reference - centre <= 7991
    ensures Covered(reference, centre)
  {
  }

  /** The next message's reference is within three ticks more. */
  lemma NextReference(initial: int, ds: seq<Draw>, d: Draw)
    requires Drawable(Start([initial]), ds) && Possible(SimAfter(Start([initial]), ds), d)
    ensures -3 * |ds| - 3 <= Reference(SimAfter(Start([initial]), ds), d) - initial <= 3 * |ds| + 3
  {
    DriftIsBounded(initial, ds);
  }

  lemma {:induction false} ShortRunIsCovered(initial: int, ds: seq<Draw>)
    requires Drawable(Start([initial]), ds) && |ds| <= 2663
    ensures StaysCovered(initial, initial, ds)
  {
    if ds == [] {
    } else {
      var rest, d := ds[..|ds| - 1], ds[|ds| - 1];
      ShortRunIsCovered(initial, rest);
      NextReference(initial, rest, d);
      SmallDriftIsCovered(Reference(SimAfter(Start([initial]), rest), d), initial);
    }
  }

  /** A book centred on the simulator's own first price takes the first 2663 messages of
      any run without a drop. */
  lemma FirstMessagesInBand(initial: int, ds: seq<Draw>)
    requires Drawable(Start([initial]), ds) && |ds| <= 2663
    ensures FeedAfter(initial, initial, ds).venue.book.dropped == 0
  {
    ShortRunIsCovered(initial, ds);
    CoveredRunDropsNothing(initial, initial, ds);
  }

  /** The run that drifts as fast as it can and sells as far away as it can. */
  function Racing(n: nat): seq<Draw> {
    seq(n, _ => AddDraw(Some(3), Sell, 200))
  }

  lemma {:induction false} RacingRuns(initial: int, n: nat)
    ensures Drawable(Start([initial]), Racing(n))
    ensures var s := SimAfter(Start([initial]), Racing(n)); |s.refs| == 1 && |s.live| == 1 && s.refs[0] == initial + 3 * n
  {
    if n == 0 {
    } else {
      RacingRuns(initial, n - 1);
      assert Racing(n)[..n - 1] == Racing(n - 1);
    }
  }

  /** Its last sale is quoted as far out as the run has drifted. */
  lemma RacingStep(initial: int, n: nat)
    requires n > 0
    ensures Drawable(Start([initial]), Racing(n)) && Drawable(Start([initial]), Racing(n - 1))
    ensures FeedAfter(initial, initial, Racing(n)).venue.book.dropped
            == FeedAfter(initial, initial, Racing(n - 1)).venue.book.dropped
               + if InBand(initial - HALF, initial + 3 * n + 200) then 0 else 1
  {
    RacingRuns(initial, n - 1);
    RacingRuns(initial, n);
    assert Racing(n)[..n - 1] == Racing(n - 1);
    EveryFeedIsSound(initial, initial, Racing(n - 1));
    FeedAfterSnoc(initial, initial, Racing(n));
    AddAtEdge(FeedAfter(initial, initial, Racing(n - 1)), Some(3), Sell, initial);
  }

  /** And no guarantee is longer: some run drops its 2664th message. */
  lemma NextMessageCanDrop(initial: int)
    ensures exists ds: seq<Draw> :: |ds| == 2664 && Drawable(Start([initial]), ds)
                                    && FeedAfter(initial, initial, ds).venue.book.dropped == 1
  {
    var n: nat := 2664;
    RacingStep(initial, n);
    FirstMessagesInBand(initial, Racing(n - 1));
    assert |Racing(n)| == n;
  }

  // ----- the object -----

  class VenueFeed {
    const venueId: int
    const sim: MarketSimulator
    const book: OrderBook
    var orders: OM.Orders

    ghost predicate Valid()
      reads this, book, book.bid, book.ask
    {
      book.Valid()
    }

    ghost function Value(): Feed
      requires Valid()
      reads this, sim, book, book.bid, book.ask
    {
      Feed(sim.Value(), OM.Venue(orders, book.Value()))
    }

    constructor (venueId: int, initial: int, centre: int)
      ensures Valid() && fresh(sim) && fresh(book.Repr())
      ensures this.venueId == venueId && Value() == Opened(initial, centre)
    {
      this.venueId := venueId;
      sim := new MarketSimulator([initial]);
      book := new OrderBook();
      orders := map[];
      new;
      book.Init(centre);
    }

    /** Pull one message from the order flow and apply it. */
    method Step(d: Draw) returns (m: Msg)
      requires Valid() && Possible(sim.Value(), d)
      modifies this, sim, book.Repr()
      ensures Valid() && m == Emitted(old(sim.Value()), d)
      ensures Value() == Stepped(old(Value()), d)
    {
      m := sim.NextMessage(d);
      orders := OM.ApplyToBook(m, book, orders);
    }
  }
}
