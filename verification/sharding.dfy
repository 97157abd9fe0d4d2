/**
 When the number of shards shows.  Each message is judged from what rests just before it
 is dispatched; a stream shows the sharding exactly when one of its messages does.
 */
module Sharding {
  import opened Protocol
  import opened OrderBooks
  import opened OrderMaps
  import opened Normalizers
  import opened NormalizerProtocol

  // ----- what it means not to show -----

  /** Shard `k` holds the order, as `o`, and no other shard holds that id. */
  ghost predicate HoldsAlone(parts: seq<ShardState>, id: nat, k: nat, o: Resting) {
    && k < |parts| && id in parts[k].orders && parts[k].orders[id] == o
    && forall j :: 0 <= j < |parts| && j != k ==> id !in parts[j].orders
  }

  ghost predicate Absent(parts: seq<ShardState>, id: nat) {
    forall k :: 0 <= k < |parts| ==> id !in parts[k].orders
  }

  ghost predicate HeldOnce(parts: seq<ShardState>, whole: Orders, id: nat) {
    if id in whole then exists k :: HoldsAlone(parts, id, k, whole[id]) else Absent(parts, id)
  }

  /** The shards' order maps are disjoint and together make up the one map. */
  ghost predicate Split(parts: seq<ShardState>, whole: Orders) {
    forall id: nat :: HeldOnce(parts, whole, id)
  }

  /** The shards hold one book for every instrument. */
  ghost predicate Shaped(parts: seq<ShardState>) {
    |parts| > 0 && forall k :: 0 <= k < |parts| ==> |parts[k].books| == BooksIn(k, |parts|)
  }

  ghost predicate SameBook(parts: seq<ShardState>, one: ShardState, i: nat)
    requires Shaped(parts) && |one.books| == NUM_INSTRUMENTS && i < NUM_INSTRUMENTS
  {
    RouteInRange(i, |parts|);
    parts[ShardOf(i, |parts|)].books[LocalOf(i, |parts|)] == one.books[i]
  }

  /** Nothing tells the shards from the one shard: every live order is held by exactly one
      of them and every instrument's book is the same. */
  ghost predicate Invisible(parts: seq<ShardState>, one: ShardState) {
    && Shaped(parts) && |one.books| == NUM_INSTRUMENTS
    && Split(parts, one.orders)
    && forall i :: 0 <= i < NUM_INSTRUMENTS ==> SameBook(parts, one, i)
  }

  // ----- one message -----

  function TargetOf(parts: seq<ShardState>, m: Msg): nat
    requires |parts| > 0
  {
    ShardOf(m.header.instrument, |parts|)
  }

  function ManyStep(parts: seq<ShardState>, m: Msg): seq<ShardState>
    requires Shaped(parts) && m.header.instrument < NUM_INSTRUMENTS
  {
    RouteInRange(m.header.instrument, |parts|);
    var t := TargetOf(parts, m);
    parts[t := Applied(parts[t], Item(m, LocalOf(m.header.instrument, |parts|)))]
  }

  function OneStep(one: ShardState, m: Msg): ShardState
    requires m.header.instrument < |one.books|
  {
    Applied(one, Item(m, m.header.instrument))
  }

  /** The id rests on a shard other than `t`. */
  predicate Elsewhere(parts: seq<ShardState>, id: nat, t: nat) {
    exists k :: 0 <= k < |parts| && k != t && id in parts[k].orders
  }

  /** A message that changes nothing even where it finds its order: an empty execution or
      cancellation, or a replacement of an order by itself, at a level of the message's book
      that neither drops, clamps nor moves the touch. */
  predicate Idle(o: Resting, b: ShapedBook, m: Msg) {
    && InBand(b.base, o.price)
    && var i := IndexOf(b.base, o.price);
       var touch := if o.side.Buy? then b.bestBid else b.bestAsk;
       match m
       case Execute(_, _, qty) => qty == 0 < o.qty && b.At(o.side, i) >= 0 && !(i == touch && b.At(o.side, i) == 0)
       case Cancel(_, _, qty) => qty == 0 < o.qty && b.At(o.side, i) >= 0 && !(i == touch && b.At(o.side, i) == 0)
       case Replace(_, id, newId, price, qty) =>
         && newId == id && price == o.price && qty == o.qty && b.At(o.side, i) >= qty
         && if o.side.Buy? then i <= touch else i >= touch
       case _ => false
  }

  /** The message shows the sharding: it names an order resting on a shard it is not sent
      to, and not idly; or it replaces an order of its own shard by an id resting on another. */
  predicate Shows(parts: seq<ShardState>, one: ShardState, m: Msg)
    requires |parts| > 0 && m.header.instrument < |one.books|
  {
    var t := TargetOf(parts, m);
    || (Elsewhere(parts, m.id, t)
        && !(m.id in one.orders && Idle(one.orders[m.id], one.books[m.header.instrument], m)))
    || (m.Replace? && m.id in parts[t].orders && Elsewhere(parts, m.newId, t))
  }

  // ----- messages that find their order at home, or nowhere -----

  /** At home, the target shard and the one shard take the same step. */
  lemma HomeStep(part: Orders, whole: Orders, m: Msg)
    requires m.id in part <==> m.id in whole
    requires m.id in part ==> part[m.id] == whole[m.id]
    ensures Transition(part, m).1 == Transition(whole, m).1
  {
  }

  lemma HomeBooks(parts: seq<ShardState>, one: ShardState, m: Msg, i: nat)
    requires Shaped(parts) && |one.books| == NUM_INSTRUMENTS
    requires m.header.instrument < NUM_INSTRUMENTS && i < NUM_INSTRUMENTS
    requires SameBook(parts, one, i) && SameBook(parts, one, m.header.instrument)
    requires Transition(parts[TargetOf(parts, m)].orders, m).1 == Transition(one.orders, m).1
    ensures Shaped(ManyStep(parts, m)) && SameBook(ManyStep(parts, m), OneStep(one, m), i)
  {
    var j, n := m.header.instrument, |parts|;
    RouteInRange(i, n);
    RouteInRange(j, n);
    if i < j {
      RoutesDiffer(i, j, n);
    } else if j < i {
      RoutesDiffer(j, i, n);
    }
  }

  /** The id is where its holder is: the target, or nobody. */
  lemma AtHome(parts: seq<ShardState>, whole: Orders, id: nat, t: nat)
    requires HeldOnce(parts, whole, id) && t < |parts| && !Elsewhere(parts, id, t)
    ensures id in parts[t].orders <==> id in whole
    ensures id in whole ==> HoldsAlone(parts, id, t, whole[id])
  {
  }

  lemma HomeKeepsId(parts: seq<ShardState>, one: ShardState, m: Msg, id: nat)
    requires Shaped(parts) && m.header.instrument < |one.books| == NUM_INSTRUMENTS
    requires Split(parts, one.orders) && !Elsewhere(parts, m.id, TargetOf(parts, m))
    requires m.Replace? && m.id in parts[TargetOf(parts, m)].orders ==> !Elsewhere(parts, m.newId, TargetOf(parts, m))
    ensures HeldOnce(ManyStep(parts, m), OneStep(one, m).orders, id)
  {
    var t := TargetOf(parts, m);
    var parts', whole' := ManyStep(parts, m), OneStep(one, m).orders;
    assert HeldOnce(parts, one.orders, id) && HeldOnce(parts, one.orders, m.id);
    AtHome(parts, one.orders, m.id, t);
    if id == m.id || (m.Replace? && m.id in parts[t].orders && id == m.newId) {
      AtHome(parts, one.orders, id, t);
      if id in whole' { assert HoldsAlone(parts', id, t, whole'[id]); }
    } else {
      assert id in whole' <==> id in one.orders;
      assert forall k :: 0 <= k < |parts| ==> (id in parts'[k].orders <==> id in parts[k].orders);
      if id in one.orders {
        var k :| HoldsAlone(parts, id, k, one.orders[id]);
        assert HoldsAlone(parts', id, k, whole'[id]);
      }
    }
  }

  lemma HomeKeepsBooks(parts: seq<ShardState>, one: ShardState, m: Msg)
    requires Invisible(parts, one) && m.header.instrument < NUM_INSTRUMENTS
    requires !Elsewhere(parts, m.id, TargetOf(parts, m))
    ensures Shaped(ManyStep(parts, m)) && forall i :: 0 <= i < NUM_INSTRUMENTS ==> SameBook(ManyStep(parts, m), OneStep(one, m), i)
  {
    var t := TargetOf(parts, m);
    assert HeldOnce(parts, one.orders, m.id);
    AtHome(parts, one.orders, m.id, t);
    HomeStep(parts[t].orders, one.orders, m);
    assert SameBook(parts, one, m.header.instrument);
    HomeBooks(parts, one, m, m.header.instrument);
    forall i | 0 <= i < NUM_INSTRUMENTS ensures SameBook(ManyStep(parts, m), OneStep(one, m), i) {
      assert SameBook(parts, one, i);
      HomeBooks(parts, one, m, i);
    }
  }

  lemma HomeKeepsSplit(parts: seq<ShardState>, one: ShardState, m: Msg)
    requires Shaped(parts) && m.header.instrument < |one.books| == NUM_INSTRUMENTS
    requires Split(parts, one.orders) && !Elsewhere(parts, m.id, TargetOf(parts, m))
    requires m.Replace? && m.id in parts[TargetOf(parts, m)].orders ==> !Elsewhere(parts, m.newId, TargetOf(parts, m))
    ensures Split(ManyStep(parts, m), OneStep(one, m).orders)
  {
    var parts', whole' := ManyStep(parts, m), OneStep(one, m).orders;
    forall id: nat ensures HeldOnce(parts', whole', id) {
      HomeKeepsId(parts, one, m, id);
    }
  }

  lemma HomeIsInvisible(parts: seq<ShardState>, one: ShardState, m: Msg)
    requires Invisible(parts, one) && m.header.instrument < NUM_INSTRUMENTS
    requires !Elsewhere(parts, m.id, TargetOf(parts, m))
    requires m.Replace? && m.id in parts[TargetOf(parts, m)].orders ==> !Elsewhere(parts, m.newId, TargetOf(parts, m))
    ensures Invisible(ManyStep(parts, m), OneStep(one, m))
  {
    HomeKeepsBooks(parts, one, m);
    HomeKeepsSplit(parts, one, m);
  }

  /** An id held twice is not held once. */
  lemma TwiceHeld(parts: seq<ShardState>, whole: Orders, id: nat, j: nat, k: nat)
    requires j < |parts| && k < |parts| && j != k && id in parts[j].orders && id in parts[k].orders
    ensures !HeldOnce(parts, whole, id)
  {
  }

  /** A replacement by an id resting elsewhere leaves that id on two shards. */
  lemma ReplacementShows(parts: seq<ShardState>, one: ShardState, m: Msg)
    requires Invisible(parts, one) && m.header.instrument < NUM_INSTRUMENTS
    requires m.Replace? && m.id in parts[TargetOf(parts, m)].orders && Elsewhere(parts, m.newId, TargetOf(parts, m))
    ensures !Invisible(ManyStep(parts, m), OneStep(one, m))
  {
    var t := TargetOf(parts, m);
    var k :| 0 <= k < |parts| && k != t && m.newId in parts[k].orders;
    TwiceHeld(ManyStep(parts, m), OneStep(one, m).orders, m.newId, t, k);
  }

  // ----- messages whose order rests on another shard -----

  /** The shards leave such a message alone, unless it is an AddOrder. */
  lemma StrayLeavesShards(parts: seq<ShardState>, one: ShardState, m: Msg)
    requires Invisible(parts, one) && m.header.instrument < NUM_INSTRUMENTS && !m.AddOrder?
    requires Elsewhere(parts, m.id, TargetOf(parts, m))
    ensures m.id in one.orders && ManyStep(parts, m) == parts
  {
    var t := TargetOf(parts, m);
    var k :| 0 <= k < |parts| && k != t && m.id in parts[k].orders;
    assert HeldOnce(parts, one.orders, m.id);
    RouteInRange(m.header.instrument, |parts|);
    assert m.id !in parts[t].orders;
    assert Applied(parts[t], Item(m, LocalOf(m.header.instrument, |parts|))) == parts[t];
  }

  /** Nothing at all happens to a book: the reduction by zero. */
  lemma EmptyReduction(b: ShapedBook, side: Side, price: int)
    ensures Reduced(b, side, price, 0) == b <==>
            && InBand(b.base, price)
            && var i := IndexOf(b.base, price);
               b.At(side, i) >= 0 && !(i == (if side.Buy? then b.bestBid else b.bestAsk) && b.At(side, i) == 0)
  {
    if InBand(b.base, price) {
      var i := IndexOf(b.base, price);
      WalkDownStops(b.bid, b.bestBid);
      WalkUpStops(b.ask, b.bestAsk);
      if side.Buy? {
        assert b.bid[i] >= 0 ==> b.bid[i := Floor(b.bid[i] - 0)] == b.bid;
        assert b.bid[i := Floor(b.bid[i] - 0)][i] == Floor(b.bid[i]);
      } else {
        assert b.ask[i] >= 0 ==> b.ask[i := Floor(b.ask[i] - 0)] == b.ask;
        assert b.ask[i := Floor(b.ask[i] - 0)][i] == Floor(b.ask[i]);
      }
    }
  }

  /** Nothing happens to a book when a quantity is taken out and put back. */
  lemma SelfReplacement(b: ShapedBook, side: Side, price: int, qty: nat)
    ensures Added(Reduced(b, side, price, qty), side, price, qty) == b <==>
            && InBand(b.base, price)
            && var i := IndexOf(b.base, price);
               b.At(side, i) >= qty && if side.Buy? then i <= b.bestBid else i >= b.bestAsk
  {
    var r := Reduced(b, side, price, qty);
    if InBand(b.base, price) {
      var i := IndexOf(b.base, price);
      if side.Buy? {
        WalkDownStops(r.bid, b.bestBid);
        assert b.bid[i] >= qty ==> r.bid[i := r.bid[i] + qty] == b.bid;
        assert r.bid[i := r.bid[i] + qty][i] == Floor(b.bid[i] - qty) + qty;
      } else {
        WalkUpStops(r.ask, b.bestAsk);
        assert b.ask[i] >= qty ==> r.ask[i := r.ask[i] + qty] == b.ask;
        assert r.ask[i := r.ask[i] + qty][i] == Floor(b.ask[i] - qty) + qty;
      }
    }
  }

  /** The one shard takes no step on an idle message and only then. */
  lemma IdleIsNoStep(one: ShardState, m: Msg)
    requires m.header.instrument < |one.books| && m.id in one.orders && !m.AddOrder?
    ensures OneStep(one, m) == one <==> Idle(one.orders[m.id], one.books[m.header.instrument], m)
  {
    var o, i := one.orders[m.id], m.header.instrument;
    var b := one.books[i];
    var (orders, ops) := Transition(one.orders, m);
    RunOfTransition(b, one.orders, m);
    assert one.books[i := b] == one.books;
    assert OneStep(one, m) == one <==> orders == one.orders && Run(b, ops) == b;
    EmptyReduction(b, o.side, o.price);
    SelfReplacement(b, o.side, o.price, o.qty);
    IdleMap(one.orders, m);
  }

  /** On the order map alone. */
  lemma IdleMap(orders: Orders, m: Msg)
    requires m.id in orders && !m.AddOrder?
    ensures var o := orders[m.id];
            Transition(orders, m).0 == orders <==>
            match m
            case Execute(_, _, qty) => qty == 0 < o.qty
            case Cancel(_, _, qty) => qty == 0 < o.qty
            case Replace(_, id, newId, price, qty) => newId == id && price == o.price && qty == o.qty
            case _ => false
  {
    var o := orders[m.id];
    var after := Transition(orders, m).0;
    match m {
      case Execute(_, id, qty) =>
        assert orders[id := o] == orders;
      case Cancel(_, id, qty) =>
        assert orders[id := o] == orders;
      case Delete(_, id) =>
        assert id !in after;
      case Replace(_, id, newId, price, qty) =>
        if newId != id {
          assert id !in after;
        } else {
          assert after[id] == Resting(o.side, price, qty);
          assert after == orders[id := Resting(o.side, price, qty)];
          assert orders[id := o] == orders;
        }
      case _ =>
    }
  }

  /** The same shards cannot split into two different maps. */
  lemma SplitDetermines(parts: seq<ShardState>, x: Orders, y: Orders)
    requires Split(parts, x) && Split(parts, y)
    ensures x == y
  {
    forall id: nat ensures (id in x <==> id in y) && (id in x ==> x[id] == y[id]) {
      assert HeldOnce(parts, x, id) && HeldOnce(parts, y, id);
    }
  }

  lemma SameBooksDetermine(parts: seq<ShardState>, one: ShardState, two: ShardState)
    requires Invisible(parts, one) && Invisible(parts, two)
    ensures one == two
  {
    SplitDetermines(parts, one.orders, two.orders);
    forall i | 0 <= i < NUM_INSTRUMENTS ensures one.books[i] == two.books[i] {
      assert SameBook(parts, one, i) && SameBook(parts, two, i);
    }
  }

  lemma StrayShows(parts: seq<ShardState>, one: ShardState, m: Msg)
    requires Invisible(parts, one) && m.header.instrument < NUM_INSTRUMENTS
    requires Elsewhere(parts, m.id, TargetOf(parts, m))
    ensures m.id in one.orders
    ensures Invisible(ManyStep(parts, m), OneStep(one, m)) <==>
            Idle(one.orders[m.id], one.books[m.header.instrument], m)
  {
    var t := TargetOf(parts, m);
    assert HeldOnce(parts, one.orders, m.id);
    if m.AddOrder? {
      var k :| 0 <= k < |parts| && k != t && m.id in parts[k].orders;
      TwiceHeld(ManyStep(parts, m), OneStep(one, m).orders, m.id, t, k);
    } else {
      StrayLeavesShards(parts, one, m);
      IdleIsNoStep(one, m);
      if Invisible(parts, OneStep(one, m)) { SameBooksDetermine(parts, one, OneStep(one, m)); }
    }
  }

  /** While the sharding does not show, the next message keeps it so if and only if it does
      not name, from the wrong shard, an order that rests. */
  lemma StepIsInvisible(parts: seq<ShardState>, one: ShardState, m: Msg)
    requires Invisible(parts, one) && m.header.instrument < NUM_INSTRUMENTS
    ensures Invisible(ManyStep(parts, m), OneStep(one, m)) <==> !Shows(parts, one, m)
  {
    var t := TargetOf(parts, m);
    assert HeldOnce(parts, one.orders, m.id);
    if Elsewhere(parts, m.id, t) {
      StrayShows(parts, one, m);
    } else if m.Replace? && m.id in parts[t].orders && Elsewhere(parts, m.newId, t) {
      ReplacementShows(parts, one, m);
    } else {
      HomeIsInvisible(parts, one, m);
    }
  }

  // ----- whole streams -----

  /** All the shards after their parts of the stream. */
  function Shards(opening: seq<ShapedBook>, ms: seq<Msg>, n: nat): (parts: seq<ShardState>)
    requires |opening| == NUM_INSTRUMENTS && n > 0 && KnownInstruments(ms)
    ensures |parts| == n
  {
    seq(n, k requires 0 <= k < n => ShardAfter(opening, ms, k, n))
  }

  lemma ShardsShaped(opening: seq<ShapedBook>, ms: seq<Msg>, n: nat)
    requires |opening| == NUM_INSTRUMENTS && n > 0 && KnownInstruments(ms)
    ensures Shaped(Shards(opening, ms, n))
  {
    forall k | 0 <= k < n ensures |ShardAfter(opening, ms, k, n).books| == BooksIn(k, n) {
      RoutedIsLocal(opening, ms, k, n);
    }
  }

  lemma ShardsStep(opening: seq<ShapedBook>, ms: seq<Msg>, n: nat)
    requires |opening| == NUM_INSTRUMENTS && n > 0 && KnownInstruments(ms) && ms != []
    ensures var before, m := Shards(opening, ms[..|ms| - 1], n), ms[|ms| - 1];
            Shaped(before) && Shards(opening, ms, n) == ManyStep(before, m)
  {
    var before, m := Shards(opening, ms[..|ms| - 1], n), ms[|ms| - 1];
    ShardsShaped(opening, ms[..|ms| - 1], n);
    forall k | 0 <= k < n ensures Shards(opening, ms, n)[k] == ManyStep(before, m)[k] {
      ShardAfterSnoc(opening, ms, k, n);
    }
  }

  /** The one-shard fold. */
  function Whole(opening: seq<ShapedBook>, ms: seq<Msg>): ShardState
    requires |opening| == NUM_INSTRUMENTS && KnownInstruments(ms)
  {
    ShardAfter(opening, ms, 0, 1)
  }

  lemma WholeStep(opening: seq<ShapedBook>, ms: seq<Msg>)
    requires |opening| == NUM_INSTRUMENTS && KnownInstruments(ms) && ms != []
    ensures |Whole(opening, ms[..|ms| - 1]).books| == NUM_INSTRUMENTS
    ensures Whole(opening, ms) == OneStep(Whole(opening, ms[..|ms| - 1]), ms[|ms| - 1])
  {
    ShardsShaped(opening, ms[..|ms| - 1], 1);
    assert |Shards(opening, ms[..|ms| - 1], 1)[0].books| == BooksIn(0, 1);
    ShardAfterSnoc(opening, ms, 0, 1);
  }

  lemma OpeningIsInvisible(opening: seq<ShapedBook>, n: nat)
    requires |opening| == NUM_INSTRUMENTS && n > 0
    ensures Invisible(Shards(opening, [], n), Whole(opening, []))
  {
    var parts, one := Shards(opening, [], n), Whole(opening, []);
    ShardsShaped(opening, [], n);
    ShardsShaped(opening, [], 1);
    assert |Shards(opening, [], 1)[0].books| == BooksIn(0, 1);
    forall i | 0 <= i < NUM_INSTRUMENTS ensures SameBook(parts, one, i) {
      RouteInRange(i, n);
      RouteInRange(i, 1);
    }
    forall id: nat ensures HeldOnce(parts, one.orders, id) {
    }
  }

  /** No message of the stream shows the sharding at its turn. */
  predicate NothingShows(opening: seq<ShapedBook>, ms: seq<Msg>, n: nat)
    requires |opening| == NUM_INSTRUMENTS && n > 0 && KnownInstruments(ms)
  {
    if ms == [] then true else
    var rest, m := ms[..|ms| - 1], ms[|ms| - 1];
    WholeStep(opening, ms);
    NothingShows(opening, rest, n) && !Shows(Shards(opening, rest, n), Whole(opening, rest), m)
  }

  ghost predicate InvisibleAfter(opening: seq<ShapedBook>, ms: seq<Msg>, n: nat)
    requires |opening| == NUM_INSTRUMENTS && n > 0 && KnownInstruments(ms)
  {
    Invisible(Shards(opening, ms, n), Whole(opening, ms))
  }

  /** Not visible after the stream nor after any shorter one. */
  ghost predicate NeverVisible(opening: seq<ShapedBook>, ms: seq<Msg>, n: nat)
    requires |opening| == NUM_INSTRUMENTS && n > 0 && KnownInstruments(ms)
  {
    InvisibleAfter(opening, ms, n) && (ms == [] || NeverVisible(opening, ms[..|ms| - 1], n))
  }

  /** A stream never shows its sharding if and only if none of its messages does at its turn. */
  lemma {:induction false} StreamIsInvisible(opening: seq<ShapedBook>, ms: seq<Msg>, n: nat)
    requires |opening| == NUM_INSTRUMENTS && n > 0 && KnownInstruments(ms)
    ensures NeverVisible(opening, ms, n) <==> NothingShows(opening, ms, n)
    decreases |ms|
  {
    if ms == [] {
      OpeningIsInvisible(opening, n);
    } else {
      var rest := ms[..|ms| - 1];
      StreamIsInvisible(opening, rest, n);
      ShardsStep(opening, ms, n);
      WholeStep(opening, ms);
      if InvisibleAfter(opening, rest, n) {
        StepIsInvisible(Shards(opening, rest, n), Whole(opening, rest), ms[|ms| - 1]);
      }
    }
  }

  // ----- streams in which an id belongs to one instrument -----

  /** Every order of shard `k` belongs to an instrument of shard `k`. */
  ghost predicate HomeIds(part: ShardState, owner: nat -> nat, k: nat, n: nat)
    requires n > 0
  {
    forall id :: id in part.orders ==> ShardOf(owner(id), n) == k
  }

  lemma {:induction false} OwnedStaysHome(opening: seq<ShapedBook>, ms: seq<Msg>, owner: nat -> nat, k: nat, n: nat)
    requires |opening| == NUM_INSTRUMENTS && k < n && KnownInstruments(ms) && OwnedStream(owner, ms)
    ensures HomeIds(ShardAfter(opening, ms, k, n), owner, k, n)
    decreases |ms|
  {
    if ms == [] {
    } else {
      OwnedStaysHome(opening, ms[..|ms| - 1], owner, k, n);
      ShardAfterSnoc(opening, ms, k, n);
      assert Owned(owner, ms[|ms| - 1]);
    }
  }

  lemma OwnedIsNowhereElse(opening: seq<ShapedBook>, ms: seq<Msg>, owner: nat -> nat, id: nat, t: nat, n: nat)
    requires |opening| == NUM_INSTRUMENTS && n > 0 && KnownInstruments(ms) && OwnedStream(owner, ms)
    requires ShardOf(owner(id), n) == t
    ensures !Elsewhere(Shards(opening, ms, n), id, t)
  {
    forall k | 0 <= k < n && k != t ensures id !in ShardAfter(opening, ms, k, n).orders {
      OwnedStaysHome(opening, ms, owner, k, n);
    }
  }

  /** When every id belongs to one instrument, no number of shards shows. */
  lemma {:induction false} OwnedNeverShows(opening: seq<ShapedBook>, ms: seq<Msg>, owner: nat -> nat, n: nat)
    requires |opening| == NUM_INSTRUMENTS && n > 0 && KnownInstruments(ms) && OwnedStream(owner, ms)
    ensures NothingShows(opening, ms, n)
    decreases |ms|
  {
    if ms == [] {
    } else {
      var rest, m := ms[..|ms| - 1], ms[|ms| - 1];
      OwnedNeverShows(opening, rest, owner, n);
      WholeStep(opening, ms);
      assert Owned(owner, m);
      var t := ShardOf(m.header.instrument, n);
      OwnedIsNowhereElse(opening, rest, owner, m.id, t, n);
      if m.Replace? { OwnedIsNowhereElse(opening, rest, owner, m.newId, t, n); }
    }
  }

  lemma GoneAfterDelete(opening: seq<ShapedBook>, a: Msg, d: Msg, k: nat, n: nat)
    requires |opening| == NUM_INSTRUMENTS && k < n && KnownInstruments([a, d])
    requires a.AddOrder? && d.Delete? && a.id == d.id && a.header.instrument == d.header.instrument
    ensures a.id !in ShardAfter(opening, [a, d], k, n).orders
  {
    assert [a, d][..1] == [a] && [a][..0] == [];
    ShardAfterSnoc(opening, [a], k, n);
    ShardAfterSnoc(opening, [a, d], k, n);
  }

  /** A new order whose id rests on no other shard does not show. */
  lemma NewOrderNeverShows(opening: seq<ShapedBook>, rest: seq<Msg>, m: Msg, n: nat)
    requires |opening| == NUM_INSTRUMENTS && n > 0 && KnownInstruments(rest) && m.header.instrument < NUM_INSTRUMENTS
    requires NothingShows(opening, rest, n) && m.AddOrder?
    requires !Elsewhere(Shards(opening, rest, n), m.id, ShardOf(m.header.instrument, n))
    ensures KnownInstruments(rest + [m]) && NothingShows(opening, rest + [m], n)
  {
    assert (rest + [m])[..|rest|] == rest;
    WholeStep(opening, rest + [m]);
  }

  /** An id that has ceased to rest can be used again, with any instrument. */
  lemma PassedOnNeverShows(opening: seq<ShapedBook>, a: Msg, d: Msg, b: Msg, n: nat)
    requires |opening| == NUM_INSTRUMENTS && n > 0 && KnownInstruments([a, d]) && b.header.instrument < NUM_INSTRUMENTS
    requires a.AddOrder? && d.Delete? && b.AddOrder? && a.id == d.id == b.id && a.header.instrument == d.header.instrument
    ensures KnownInstruments([a, d] + [b]) && NothingShows(opening, [a, d] + [b], n)
  {
    OwnedNeverShows(opening, [a, d], (id: nat) => a.header.instrument, n);
    forall k | 0 <= k < n ensures a.id !in Shards(opening, [a, d], n)[k].orders {
      GoneAfterDelete(opening, a, d, k, n);
    }
    NewOrderNeverShows(opening, [a, d], b, n);
  }

  /** Ownership is more than is needed: here no id has an owner, and nothing ever shows. */
  lemma OwnershipIsNotNeeded(opening: seq<ShapedBook>, time: nat, n: nat)
    requires |opening| == NUM_INSTRUMENTS && n > 0
    ensures var ms := [AddOrder(Header(0, time), 7, Buy, 100, 5), Delete(Header(0, time), 7),
                       AddOrder(Header(1, time), 7, Buy, 100, 5)];
            && KnownInstruments(ms) && NothingShows(opening, ms, n)
            && forall owner: nat -> nat :: !OwnedStream(owner, ms)
  {
    var a, d, b := AddOrder(Header(0, time), 7, Buy, 100, 5), Delete(Header(0, time), 7), AddOrder(Header(1, time), 7, Buy, 100, 5);
    var ms := [a, d, b];
    PassedOnNeverShows(opening, a, d, b, n);
    assert ms == [a, d] + [b];
    assert ms[0] == a && ms[2] == b;
    assert forall owner: nat -> nat :: !Owned(owner, ms[0]) || !Owned(owner, ms[2]);
  }

  // ----- under every schedule -----

  function States(s: Sys): (parts: seq<ShardState>)
    ensures |parts| == |s.lanes|
  {
    seq(|s.lanes|, k requires 0 <= k < |s.lanes| => s.lanes[k].state)
  }

  /** When shutdown returns, after any schedule, the shards cannot be told from the one-shard
      fold of the accepted messages, if none of those shows the sharding at its turn; and
      they never could, from any prefix, if and only if none does. */
  lemma EveryScheduleIsInvisible(c: Config, acts: seq<Action>)
    requires Proper(c) && Runs(c, Start(c), acts) && Finished(c, End(c, Start(c), acts))
    ensures var s := End(c, Start(c), acts);
            && KnownInstruments(s.accepted)
            && States(s) == Shards(c.opening, s.accepted, c.shards)
            && (NeverVisible(c.opening, s.accepted, c.shards) <==> NothingShows(c.opening, s.accepted, c.shards))
            && (NothingShows(c.opening, s.accepted, c.shards) ==> Invisible(States(s), Whole(c.opening, s.accepted)))
            && (c.retry ==> s.accepted == c.stream)
  {
    RunIsInv(c, acts);
    var s := End(c, Start(c), acts);
    forall k | 0 <= k < c.shards ensures s.lanes[k].state == ShardAfter(c.opening, s.accepted, k, c.shards) {
      FinishedShards(c, s, k);
    }
    StreamIsInvisible(c.opening, s.accepted, c.shards);
    assert c.stream[..|c.stream|] == c.stream;
  }
}
