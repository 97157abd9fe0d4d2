/**
 The two book representations a backtest drives side by side: the flat level arrays
 with their order map, and the queue lists with their index.  The same stream keeps
 them coupled, drops, repeated ids and all.
 */
module BookCoupling {
  import opened Protocol
  import opened OrderBooks
  import opened Sums
  import OM = OrderMaps
  import QB = QueueBooks

  /** The level keys that share one index of the array. */
  function SharesIndex(side: Side, base: int, i: nat): QB.LevelKey -> bool {
    (key: QB.LevelKey) => key.side == side && IndexOf(base, key.price) == i
  }

  /** Both books know the id or neither does, and they say the same of it. */
  predicate SameOrder(v: OM.Venue, q: QB.QBook, id: nat) {
    && (id in v.orders <==> id in q.orders)
    && (id in q.orders ==>
          v.orders[id] == OM.Resting(q.orders[id].level.side, q.orders[id].level.price, QB.EntryOf(q, id).qty))
  }

  /** A level of the array holds the quantity of every list whose price maps to it. */
  ghost predicate SameDepth(v: OM.Venue, q: QB.QBook, side: Side, i: nat)
    requires i < LEVELS
  {
    v.book.At(side, i) == Total(q.levels, QB.Picked(SharesIndex(side, v.book.base, i)))
  }

  ghost predicate SameOrders(v: OM.Venue, q: QB.QBook) {
    forall id: nat :: SameOrder(v, q, id)
  }

  ghost predicate SameDepths(v: OM.Venue, q: QB.QBook) {
    forall side, i: nat :: i < LEVELS ==> SameDepth(v, q, side, i)
  }

  ghost predicate CoupledBooks(v: OM.Venue, q: QB.QBook) {
    QB.WellFormed(q) && SameOrders(v, q) && SameDepths(v, q)
  }

  // ----- the order maps -----

  lemma EntryInserted(q: QB.QBook, key: QB.LevelKey, id: nat, qty: nat, j: nat)
    requires QB.WellFormed(q) && (j in q.orders || j == id)
    ensures QB.EntryOf(QB.Inserted(q, key, id, qty), j)
            == if j == id then QB.QEntry(id, qty, q.nextSeq) else QB.EntryOf(q, j)
  {
    var list := QB.ListAt(q, key);
    var e := QB.QEntry(id, qty, q.nextSeq);
    if j == id {
      QB.FindAppend(list, e, q.nextSeq);
      assert forall k :: 0 <= k < |list| ==> list[k].arrival < q.nextSeq;
    } else {
      assert QB.Resolves(q, j, q.orders[j]);
      QB.FindAppend(list, e, q.orders[j].arrival);
    }
  }

  lemma EntryReduced(q: QB.QBook, id: nat, left: nat, j: nat)
    requires QB.WellFormed(q) && id in q.orders && j in q.orders && (j != id || left > 0)
    ensures QB.EntryOf(QB.ReducedTo(q, id, left), j)
            == if j == id then QB.EntryOf(q, id).(qty := left) else QB.EntryOf(q, j)
  {
    var loc, at := q.orders[id], q.orders[j];
    assert QB.Resolves(q, id, loc) && QB.Resolves(q, j, at);
    if at.level == loc.level {
      var list := q.levels[loc.level];
      QB.ShrunkKeeps(list, QB.Find(list, loc.arrival), left, QB.Find(list, at.arrival));
    }
  }

  lemma InsertSameOrders(v: OM.Venue, q: QB.QBook, key: QB.LevelKey, id: nat, qty: nat, book: ShapedBook)
    requires QB.WellFormed(q) && SameOrders(v, q)
    ensures SameOrders(OM.Venue(v.orders[id := OM.Resting(key.side, key.price, qty)], book), QB.Inserted(q, key, id, qty))
  {
    var v', q' := OM.Venue(v.orders[id := OM.Resting(key.side, key.price, qty)], book), QB.Inserted(q, key, id, qty);
    forall j: nat ensures SameOrder(v', q', j) {
      assert SameOrder(v, q, j);
      if j in q'.orders { EntryInserted(q, key, id, qty, j); }
    }
  }

  lemma ReduceSameOrders(v: OM.Venue, q: QB.QBook, id: nat, left: nat, book: ShapedBook)
    requires QB.WellFormed(q) && SameOrders(v, q) && id in q.orders
    ensures id in v.orders
    ensures SameOrders(OM.Venue(if left == 0 then v.orders - {id} else v.orders[id := v.orders[id].(qty := left)], book),
                       QB.ReducedTo(q, id, left))
  {
    assert SameOrder(v, q, id);
    var v' := OM.Venue(if left == 0 then v.orders - {id} else v.orders[id := v.orders[id].(qty := left)], book);
    var q' := QB.ReducedTo(q, id, left);
    forall j: nat ensures SameOrder(v', q', j) {
      assert SameOrder(v, q, j);
      if j in q'.orders { EntryReduced(q, id, left, j); }
    }
  }

  lemma StepSameOrders(v: OM.Venue, q: QB.QBook, m: Msg)
    requires QB.WellFormed(q) && SameOrders(v, q)
    ensures SameOrders(OM.Step(v, m), QB.Applied(q, m))
  {
    assert SameOrder(v, q, m.id);
    var book := OM.Step(v, m).book;
    match m {
      case AddOrder(h, id, side, price, qty) =>
        InsertSameOrders(v, q, QB.LevelKey(h.instrument, side, price), id, qty, book);
      case Execute(_, id, qty) => if id in q.orders { ReduceSameOrders(v, q, id, QB.LeftOf(q, id, qty), book); }
      case Cancel(_, id, qty) => if id in q.orders { ReduceSameOrders(v, q, id, QB.LeftOf(q, id, qty), book); }
      case Delete(_, id) => if id in q.orders { ReduceSameOrders(v, q, id, 0, book); }
      case Replace(h, id, newId, price, qty) =>
        if id in q.orders {
          ReduceSameOrders(v, q, id, 0, book);
          QB.ReducedIsWellFormed(q, id, 0);
          InsertSameOrders(OM.Venue(v.orders - {id}, book), QB.ReducedTo(q, id, 0),
                           QB.LevelKey(h.instrument, q.orders[id].level.side, price), newId, qty, book);
        }
    }
  }

  // ----- the depths -----

  /** How a message's updates move one level, given that the reduction never clamps. */
  lemma StepDepth(v: OM.Venue, q: QB.QBook, m: Msg, side: Side, i: nat)
    requires QB.WellFormed(q) && SameOrder(v, q, m.id) && i < LEVELS && SameDepth(v, q, side, i)
    ensures SameDepth(OM.Step(v, m), QB.Applied(q, m), side, i)
    ensures OM.Step(v, m).book.base == v.book.base
  {
    var sel := SharesIndex(side, v.book.base, i);
    QB.AppliedTotal(q, m, sel);
    var ops := OM.Transition(v.orders, m).1;
    OM.RunOfTransition(v.book, v.orders, m);
    if |ops| >= 1 {
      DoAt(v.book, ops[0], side, i);
      if |ops| == 2 {
        DoAt(Do(v.book, ops[0]), ops[1], side, i);
      }
    }
  }

  /** For every message, fresh id or not, in band or not, the two representations stay coupled. */
  lemma StepKeepsCoupled(v: OM.Venue, q: QB.QBook, m: Msg)
    requires CoupledBooks(v, q)
    ensures CoupledBooks(OM.Step(v, m), QB.Applied(q, m))
  {
    QB.AppliedIsWellFormed(q, m);
    StepSameOrders(v, q, m);
    assert SameOrder(v, q, m.id);
    forall side, i: nat | i < LEVELS ensures SameDepth(OM.Step(v, m), QB.Applied(q, m), side, i) {
      assert SameDepth(v, q, side, i);
      StepDepth(v, q, m, side, i);
    }
  }

  /** After every stream the order maps agree and every in-band level of the array is
      the sum of the queue lists that map to it. */
  lemma {:induction false} ReplayKeepsCoupled(reference: int, ms: seq<Msg>)
    ensures CoupledBooks(OM.Replay(OM.Opening(reference), ms), QB.Replay(QB.QBook(map[], map[], 0), ms))
  {
    if ms == [] {
    } else {
      ReplayKeepsCoupled(reference, ms[..|ms| - 1]);
      StepKeepsCoupled(OM.Replay(OM.Opening(reference), ms[..|ms| - 1]),
                       QB.Replay(QB.QBook(map[], map[], 0), ms[..|ms| - 1]), ms[|ms| - 1]);
    }
  }

  // ----- what a placement sees -----

  function Only(key: QB.LevelKey): QB.LevelKey -> bool {
    (k: QB.LevelKey) => k == key
  }

  lemma LevelQtyIsTotal(q: QB.QBook, key: QB.LevelKey)
    ensures Total(q.levels, QB.Picked(Only(key))) == QB.LevelQty(q, key)
  {
    var w := QB.Picked(Only(key));
    var rest := q.levels - {key};
    NothingPicked(rest, key);
    if key in q.levels {
      TotalRemove(q.levels, w, key);
    } else {
      assert rest == q.levels;
    }
  }

  lemma {:induction false} NothingPicked(levels: map<QB.LevelKey, seq<QB.QEntry>>, key: QB.LevelKey)
    requires key !in levels
    ensures Total(levels, QB.Picked(Only(key))) == 0
    decreases |levels|
  {
    if levels == map[] {
    } else {
      var k0 :| k0 in levels;
      TotalRemove(levels, QB.Picked(Only(key)), k0);
      NothingPicked(levels - {k0}, key);
    }
  }

  /** The quantity ahead that a placement at the best bid reads from the queue book is
      the depth the array shows there, and is positive, exactly when no resting
      quantity shares that level from another key. */
  lemma AheadIsTouchDepth(v: OM.Venue, q: QB.QBook)
    requires CoupledBooks(v, q) && Exact(v.book) && v.book.HasBid()
    ensures var key := QB.LevelKey(0, Buy, v.book.BidTicks());
            var depth := v.book.At(Buy, v.book.bestBid);
            && depth > 0
            && QB.LevelQty(q, key) <= depth
            && (QB.LevelQty(q, key) == depth <==>
                forall k :: k in q.levels && k != key && SharesIndex(Buy, v.book.base, v.book.bestBid)(k)
                  ==> QB.ListQty(q.levels[k]) == 0)
  {
    var key := QB.LevelKey(0, Buy, v.book.BidTicks());
    var sel := SharesIndex(Buy, v.book.base, v.book.bestBid);
    assert SameDepth(v, q, Buy, v.book.bestBid);
    LevelQtyIsTotal(q, key);
    TotalDominates(q.levels, QB.Picked(sel), QB.Picked(Only(key)));
    assert sel(key);
    forall k | k in q.levels
      ensures QB.Picked(Only(key))(k, q.levels[k]) == QB.Picked(sel)(k, q.levels[k]) <==>
              (k != key && sel(k) ==> QB.ListQty(q.levels[k]) == 0)
    {
    }
  }
}
