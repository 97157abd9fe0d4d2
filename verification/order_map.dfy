/**
 The order-id map and its five-way message transition.  The normalizer, the venue
 feed and the backtest each carry a copy of this code; the transition is specified
 once here, as a new map together with the book updates it asks for.
 */
module OrderMaps {
  import opened Protocol
  import opened OrderBooks
  import opened Sums

  datatype Resting = Resting(side: Side, price: int, qty: nat)

  type Orders = map<nat, Resting>

  /** Execute and Cancel: take at most what rests, and forget an exhausted order. */
  function Take(orders: Orders, id: nat, qty: nat): (Orders, seq<BookOp>) {
    if id !in orders then (orders, []) else
    var o := orders[id];
    var taken := Min(qty, o.qty);
    (if taken == o.qty then orders - {id} else orders[id := o.(qty := o.qty - taken)],
     [Shrink(o.side, o.price, taken)])
  }

  function Transition(orders: Orders, m: Msg): (Orders, seq<BookOp>) {
    match m
    case AddOrder(_, id, side, price, qty) =>
      (orders[id := Resting(side, price, qty)], [Grow(side, price, qty)])
    case Execute(_, id, qty) => Take(orders, id, qty)
    case Cancel(_, id, qty) => Take(orders, id, qty)
    case Delete(_, id) =>
      if id !in orders then (orders, []) else
      (orders - {id}, [Shrink(orders[id].side, orders[id].price, orders[id].qty)])
    case Replace(_, id, newId, price, qty) =>
      if id !in orders then (orders, []) else
      var o := orders[id];
      ((orders - {id})[newId := Resting(o.side, price, qty)],
       [Shrink(o.side, o.price, o.qty), Grow(o.side, price, qty)])
  }

  /** One instrument's book with the orders that feed it. */
  datatype Venue = Venue(orders: Orders, book: ShapedBook)

  function Step(v: Venue, m: Msg): Venue {
    var (orders, ops) := Transition(v.orders, m);
    Venue(orders, Run(v.book, ops))
  }

  /** The transition as the program runs it: the map and the book change in place. */
  method ApplyToBook(m: Msg, book: OrderBook, orders: Orders) returns (after: Orders)
    requires book.Valid()
    modifies book.Repr()
    ensures book.Valid()
    ensures Venue(after, book.Value()) == Step(Venue(orders, old(book.Value())), m)
  {
    RunOfTransition(book.Value(), orders, m);
    after := orders;
    match m {
      case AddOrder(_, id, side, price, qty) =>
        after := after[id := Resting(side, price, qty)];
        var _ := book.Add(side, price, qty);
      case Execute(_, id, qty) =>
        if id !in after { return; }
        var o := after[id];
        var taken := Min(qty, o.qty);
        var _ := book.Reduce(o.side, o.price, taken);
        after := after[id := o.(qty := o.qty - taken)];
        if after[id].qty == 0 { after := after - {id}; assert after == orders - {id}; }
      case Cancel(_, id, qty) =>
        if id !in after { return; }
        var o := after[id];
        var taken := Min(qty, o.qty);
        var _ := book.Reduce(o.side, o.price, taken);
        after := after[id := o.(qty := o.qty - taken)];
        if after[id].qty == 0 { after := after - {id}; assert after == orders - {id}; }
      case Delete(_, id) =>
        if id !in after { return; }
        var o := after[id];
        var _ := book.Reduce(o.side, o.price, o.qty);
        after := after - {id};
      case Replace(_, id, newId, price, qty) =>
        if id !in after { return; }
        var o := after[id];
        var _ := book.Reduce(o.side, o.price, o.qty);
        after := after - {id};
        after := after[newId := Resting(o.side, price, qty)];
        var _ := book.Add(o.side, price, qty);
    }
  }

  function Replay(v: Venue, ms: seq<Msg>): Venue {
    if ms == [] then v else Step(Replay(v, ms[..|ms| - 1]), ms[|ms| - 1])
  }

  function Opening(reference: int): Venue {
    Venue(map[], Centred(BLANK, reference))
  }

  // ----- the book against the orders -----

  /** The weight that counts the orders resting at one level. */
  function AtLevel(side: Side, base: int, i: nat): (nat, Resting) -> nat {
    (id, o: Resting) => if o.side == side && IndexOf(base, o.price) == i then o.qty else 0
  }

  /** The weight that counts the orders resting at one exact price. */
  function AtPrice(side: Side, price: int): (nat, Resting) -> nat {
    (id, o: Resting) => if o.side == side && o.price == price then o.qty else 0
  }

  ghost predicate CoupledAt(v: Venue, side: Side, i: nat)
    requires i < LEVELS
  {
    v.book.At(side, i) == Total(v.orders, AtLevel(side, v.book.base, i))
  }

  /** Every level holds exactly the quantity of the live orders recorded there. */
  ghost predicate Coupled(v: Venue) {
    forall side, i: nat :: i < LEVELS ==> CoupledAt(v, side, i)
  }

  /** The id a message inserts, when it inserts one, and the map it inserts into. */
  function Inserted(orders: Orders, m: Msg): set<nat> {
    match m
    case AddOrder(_, id, _, _, _) => {id}
    case Replace(_, id, newId, _, _) => if id in orders then {newId} else {}
    case _ => {}
  }

  function Remaining(orders: Orders, m: Msg): Orders {
    if m.Replace? then orders - {m.id} else orders
  }

  /** The message re-uses the id of an order that still rests, with quantity, inside the band. */
  predicate Clobbers(v: Venue, m: Msg) {
    exists id :: id in Inserted(v.orders, m) && id in Remaining(v.orders, m) && v.orders[id].qty > 0
                 && InBand(v.book.base, v.orders[id].price)
  }

  lemma RunTwo(b: ShapedBook, x: BookOp, y: BookOp)
    ensures Run(b, []) == b
    ensures Run(b, [x]) == Do(b, x)
    ensures Run(b, [x, y]) == Do(Do(b, x), y)
  {
    assert [x][..0] == [] && [x, y][..1] == [x];
  }

  /** A message asks for at most two updates. */
  lemma RunOfTransition(b: ShapedBook, orders: Orders, m: Msg)
    ensures var ops := Transition(orders, m).1;
            && |ops| <= 2
            && (|ops| == 0 ==> Run(b, ops) == b)
            && (|ops| == 1 ==> Run(b, ops) == Do(b, ops[0]))
            && (|ops| == 2 ==> Run(b, ops) == Do(Do(b, ops[0]), ops[1]))
  {
    var ops := Transition(orders, m).1;
    if |ops| == 1 {
      assert ops == [ops[0]];
      RunTwo(b, ops[0], ops[0]);
    } else if |ops| == 2 {
      assert ops == [ops[0], ops[1]];
      RunTwo(b, ops[0], ops[1]);
    }
  }

  /** How taking an order out of the map, or shrinking it, moves one level. */
  lemma TakeAt(v: Venue, id: nat, left: nat, side: Side, i: nat)
    requires i < LEVELS && CoupledAt(v, side, i)
    requires id in v.orders && left <= v.orders[id].qty
    ensures var o := v.orders[id];
            var b := Do(v.book, Shrink(o.side, o.price, o.qty - left));
            && b.base == v.book.base
            && CoupledAt(Venue(v.orders[id := o.(qty := left)], b), side, i)
            && (left == 0 ==> CoupledAt(Venue(v.orders - {id}, b), side, i))
  {
    var o := v.orders[id];
    var w := AtLevel(side, v.book.base, i);
    TotalRemove(v.orders, w, id);
    TotalUpdate(v.orders, w, id, o.(qty := left));
    DoAt(v.book, Shrink(o.side, o.price, o.qty - left), side, i);
  }

  /** How recording an order moves one level: whatever the map held under that id is lost to it. */
  lemma RecordAt(v: Venue, id: nat, o: Resting, side: Side, i: nat)
    requires i < LEVELS && CoupledAt(v, side, i)
    ensures var v' := Venue(v.orders[id := o], Do(v.book, Grow(o.side, o.price, o.qty)));
            && v'.book.base == v.book.base
            && (CoupledAt(v', side, i) <==>
                !(id in v.orders && AtLevel(side, v.book.base, i)(id, v.orders[id]) > 0))
  {
    TotalUpdate(v.orders, AtLevel(side, v.book.base, i), id, o);
    DoAt(v.book, Grow(o.side, o.price, o.qty), side, i);
  }

  lemma Record(v: Venue, id: nat, o: Resting)
    requires Coupled(v)
    ensures Coupled(Venue(v.orders[id := o], Do(v.book, Grow(o.side, o.price, o.qty)))) <==>
            !(id in v.orders && v.orders[id].qty > 0 && InBand(v.book.base, v.orders[id].price))
  {
    var v' := Venue(v.orders[id := o], Do(v.book, Grow(o.side, o.price, o.qty)));
    forall side, i: nat | i < LEVELS
      ensures CoupledAt(v', side, i) <==> !(id in v.orders && AtLevel(side, v.book.base, i)(id, v.orders[id]) > 0)
    {
      RecordAt(v, id, o, side, i);
    }
    if id in v.orders && v.orders[id].qty > 0 && InBand(v.book.base, v.orders[id].price) {
      assert !CoupledAt(v', v.orders[id].side, IndexOf(v.book.base, v.orders[id].price));
    }
  }

  lemma TakeOut(v: Venue, id: nat, left: nat)
    requires Coupled(v)
    requires id in v.orders && left <= v.orders[id].qty
    ensures var o := v.orders[id];
            var b := Do(v.book, Shrink(o.side, o.price, o.qty - left));
            && b.base == v.book.base
            && Coupled(Venue(v.orders[id := o.(qty := left)], b))
            && (left == 0 ==> Coupled(Venue(v.orders - {id}, b)))
  {
    var o := v.orders[id];
    var b := Do(v.book, Shrink(o.side, o.price, o.qty - left));
    var kept, gone := Venue(v.orders[id := o.(qty := left)], b), Venue(v.orders - {id}, b);
    DoAt(v.book, Shrink(o.side, o.price, o.qty - left), Buy, 0);
    forall side, i: nat | i < LEVELS ensures CoupledAt(kept, side, i) {
      assert CoupledAt(v, side, i);
      TakeAt(v, id, left, side, i);
    }
    forall side, i: nat | i < LEVELS && left == 0 ensures CoupledAt(gone, side, i) {
      assert CoupledAt(v, side, i);
      TakeAt(v, id, left, side, i);
    }
  }

  /** Every message keeps the book equal to the sum of its live orders, at every
      level, except precisely one that re-uses the id of an order still resting in the book. */
  lemma StepKeepsCoupled(v: Venue, m: Msg)
    requires Coupled(v)
    ensures Coupled(Step(v, m)) <==> !Clobbers(v, m)
  {
    match m {
      case AddOrder(_, id, side, price, qty) =>
        RunTwo(v.book, Grow(side, price, qty), Grow(side, price, qty));
        Record(v, id, Resting(side, price, qty));
      case Execute(_, id, qty) => StepTake(v, m);
      case Cancel(_, id, qty) => StepTake(v, m);
      case Delete(_, id) =>
        if id in v.orders {
          RunTwo(v.book, Shrink(v.orders[id].side, v.orders[id].price, v.orders[id].qty), Grow(Buy, 0, 0));
          TakeOut(v, id, 0);
        }
      case Replace(_, id, newId, price, qty) =>
        if id in v.orders {
          var o := v.orders[id];
          RunTwo(v.book, Shrink(o.side, o.price, o.qty), Grow(o.side, price, qty));
          TakeOut(v, id, 0);
          Record(Venue(v.orders - {id}, Do(v.book, Shrink(o.side, o.price, o.qty))), newId, Resting(o.side, price, qty));
        }
    }
  }

  lemma StepTake(v: Venue, m: Msg)
    requires Coupled(v)
    requires m.Execute? || m.Cancel?
    ensures Coupled(Step(v, m))
  {
    if m.id in v.orders {
      var o := v.orders[m.id];
      var taken := Min(m.qty, o.qty);
      RunTwo(v.book, Shrink(o.side, o.price, taken), Grow(Buy, 0, 0));
      TakeOut(v, m.id, o.qty - taken);
    }
  }

  /** While the book is coupled, the clamp at zero in a reduce never acts. */
  lemma ClampNeverFires(v: Venue, id: nat)
    requires Coupled(v) && id in v.orders && InBand(v.book.base, v.orders[id].price)
    ensures v.orders[id].qty <= v.book.At(v.orders[id].side, IndexOf(v.book.base, v.orders[id].price))
  {
    var o := v.orders[id];
    var i := IndexOf(v.book.base, o.price);
    assert CoupledAt(v, o.side, i);
    TotalRemove(v.orders, AtLevel(o.side, v.book.base, i), id);
  }

  /** A level equals the live quantity at one exact price just when no live order
      shares the level from another price. */
  lemma LevelIsPriceTotal(v: Venue, side: Side, price: int)
    requires Coupled(v) && InBand(v.book.base, price)
    ensures v.book.At(side, IndexOf(v.book.base, price)) == Total(v.orders, AtPrice(side, price)) <==>
            forall id :: id in v.orders && v.orders[id].side == side && v.orders[id].qty > 0
              && IndexOf(v.book.base, v.orders[id].price) == IndexOf(v.book.base, price)
              ==> v.orders[id].price == price
  {
    var i := IndexOf(v.book.base, price);
    assert CoupledAt(v, side, i);
    TotalDominates(v.orders, AtLevel(side, v.book.base, i), AtPrice(side, price));
  }

  /** Two prices 2^32 apart do share a level, so the condition above is not vacuous. */
  lemma PricesCanAlias(v: Venue, price: int)
    ensures IndexOf(v.book.base, price) == IndexOf(v.book.base, price + TWO_32)
  {
  }

  // ----- every invariant at once, over whole streams -----

  /** What a self-consistent feed promises of the next message: inserted ids do not
      rest already, and inserted quantities are positive. */
  predicate Clean(orders: Orders, m: Msg) {
    match m
    case AddOrder(_, id, _, _, qty) => id !in orders && qty > 0
    case Replace(_, id, newId, _, qty) => newId !in orders - {id} && qty > 0
    case _ => true
  }

  predicate CleanStream(v: Venue, ms: seq<Msg>) {
    ms == [] ||
    (CleanStream(v, ms[..|ms| - 1]) && Clean(Replay(v, ms[..|ms| - 1]).orders, ms[|ms| - 1]))
  }

  ghost predicate Sound(v: Venue) {
    Coupled(v) && Exact(v.book)
  }

  lemma OpeningIsSound(reference: int)
    ensures Sound(Opening(reference))
  {
    CentredIsExact(BLANK, reference);
  }

  lemma StepKeepsSound(v: Venue, m: Msg)
    requires Sound(v) && Clean(v.orders, m)
    ensures Sound(Step(v, m)) && Step(v, m).book.base == v.book.base
  {
    StepKeepsCoupled(v, m);
    RunKeepsExact(v.book, Transition(v.orders, m).1);
  }

  /** After every clean stream the running touches and every level are exact. */
  lemma {:induction false} ReplayIsSound(v: Venue, ms: seq<Msg>)
    requires Sound(v) && CleanStream(v, ms)
    ensures Sound(Replay(v, ms)) && Replay(v, ms).book.base == v.book.base
  {
    if ms == [] {
    } else {
      ReplayIsSound(v, ms[..|ms| - 1]);
      StepKeepsSound(Replay(v, ms[..|ms| - 1]), ms[|ms| - 1]);
    }
  }
}
