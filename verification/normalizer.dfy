/**
 The sharded normalizer without its threads: how instruments are routed to shards,
 what a worker does with one message, and why the number of shards cannot be seen
 in any instrument's book or live orders.
 */
module Normalizers {
  import opened Protocol
  import opened OrderBooks
  import opened OrderMaps
  import opened Masks

  /** A queued message with the index of its book inside the shard. */
  datatype Item = Item(msg: Msg, local: nat)

  /** What one worker owns. */
  datatype ShardState = ShardState(orders: Orders, books: seq<ShapedBook>)

  /** The worker's transition.  It updates the book the message names, whichever
      book the order was recorded in. */
  function Applied(s: ShardState, item: Item): ShardState
    requires item.local < |s.books|
  {
    var (orders, ops) := Transition(s.orders, item.msg);
    ShardState(orders, s.books[item.local := Run(s.books[item.local], ops)])
  }

  predicate Local(s: ShardState, items: seq<Item>) {
    forall i :: 0 <= i < |items| ==> items[i].local < |s.books|
  }

  function Fold(s: ShardState, items: seq<Item>): (r: ShardState)
    requires Local(s, items)
    ensures |r.books| == |s.books|
  {
    if items == [] then s else Applied(Fold(s, items[..|items| - 1]), items[|items| - 1])
  }

  // ----- routing -----

  function ShardOf(instrument: nat, shards: nat): nat
    requires shards > 0
  {
    instrument % shards
  }

  function LocalOf(instrument: nat, shards: nat): nat
    requires shards > 0
  {
    instrument / shards
  }

  /** How many books shard `k` holds. */
  function BooksIn(k: nat, shards: nat): nat
    requires shards > 0
  {
    if k >= NUM_INSTRUMENTS then 0 else (NUM_INSTRUMENTS - 1 - k) / shards + 1
  }

  lemma RouteInRange(i: nat, n: nat)
    requires i < NUM_INSTRUMENTS && n > 0
    ensures ShardOf(i, n) < n && LocalOf(i, n) < BooksIn(ShardOf(i, n), n)
    ensures LocalOf(i, n) * n + ShardOf(i, n) == i
  {
    var k, l := i % n, i / n;
    assert i == n * l + k;
    QuotientMonotone(n * l, NUM_INSTRUMENTS - 1 - k, n);
    DivModUnique(n * l, n, l, 0);
  }

  lemma SlotInRange(k: nat, l: nat, n: nat)
    requires n > 0 && k < n && l < BooksIn(k, n)
    ensures l * n + k < NUM_INSTRUMENTS
    ensures ShardOf(l * n + k, n) == k && LocalOf(l * n + k, n) == l
  {
    var top := NUM_INSTRUMENTS - 1 - k;
    var q := top / n;
    assert top == n * q + top % n;
    MultipleMonotone(n, l, q);
    assert l * n == n * l;
    DivModUnique(l * n + k, n, l, k);
  }

  /** How many of the first `i` instruments shard `k` has received. */
  function Received(i: nat, k: nat, n: nat): nat
    requires n > 0
  {
    if i == 0 then 0 else Received(i - 1, k, n) + if ShardOf(i - 1, n) == k then 1 else 0
  }

  lemma {:induction false} ReceivedSpan(i: nat, k: nat, n: nat)
    requires n > 0 && k < n
    ensures i <= Received(i, k, n) * n + k < i + n
  {
    if i == 0 {
    } else {
      ReceivedSpan(i - 1, k, n);
      SpanGrows(i - 1, k, n, Received(i - 1, k, n));
    }
  }

  lemma SpanGrows(i: nat, k: nat, n: nat, r: nat)
    requires n > 0 && k < n && i <= r * n + k < i + n
    ensures var r' := r + if ShardOf(i, n) == k then 1 else 0;
            i < r' * n + k <= i + n
  {
    assert (r + 1) * n == r * n + n;
    if ShardOf(i, n) == k {
      NextFree(i, n, r);
    } else if r * n + k == i {
      assert n * r == r * n;
      DivModUnique(i, n, r, k);
    }
  }

  lemma NextFree(i: nat, n: nat, count: nat)
    requires n > 0 && i <= count * n + ShardOf(i, n) < i + n
    ensures count == LocalOf(i, n) && count * n + ShardOf(i, n) == i
  {
    var k := i % n;
    DivModUnique(count * n + k, n, count, k);
    ModClose(count * n + k, i, n);
  }

  lemma ReceivedIsBooksIn(k: nat, n: nat)
    requires n > 0 && k < n
    ensures Received(NUM_INSTRUMENTS, k, n) == BooksIn(k, n)
  {
    ReceivedSpan(NUM_INSTRUMENTS, k, n);
    var count := Received(NUM_INSTRUMENTS, k, n);
    if k < NUM_INSTRUMENTS {
      var top := NUM_INSTRUMENTS - 1 - k;
      assert count * n - n == (count - 1) * n;
      DivModUnique(top, n, count - 1, top - (count - 1) * n);
    } else {
      assert count * n < n;
      MultipleAtLeast(n, count);
    }
  }

  lemma RoutesDiffer(i: nat, j: nat, n: nat)
    requires n > 0 && i < j
    ensures (ShardOf(i, n), LocalOf(i, n)) != (ShardOf(j, n), LocalOf(j, n))
  {
    assert i == n * (i / n) + i % n && j == n * (j / n) + j % n;
  }

  /** The routing tables the constructor fills: every instrument gets the next free
      book of its shard, and no two instruments get the same one. */
  method BuildRouting(shards: nat) returns (toShard: array<nat>, toLocal: array<nat>, counts: array<nat>)
    requires shards > 0
    ensures toShard.Length == toLocal.Length == NUM_INSTRUMENTS == 512 && counts.Length == shards
    ensures forall i :: 0 <= i < 512 ==> toShard[i] == i % shards && toLocal[i] == i / shards
    ensures forall k :: 0 <= k < shards ==> counts[k] == BooksIn(k, shards)
    ensures forall i, j :: 0 <= i < j < NUM_INSTRUMENTS ==> (toShard[i], toLocal[i]) != (toShard[j], toLocal[j])
  {
    toShard := new nat[NUM_INSTRUMENTS];
    toLocal := new nat[NUM_INSTRUMENTS];
    counts := new nat[shards](_ => 0);
    for i := 0 to NUM_INSTRUMENTS
      invariant forall j :: 0 <= j < i ==> toShard[j] == ShardOf(j, shards) && toLocal[j] == LocalOf(j, shards)
      invariant forall k :: 0 <= k < shards ==> counts[k] == Received(i, k, shards)
    {
      var shard := ShardOf(i, shards);
      ReceivedSpan(i, shard, shards);
      NextFree(i, shards, counts[shard]);
      toShard[i] := shard;
      toLocal[i] := counts[shard];
      counts[shard] := counts[shard] + 1;
    }
    forall k | 0 <= k < shards ensures counts[k] == BooksIn(k, shards) {
      ReceivedIsBooksIn(k, shards);
    }
    forall i, j | 0 <= i < j < NUM_INSTRUMENTS ensures (toShard[i], toLocal[i]) != (toShard[j], toLocal[j]) {
      RoutesDiffer(i, j, shards);
    }
  }

  /** The messages of shard `k`, with their local book index, in stream order. */
  function Routed(ms: seq<Msg>, k: nat, shards: nat): seq<Item>
    requires shards > 0
  {
    if ms == [] then [] else
    var m := ms[|ms| - 1];
    Routed(ms[..|ms| - 1], k, shards)
    + if ShardOf(m.header.instrument, shards) == k then [Item(m, LocalOf(m.header.instrument, shards))] else []
  }

  /** The messages of one instrument, in stream order. */
  function Of(ms: seq<Msg>, instrument: nat): seq<Msg> {
    if ms == [] then [] else
    var m := ms[|ms| - 1];
    Of(ms[..|ms| - 1], instrument) + if m.header.instrument == instrument then [m] else []
  }

  /** The books a shard starts with, given the opening book of every instrument. */
  function InitialShard(opening: seq<ShapedBook>, k: nat, shards: nat): ShardState
    requires |opening| == NUM_INSTRUMENTS && k < shards
  {
    ShardState(map[], seq(BooksIn(k, shards), l requires 0 <= l < BooksIn(k, shards) =>
      SlotInRange(k, l, shards); opening[l * shards + k]))
  }

  predicate KnownInstruments(ms: seq<Msg>) {
    forall i :: 0 <= i < |ms| ==> ms[i].header.instrument < NUM_INSTRUMENTS
  }

  lemma {:induction false} RoutedIsLocal(opening: seq<ShapedBook>, ms: seq<Msg>, k: nat, n: nat)
    requires |opening| == NUM_INSTRUMENTS && k < n && KnownInstruments(ms)
    ensures Local(InitialShard(opening, k, n), Routed(ms, k, n))
  {
    if ms == [] {
    } else {
      RoutedIsLocal(opening, ms[..|ms| - 1], k, n);
      RouteInRange(ms[|ms| - 1].header.instrument, n);
    }
  }

  /** A shard's state after its part of the stream. */
  function ShardAfter(opening: seq<ShapedBook>, ms: seq<Msg>, k: nat, shards: nat): ShardState
    requires |opening| == NUM_INSTRUMENTS && k < shards && KnownInstruments(ms)
  {
    RoutedIsLocal(opening, ms, k, shards);
    Fold(InitialShard(opening, k, shards), Routed(ms, k, shards))
  }

  // ----- one instrument seen through a shard -----

  /** `owner` assigns every order id to one instrument; the message respects it. */
  predicate Owned(owner: nat -> nat, m: Msg) {
    && owner(m.id) == m.header.instrument
    && (m.Replace? ==> owner(m.newId) == m.header.instrument)
  }

  predicate OwnedStream(owner: nat -> nat, ms: seq<Msg>) {
    forall i :: 0 <= i < |ms| ==> Owned(owner, ms[i])
  }

  function Restrict(orders: Orders, owner: nat -> nat, instrument: nat): Orders {
    map id | id in orders && owner(id) == instrument :: orders[id]
  }

  /** One instrument's live orders and book, as a shard holds them. */
  function View(s: ShardState, owner: nat -> nat, instrument: nat, shards: nat): Venue
    requires shards > 0 && LocalOf(instrument, shards) < |s.books|
  {
    Venue(Restrict(s.orders, owner, instrument), s.books[LocalOf(instrument, shards)])
  }

  lemma RestrictOwn(orders: Orders, owner: nat -> nat, m: Msg)
    requires Owned(owner, m)
    ensures var i := m.header.instrument;
            Transition(Restrict(orders, owner, i), m)
            == (Restrict(Transition(orders, m).0, owner, i), Transition(orders, m).1)
  {
    var i := m.header.instrument;
    assert Transition(Restrict(orders, owner, i), m).0 == Restrict(Transition(orders, m).0, owner, i);
  }

  lemma RestrictOther(orders: Orders, owner: nat -> nat, m: Msg, i: nat)
    requires Owned(owner, m) && m.header.instrument != i
    ensures Restrict(Transition(orders, m).0, owner, i) == Restrict(orders, owner, i)
  {
  }

  lemma FoldSnoc(s: ShardState, items: seq<Item>, item: Item)
    requires Local(s, items) && item.local < |s.books|
    ensures Local(s, items + [item]) && Fold(s, items + [item]) == Applied(Fold(s, items), item)
  {
    assert (items + [item])[..|items|] == items;
  }

  /** One message reaches one shard and leaves the others alone. */
  lemma ShardAfterSnoc(opening: seq<ShapedBook>, ms: seq<Msg>, k: nat, n: nat)
    requires |opening| == NUM_INSTRUMENTS && k < n && KnownInstruments(ms) && ms != []
    ensures var before := ShardAfter(opening, ms[..|ms| - 1], k, n);
            var m := ms[|ms| - 1];
            var local := LocalOf(m.header.instrument, n);
            if ShardOf(m.header.instrument, n) == k
            then local < |before.books| && ShardAfter(opening, ms, k, n) == Applied(before, Item(m, local))
            else ShardAfter(opening, ms, k, n) == before
  {
    var rest, m := ms[..|ms| - 1], ms[|ms| - 1];
    RouteInRange(m.header.instrument, n);
    RoutedIsLocal(opening, ms, k, n);
    if ShardOf(m.header.instrument, n) == k {
      RoutedIsLocal(opening, rest, k, n);
      FoldSnoc(InitialShard(opening, k, n), Routed(rest, k, n), Item(m, LocalOf(m.header.instrument, n)));
    } else {
      assert Routed(ms, k, n) == Routed(rest, k, n);
    }
  }

  lemma OfSnoc(ms: seq<Msg>, i: nat, v: Venue)
    requires ms != []
    ensures var rest, m := ms[..|ms| - 1], ms[|ms| - 1];
            Replay(v, Of(ms, i)) == if m.header.instrument == i then Step(Replay(v, Of(rest, i)), m) else Replay(v, Of(rest, i))
  {
    var own := Of(ms, i);
    if ms[|ms| - 1].header.instrument == i {
      assert own[..|own| - 1] == Of(ms[..|ms| - 1], i);
    } else {
      assert own == Of(ms[..|ms| - 1], i);
    }
  }

  /** How one message of shard `k` moves the view of one of the shard's instruments. */
  lemma ViewStep(s: ShardState, owner: nat -> nat, m: Msg, i: nat, n: nat)
    requires n > 0 && Owned(owner, m)
    requires LocalOf(i, n) < |s.books| && LocalOf(m.header.instrument, n) < |s.books|
    requires ShardOf(m.header.instrument, n) == ShardOf(i, n)
    ensures var s' := Applied(s, Item(m, LocalOf(m.header.instrument, n)));
            View(s', owner, i, n) == if m.header.instrument == i then Step(View(s, owner, i, n), m) else View(s, owner, i, n)
  {
    var j := m.header.instrument;
    if j == i {
      RestrictOwn(s.orders, owner, m);
    } else {
      RestrictOther(s.orders, owner, m, i);
      if i < j { RoutesDiffer(i, j, n); } else { RoutesDiffer(j, i, n); }
    }
  }

  /** Seen from one instrument, a shard runs exactly that instrument's messages. */
  lemma {:induction false} ShardShowsInstrument(opening: seq<ShapedBook>, ms: seq<Msg>, owner: nat -> nat, i: nat, n: nat)
    requires |opening| == NUM_INSTRUMENTS && n > 0 && i < NUM_INSTRUMENTS
    requires KnownInstruments(ms) && OwnedStream(owner, ms)
    ensures ShardOf(i, n) < n && LocalOf(i, n) < BooksIn(ShardOf(i, n), n)
    ensures View(ShardAfter(opening, ms, ShardOf(i, n), n), owner, i, n)
            == Replay(Venue(map[], opening[i]), Of(ms, i))
    decreases |ms|
  {
    RouteInRange(i, n);
    var k := ShardOf(i, n);
    if ms == [] {
      assert Restrict(map[], owner, i) == map[];
    } else {
      var rest, m := ms[..|ms| - 1], ms[|ms| - 1];
      ShardShowsInstrument(opening, rest, owner, i, n);
      ShardAfterSnoc(opening, ms, k, n);
      OfSnoc(ms, i, Venue(map[], opening[i]));
      if ShardOf(m.header.instrument, n) == k {
        ViewStep(ShardAfter(opening, rest, k, n), owner, m, i, n);
      }
    }
  }

  /** The number of shards cannot be seen: for every stream in which an id belongs to
      one instrument, each instrument ends with the book and the live orders of the one-shard fold. */
  lemma ShardingIsInvisible(opening: seq<ShapedBook>, ms: seq<Msg>, owner: nat -> nat, i: nat, n: nat)
    requires |opening| == NUM_INSTRUMENTS && n > 0 && i < NUM_INSTRUMENTS
    requires KnownInstruments(ms) && OwnedStream(owner, ms)
    ensures ShardOf(i, n) < n && LocalOf(i, n) < BooksIn(ShardOf(i, n), n)
    ensures ShardOf(i, 1) == 0 && LocalOf(i, 1) == i < BooksIn(0, 1)
    ensures View(ShardAfter(opening, ms, ShardOf(i, n), n), owner, i, n)
            == View(ShardAfter(opening, ms, 0, 1), owner, i, 1)
  {
    RouteInRange(i, 1);
    ShardShowsInstrument(opening, ms, owner, i, n);
    ShardShowsInstrument(opening, ms, owner, i, 1);
  }

  /** Ids shared between instruments do show: the one-shard fold lets the second
      message delete the first instrument's order, two shards do not. */
  lemma SharedIdsAreVisible(opening: seq<ShapedBook>, t: nat)
    requires |opening| == NUM_INSTRUMENTS
    ensures var ms := [AddOrder(Header(0, t), 7, Buy, 100, 5), Delete(Header(1, t), 7)];
            && KnownInstruments(ms)
            && 7 in ShardAfter(opening, ms, 0, 2).orders
            && 7 !in ShardAfter(opening, ms, 0, 1).orders
  {
    var a, d := AddOrder(Header(0, t), 7, Buy, 100, 5), Delete(Header(1, t), 7);
    assert [a, d][..1] == [a] && [a][..0] == [];
    ShardAfterSnoc(opening, [a], 0, 2);
    ShardAfterSnoc(opening, [a, d], 0, 2);
    ShardAfterSnoc(opening, [a], 0, 1);
    ShardAfterSnoc(opening, [a, d], 0, 1);
  }

  // ----- the worker's object -----

  /** The location record keeps the local book index too; nothing reads it back. */
  datatype OrderLocation = OrderLocation(local: nat, rest: Resting)

  function Plain(orders: map<nat, OrderLocation>): Orders {
    map id | id in orders :: orders[id].rest
  }

  class Shard {
    var books: seq<OrderBook>
    var orders: map<nat, OrderLocation>

    ghost predicate Valid()
      reads this, books, set b | b in books :: b.bid, set b | b in books :: b.ask
    {
      && (forall i :: 0 <= i < |books| ==> books[i].Valid())
      && (forall i, j :: 0 <= i < j < |books| ==> books[i].Repr() !! books[j].Repr())
    }

    ghost function Value(): ShardState
      requires Valid()
      reads this, books, set b | b in books :: b.bid, set b | b in books :: b.ask
    {
      ShardState(Plain(orders), seq(|books|, i requires 0 <= i < |books| && books[i].Valid()
        reads this, books, set b | b in books :: b.bid, set b | b in books :: b.ask => books[i].Value()))
    }

    /** One message against the order map and the book it names. */
    method ApplyAt(item: Item, book: OrderBook)
      requires book.Valid()
      modifies this`orders, book.Repr()
      ensures book.Valid()
      ensures (Plain(orders), book.Value())
              == (Transition(Plain(old(orders)), item.msg).0,
                  Run(old(book.Value()), Transition(Plain(old(orders)), item.msg).1))
    {
      ghost var was := Plain(orders);
      RunOfTransition(book.Value(), was, item.msg);
      match item.msg {
        case AddOrder(_, id, side, price, qty) =>
          orders := orders[id := OrderLocation(item.local, Resting(side, price, qty))];
          assert Plain(orders) == was[id := Resting(side, price, qty)];
          var _ := book.Add(side, price, qty);
        case Execute(_, id, qty) =>
          if id !in orders { return; }
          TakeFrom(id, qty, book);
        case Cancel(_, id, qty) =>
          if id !in orders { return; }
          TakeFrom(id, qty, book);
        case Delete(_, id) =>
          if id !in orders { return; }
          var o := orders[id].rest;
          var _ := book.Reduce(o.side, o.price, o.qty);
          orders := orders - {id};
          assert Plain(orders) == was - {id};
        case Replace(_, id, newId, price, qty) =>
          if id !in orders { return; }
          var o := orders[id].rest;
          var _ := book.Reduce(o.side, o.price, o.qty);
          orders := orders - {id};
          orders := orders[newId := OrderLocation(item.local, Resting(o.side, price, qty))];
          assert Plain(orders) == (was - {id})[newId := Resting(o.side, price, qty)];
          var _ := book.Add(o.side, price, qty);
      }
    }

    /** The shared body of the Execute and Cancel cases. */
    method TakeFrom(id: nat, qty: nat, book: OrderBook)
      requires book.Valid() && id in orders
      modifies this`orders, book.Repr()
      ensures book.Valid()
      ensures var o := old(orders[id].rest);
              && Plain(orders) == Take(Plain(old(orders)), id, qty).0
              && book.Value() == Reduced(old(book.Value()), o.side, o.price, Min(qty, o.qty))
    {
      var o := orders[id].rest;
      var taken := Min(qty, o.qty);
      var _ := book.Reduce(o.side, o.price, taken);
      orders := orders[id := OrderLocation(orders[id].local, o.(qty := o.qty - taken))];
      if orders[id].rest.qty == 0 {
        orders := orders - {id};
        assert Plain(orders) == Plain(old(orders)) - {id};
      } else {
        assert Plain(orders) == Plain(old(orders))[id := o.(qty := o.qty - taken)];
      }
    }

    method Apply(item: Item)
      requires Valid() && item.local < |books|
      modifies this`orders, books[item.local].Repr()
      ensures Valid() && books == old(books)
      ensures Value() == Applied(old(Value()), item)
    {
      ghost var was := Value();
      ApplyAt(item, books[item.local]);
      forall i | 0 <= i < |books| && i != item.local
        ensures books[i].Valid() && books[i].Value() == was.books[i]
      {
        assert books[i].Repr() !! books[item.local].Repr();
      }
      assert Value().books == Applied(was, item).books;
    }
  }
}
