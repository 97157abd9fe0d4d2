/**
 Queue positions: every price level as a first-in first-out list of entries, an
 index from order ids to entries, and the constant-time tracker that must agree
 with a scan of the list.
 */
module QueueBooks {
  import opened Protocol
  import opened Sums

  datatype LevelKey = LevelKey(instrument: nat, side: Side, price: int)

  datatype QEntry = QEntry(id: nat, qty: nat, arrival: nat)

  /** Where an order sits: the program's list iterator, named by the entry's arrival number. */
  datatype QLoc = QLoc(level: LevelKey, arrival: nat)

  datatype Reduction = Reduction(level: LevelKey, arrival: nat, qty: nat, isExecute: bool)

  datatype Effect = Effect(touched: seq<LevelKey>, reduction: Option<Reduction>)

  datatype QBook = QBook(levels: map<LevelKey, seq<QEntry>>, orders: map<nat, QLoc>, nextSeq: nat)

  /** The position of the entry with a given arrival number, or the length of the list. */
  function Find(list: seq<QEntry>, arrival: nat): (r: nat)
    ensures r <= |list|
    ensures r < |list| ==> list[r].arrival == arrival
  {
    if list == [] then 0
    else if list[0].arrival == arrival then 0
    else 1 + Find(list[1..], arrival)
  }

  predicate Ascending(list: seq<QEntry>) {
    forall j, k :: 0 <= j < k < |list| ==> list[j].arrival < list[k].arrival
  }

  lemma {:induction false} FindIs(list: seq<QEntry>, k: nat)
    requires Ascending(list) && k < |list|
    ensures Find(list, list[k].arrival) == k
  {
    if k == 0 {
    } else {
      assert list[1..][k - 1] == list[k];
      FindIs(list[1..], k - 1);
    }
  }

  ghost predicate ListOk(list: seq<QEntry>, bound: nat) {
    list != [] && Ascending(list) && forall k :: 0 <= k < |list| ==> list[k].arrival < bound
  }

  /** The index entry of `id` points at an entry that carries `id`. */
  ghost predicate Resolves(b: QBook, id: nat, loc: QLoc) {
    && loc.level in b.levels
    && var list := b.levels[loc.level];
       var k := Find(list, loc.arrival);
       k < |list| && list[k].id == id
  }

  /** No list is empty, arrival numbers strictly increase along every list, and every
      index entry resolves.  This holds for every stream, fresh ids or not. */
  ghost predicate WellFormed(b: QBook) {
    && (forall key :: key in b.levels ==> ListOk(b.levels[key], b.nextSeq))
    && (forall id :: id in b.orders ==> Resolves(b, id, b.orders[id]))
  }

  function ListAt(b: QBook, key: LevelKey): seq<QEntry> {
    if key in b.levels then b.levels[key] else []
  }

  /** The entry an order's iterator points at.  An iterator that resolves to nothing
      would dangle; well-formedness rules that out, and the entry read then is empty. */
  function EntryOf(b: QBook, id: nat): QEntry
    requires id in b.orders
  {
    var list := ListAt(b, b.orders[id].level);
    var k := Find(list, b.orders[id].arrival);
    if k < |list| then list[k] else QEntry(id, 0, b.orders[id].arrival)
  }

  function Without(list: seq<QEntry>, k: nat): seq<QEntry>
    requires k < |list|
  {
    list[..k] + list[k + 1..]
  }

  /** What remains of a level list once the entry at `k` is left with `left`. */
  function Shrunk(list: seq<QEntry>, k: nat, left: nat): seq<QEntry> {
    if k >= |list| then list
    else if left == 0 then Without(list, k) else list[k := list[k].(qty := left)]
  }

  /** The level lists, with an emptied list forgotten. */
  function SetList(levels: map<LevelKey, seq<QEntry>>, key: LevelKey, list: seq<QEntry>): map<LevelKey, seq<QEntry>> {
    if list == [] then levels - {key} else levels[key := list]
  }

  function Inserted(b: QBook, key: LevelKey, id: nat, qty: nat): QBook {
    QBook(b.levels[key := ListAt(b, key) + [QEntry(id, qty, b.nextSeq)]],
          b.orders[id := QLoc(key, b.nextSeq)], b.nextSeq + 1)
  }

  function ReducedTo(b: QBook, id: nat, left: nat): QBook
    requires id in b.orders
  {
    var loc := b.orders[id];
    var list := ListAt(b, loc.level);
    QBook(SetList(b.levels, loc.level, Shrunk(list, Find(list, loc.arrival), left)),
          if left == 0 then b.orders - {id} else b.orders, b.nextSeq)
  }

  /** What an Execute or Cancel of `qty` leaves of the order. */
  function LeftOf(b: QBook, id: nat, qty: nat): nat
    requires id in b.orders
  {
    EntryOf(b, id).qty - Min(qty, EntryOf(b, id).qty)
  }

  function ReduceBy(b: QBook, id: nat, qty: nat): QBook {
    if id in b.orders then ReducedTo(b, id, LeftOf(b, id, qty)) else b
  }

  function ReductionOf(b: QBook, id: nat, qty: nat, isExecute: bool): Effect {
    if id !in b.orders then Effect([], None) else
    var e := EntryOf(b, id);
    Effect([b.orders[id].level], Some(Reduction(b.orders[id].level, e.arrival, Min(qty, e.qty), isExecute)))
  }

  /** The book after a message. */
  function Applied(b: QBook, m: Msg): QBook {
    match m
    case AddOrder(h, id, side, price, qty) => Inserted(b, LevelKey(h.instrument, side, price), id, qty)
    case Execute(_, id, qty) => ReduceBy(b, id, qty)
    case Cancel(_, id, qty) => ReduceBy(b, id, qty)
    case Delete(_, id) => if id in b.orders then ReduceBy(b, id, EntryOf(b, id).qty) else b
    case Replace(h, id, newId, price, qty) =>
      if id !in b.orders then b else
      Inserted(ReduceBy(b, id, EntryOf(b, id).qty), LevelKey(h.instrument, b.orders[id].level.side, price), newId, qty)
  }

  /** What a message reports: the levels it touched and the reduction it made. */
  function EffectOf(b: QBook, m: Msg): Effect {
    match m
    case AddOrder(h, id, side, price, qty) => Effect([LevelKey(h.instrument, side, price)], None)
    case Execute(_, id, qty) => ReductionOf(b, id, qty, true)
    case Cancel(_, id, qty) => ReductionOf(b, id, qty, false)
    case Delete(_, id) => if id in b.orders then ReductionOf(b, id, EntryOf(b, id).qty, false) else Effect([], None)
    case Replace(h, id, newId, price, qty) =>
      if id !in b.orders then Effect([], None) else
      var eff := ReductionOf(b, id, EntryOf(b, id).qty, false);
      eff.(touched := eff.touched + [LevelKey(h.instrument, b.orders[id].level.side, price)])
  }

  function Replay(b: QBook, ms: seq<Msg>): QBook {
    if ms == [] then b else Applied(Replay(b, ms[..|ms| - 1]), ms[|ms| - 1])
  }

  // ----- well-formedness -----

  lemma {:induction false} FindAppend(list: seq<QEntry>, e: QEntry, arrival: nat)
    ensures Find(list, arrival) < |list| ==> Find(list + [e], arrival) == Find(list, arrival)
    ensures Find(list, arrival) == |list| && e.arrival == arrival ==> Find(list + [e], arrival) == |list|
  {
    if list != [] && list[0].arrival != arrival {
      FindAppend(list[1..], e, arrival);
      assert (list + [e])[1..] == list[1..] + [e];
    }
  }

  lemma InsertedIsWellFormed(b: QBook, key: LevelKey, id: nat, qty: nat)
    requires WellFormed(b)
    ensures WellFormed(Inserted(b, key, id, qty))
  {
    var e := QEntry(id, qty, b.nextSeq);
    var list := ListAt(b, key);
    var r := Inserted(b, key, id, qty);
    assert forall k :: 0 <= k < |list| ==> list[k].arrival < b.nextSeq;
    forall i | i in r.orders ensures Resolves(r, i, r.orders[i]) {
      if i == id {
        FindAppend(list, e, b.nextSeq);
      } else {
        assert Resolves(b, i, b.orders[i]);
        FindAppend(list, e, b.orders[i].arrival);
      }
    }
  }

  lemma WithoutAscends(list: seq<QEntry>, k: nat)
    requires Ascending(list) && k < |list|
    ensures Ascending(Without(list, k))
  {
    var list' := Without(list, k);
    forall i, j | 0 <= i < j < |list'| ensures list'[i].arrival < list'[j].arrival {
      assert list'[i] == list[if i < k then i else i + 1] && list'[j] == list[if j < k then j else j + 1];
    }
  }

  lemma ShrunkAscends(list: seq<QEntry>, k: nat, left: nat)
    requires Ascending(list) && k < |list|
    ensures Ascending(Shrunk(list, k, left))
  {
    if left == 0 { WithoutAscends(list, k); }
  }

  /** Where an entry sits once the entry at `k` has shrunk. */
  function Moved(k: nat, left: nat, j: nat): nat {
    if left == 0 && j > k then j - 1 else j
  }

  lemma ShrunkAt(list: seq<QEntry>, k: nat, left: nat, j: nat)
    requires k < |list| && j < |list| && (j != k || left > 0)
    ensures Moved(k, left, j) < |Shrunk(list, k, left)|
    ensures Shrunk(list, k, left)[Moved(k, left, j)] == (if j == k then list[j].(qty := left) else list[j])
  {
  }

  /** Shrinking the entry at `k` leaves every other entry where the index expects it. */
  lemma ShrunkKeeps(list: seq<QEntry>, k: nat, left: nat, j: nat)
    requires Ascending(list) && k < |list| && j < |list| && (j != k || left > 0)
    ensures var list' := Shrunk(list, k, left);
            && Moved(k, left, j) < |list'|
            && list'[Moved(k, left, j)] == (if j == k then list[j].(qty := left) else list[j])
            && Find(list', list[j].arrival) == Moved(k, left, j)
  {
    ShrunkAt(list, k, left, j);
    ShrunkAscends(list, k, left);
    FindIs(Shrunk(list, k, left), Moved(k, left, j));
  }

  lemma ShrunkIsOk(list: seq<QEntry>, k: nat, left: nat, bound: nat)
    requires ListOk(list, bound) && k < |list|
    ensures Shrunk(list, k, left) == [] || ListOk(Shrunk(list, k, left), bound)
  {
    ShrunkAscends(list, k, left);
  }

  lemma ReducedResolves(b: QBook, id: nat, left: nat, i: nat)
    requires WellFormed(b) && id in b.orders && i in b.orders && (i != id || left > 0)
    ensures Resolves(ReducedTo(b, id, left), i, b.orders[i])
  {
    var loc, at := b.orders[id], b.orders[i];
    assert Resolves(b, id, loc) && Resolves(b, i, at);
    if at.level == loc.level {
      var list := b.levels[loc.level];
      ShrunkKeeps(list, Find(list, loc.arrival), left, Find(list, at.arrival));
    }
  }

  lemma ReducedIsWellFormed(b: QBook, id: nat, left: nat)
    requires WellFormed(b) && id in b.orders
    ensures WellFormed(ReducedTo(b, id, left))
  {
    var loc := b.orders[id];
    assert Resolves(b, id, loc);
    ShrunkIsOk(b.levels[loc.level], Find(b.levels[loc.level], loc.arrival), left, b.nextSeq);
    var r := ReducedTo(b, id, left);
    forall i | i in r.orders ensures Resolves(r, i, r.orders[i]) {
      ReducedResolves(b, id, left, i);
    }
  }

  lemma ReduceByIsWellFormed(b: QBook, id: nat, qty: nat)
    requires WellFormed(b)
    ensures WellFormed(ReduceBy(b, id, qty))
  {
    if id in b.orders { ReducedIsWellFormed(b, id, LeftOf(b, id, qty)); }
  }

  /** Every message keeps the book well formed, fresh ids or not. */
  lemma AppliedIsWellFormed(b: QBook, m: Msg)
    requires WellFormed(b)
    ensures WellFormed(Applied(b, m))
  {
    match m {
      case AddOrder(h, id, side, price, qty) => InsertedIsWellFormed(b, LevelKey(h.instrument, side, price), id, qty);
      case Execute(_, id, qty) => ReduceByIsWellFormed(b, id, qty);
      case Cancel(_, id, qty) => ReduceByIsWellFormed(b, id, qty);
      case Delete(_, id) => if id in b.orders { ReduceByIsWellFormed(b, id, EntryOf(b, id).qty); }
      case Replace(h, id, newId, price, qty) =>
        if id in b.orders {
          ReduceByIsWellFormed(b, id, EntryOf(b, id).qty);
          InsertedIsWellFormed(ReduceBy(b, id, EntryOf(b, id).qty),
                               LevelKey(h.instrument, b.orders[id].level.side, price), newId, qty);
        }
    }
  }

  lemma {:induction false} ReplayIsWellFormed(b: QBook, ms: seq<Msg>)
    requires WellFormed(b)
    ensures WellFormed(Replay(b, ms))
  {
    if ms == [] {
    } else {
      ReplayIsWellFormed(b, ms[..|ms| - 1]);
      AppliedIsWellFormed(Replay(b, ms[..|ms| - 1]), ms[|ms| - 1]);
    }
  }

  // ----- quantities -----

  /** The quantity in a list. */
  function ListQty(list: seq<QEntry>): nat {
    if list == [] then 0 else ListQty(list[..|list| - 1]) + list[|list| - 1].qty
  }

  /** The quantity that arrived before `bound`: the from-scratch scan. */
  function Ahead(list: seq<QEntry>, bound: nat): nat {
    if list == [] then 0 else
    Ahead(list[..|list| - 1], bound) + if list[|list| - 1].arrival < bound then list[|list| - 1].qty else 0
  }

  function QtyAhead(b: QBook, key: LevelKey, bound: nat): nat {
    Ahead(ListAt(b, key), bound)
  }

  function LevelQty(b: QBook, key: LevelKey): nat {
    ListQty(ListAt(b, key))
  }

  lemma {:induction false} AheadOfAll(list: seq<QEntry>, bound: nat)
    requires forall k :: 0 <= k < |list| ==> list[k].arrival < bound
    ensures Ahead(list, bound) == ListQty(list)
  {
    if list == [] {
    } else {
      AheadOfAll(list[..|list| - 1], bound);
    }
  }

  lemma {:induction false} AheadConcat(x: seq<QEntry>, y: seq<QEntry>, bound: nat)
    ensures Ahead(x + y, bound) == Ahead(x, bound) + Ahead(y, bound)
  {
    if y == [] {
      assert x + y == x;
    } else {
      AheadConcat(x, y[..|y| - 1], bound);
      assert (x + y)[..|x + y| - 1] == x + y[..|y| - 1];
    }
  }

  /** What shrinking one entry does to the quantity ahead of a given arrival. */
  lemma AheadShrunk(list: seq<QEntry>, k: nat, left: nat, bound: nat)
    requires k < |list| && left <= list[k].qty
    ensures Ahead(Shrunk(list, k, left), bound)
            == Ahead(list, bound) - if list[k].arrival < bound then list[k].qty - left else 0
    ensures list[k].arrival < bound ==> list[k].qty <= Ahead(list, bound)
  {
    var x, e, y := list[..k], list[k], list[k + 1..];
    var e' := e.(qty := left);
    assert list == x + [e] + y;
    AheadConcat(x + [e], y, bound);
    AheadConcat(x, [e], bound);
    assert [e][..0] == [] && [e'][..0] == [];
    if left == 0 {
      AheadConcat(x, y, bound);
    } else {
      assert list[k := e'] == x + [e'] + y;
      AheadConcat(x + [e'], y, bound);
      AheadConcat(x, [e'], bound);
    }
  }

  lemma {:induction false} ListQtyShrunk(list: seq<QEntry>, k: nat, left: nat, bound: nat)
    requires ListOk(list, bound) && k < |list| && left <= list[k].qty
    ensures ListQty(Shrunk(list, k, left)) == ListQty(list) - (list[k].qty - left)
    ensures list[k].qty <= ListQty(list)
  {
    AheadShrunk(list, k, left, bound);
    AheadOfAll(list, bound);
    if Shrunk(list, k, left) != [] {
      ShrunkIsOk(list, k, left, bound);
      AheadOfAll(Shrunk(list, k, left), bound);
    }
  }

  /** Arrivals ascend, so what is ahead of an arrival is a prefix of the list. */
  lemma {:induction false} AheadIsPrefix(list: seq<QEntry>, bound: nat) returns (p: nat)
    requires Ascending(list)
    ensures p <= |list| && Ahead(list, bound) == ListQty(list[..p])
    ensures forall k :: 0 <= k < |list| ==> (list[k].arrival < bound <==> k < p)
  {
    if list == [] { return 0; }
    var n := |list| - 1;
    if list[n].arrival < bound {
      AheadOfAll(list, bound);
      assert list[..n + 1] == list;
      return n + 1;
    }
    p := AheadIsPrefix(list[..n], bound);
    assert list[..n][..p] == list[..p];
  }

  /** The quantity a message removes from level `key` ahead of `bound`, by its reported effect. */
  function Advance(eff: Effect, key: LevelKey, bound: nat): nat {
    if eff.reduction.Some? && eff.reduction.value.level == key && eff.reduction.value.arrival < bound
    then eff.reduction.value.qty else 0
  }

  /** The lists after a reduction: one list shrinks, every other is untouched. */
  lemma ListAfterReduction(b: QBook, id: nat, left: nat, key: LevelKey)
    requires WellFormed(b)
    requires id in b.orders
    ensures b.orders[id].level in b.levels
    ensures var list := b.levels[b.orders[id].level];
            var k := Find(list, b.orders[id].arrival);
            && k < |list| && list[k] == EntryOf(b, id) && list[k].id == id && list[k].arrival == b.orders[id].arrival
            && ListAt(ReducedTo(b, id, left), key)
               == if key == b.orders[id].level then Shrunk(list, k, left) else ListAt(b, key)
  {
    assert Resolves(b, id, b.orders[id]);
  }

  lemma ReduceAdvances(b: QBook, id: nat, qty: nat, isExecute: bool, key: LevelKey, bound: nat)
    requires WellFormed(b)
    ensures var step := Advance(ReductionOf(b, id, qty, isExecute), key, bound);
            && step <= QtyAhead(b, key, bound)
            && QtyAhead(ReduceBy(b, id, qty), key, bound) == QtyAhead(b, key, bound) - step
  {
    if id in b.orders {
      var left := LeftOf(b, id, qty);
      ListAfterReduction(b, id, left, key);
      var list := b.levels[b.orders[id].level];
      AheadShrunk(list, Find(list, b.orders[id].arrival), left, bound);
    }
  }

  lemma InsertStaysBehind(b: QBook, key: LevelKey, id: nat, qty: nat, k: LevelKey, bound: nat)
    requires bound <= b.nextSeq
    ensures QtyAhead(Inserted(b, key, id, qty), k, bound) == QtyAhead(b, k, bound)
  {
    var list := ListAt(b, key);
    var e := QEntry(id, qty, b.nextSeq);
    assert (list + [e])[..|list|] == list;
  }

  /** The message moves the quantity ahead by exactly its reported advance. */
  ghost predicate MovesBy(b: QBook, after: QBook, eff: Effect, key: LevelKey, bound: nat) {
    && Advance(eff, key, bound) <= QtyAhead(b, key, bound)
    && QtyAhead(after, key, bound) == QtyAhead(b, key, bound) - Advance(eff, key, bound)
    && b.nextSeq <= after.nextSeq
  }

  lemma TakeMoves(b: QBook, m: Msg, key: LevelKey, bound: nat)
    requires WellFormed(b) && (m.Execute? || m.Cancel?)
    ensures MovesBy(b, Applied(b, m), EffectOf(b, m), key, bound)
  {
    ReduceAdvances(b, m.id, m.qty, m.Execute?, key, bound);
  }

  lemma DeleteMoves(b: QBook, m: Msg, key: LevelKey, bound: nat)
    requires WellFormed(b) && m.Delete?
    ensures MovesBy(b, Applied(b, m), EffectOf(b, m), key, bound)
  {
    if m.id in b.orders { ReduceAdvances(b, m.id, EntryOf(b, m.id).qty, false, key, bound); }
  }

  lemma AddMoves(b: QBook, m: Msg, key: LevelKey, bound: nat)
    requires WellFormed(b) && m.AddOrder? && bound <= b.nextSeq
    ensures MovesBy(b, Applied(b, m), EffectOf(b, m), key, bound)
  {
    InsertStaysBehind(b, LevelKey(m.header.instrument, m.side, m.price), m.id, m.qty, key, bound);
  }

  lemma ReplaceMoves(b: QBook, m: Msg, key: LevelKey, bound: nat)
    requires WellFormed(b) && m.Replace? && bound <= b.nextSeq
    ensures MovesBy(b, Applied(b, m), EffectOf(b, m), key, bound)
  {
    if m.id in b.orders {
      var all := EntryOf(b, m.id).qty;
      ReduceAdvances(b, m.id, all, false, key, bound);
      InsertStaysBehind(ReduceBy(b, m.id, all), LevelKey(m.header.instrument, b.orders[m.id].level.side, m.price),
                        m.newId, m.qty, key, bound);
    }
  }

  /** One message moves the quantity ahead of any earlier arrival by exactly the
      reported reduction, when that is at the same level and ahead of it. */
  lemma ApplyAdvances(b: QBook, m: Msg, key: LevelKey, bound: nat)
    requires WellFormed(b) && bound <= b.nextSeq
    ensures MovesBy(b, Applied(b, m), EffectOf(b, m), key, bound)
  {
    if m.Delete? {
      DeleteMoves(b, m, key, bound);
    } else if m.Execute? || m.Cancel? {
      TakeMoves(b, m, key, bound);
    } else if m.AddOrder? {
      AddMoves(b, m, key, bound);
    } else {
      ReplaceMoves(b, m, key, bound);
    }
  }

  /** Where a message inserts, if it does, and under which id. */
  predicate InsertsAt(b: QBook, m: Msg, key: LevelKey, id: nat, qty: nat) {
    match m
    case AddOrder(h, newId, side, price, q) => key == LevelKey(h.instrument, side, price) && id == newId && qty == q
    case Replace(h, oldId, newId, price, q) =>
      && oldId in b.orders && key == LevelKey(h.instrument, b.orders[oldId].level.side, price) && id == newId && qty == q
    case _ => false
  }

  /** An inserted order is the last of its list, under the next arrival number, and the index
      says so; the arrivals advance by one for it and otherwise stand still. */
  lemma InsertedIsNewest(b: QBook, m: Msg)
    ensures forall key, id, qty :: InsertsAt(b, m, key, id, qty) ==>
              var list := ListAt(Applied(b, m), key);
              && list != [] && list[|list| - 1] == QEntry(id, qty, b.nextSeq)
              && id in Applied(b, m).orders && Applied(b, m).orders[id] == QLoc(key, b.nextSeq)
              && Applied(b, m).nextSeq == b.nextSeq + 1
    ensures !(m.AddOrder? || (m.Replace? && m.id in b.orders)) ==> Applied(b, m).nextSeq == b.nextSeq
  {
  }

  // ----- the touched levels -----

  /** A take of nothing from an order that holds something. */
  predicate TakesNothing(b: QBook, m: Msg) {
    (m.Execute? || m.Cancel?) && m.id in b.orders && m.qty == 0 < EntryOf(b, m.id).qty
  }

  predicate Changed(b: QBook, after: QBook, key: LevelKey) {
    ListAt(after, key) != ListAt(b, key)
  }

  /** The touched levels are those whose lists change, except that a take of nothing touches one. */
  ghost predicate TouchesChanged(b: QBook, m: Msg, key: LevelKey) {
    && (Changed(b, Applied(b, m), key) ==> key in EffectOf(b, m).touched)
    && (key in EffectOf(b, m).touched ==> Changed(b, Applied(b, m), key) || TakesNothing(b, m))
  }

  lemma InsertChanges(b: QBook, key: LevelKey, id: nat, qty: nat, k: LevelKey)
    ensures Changed(b, Inserted(b, key, id, qty), k) <==> k == key
  {
    if k == key {
      assert |ListAt(Inserted(b, key, id, qty), k)| == |ListAt(b, k)| + 1;
    }
  }

  lemma ShrunkDiffers(list: seq<QEntry>, k: nat, left: nat)
    requires k < |list|
    ensures Shrunk(list, k, left) != list <==> left == 0 || left != list[k].qty
  {
    if left == 0 {
      assert |Shrunk(list, k, left)| == |list| - 1;
    } else {
      assert Shrunk(list, k, left)[k].qty == left;
      assert list[k := list[k]] == list;
    }
  }

  lemma ReduceChanges(b: QBook, id: nat, left: nat, k: LevelKey)
    requires WellFormed(b) && id in b.orders && left <= EntryOf(b, id).qty
    ensures Changed(b, ReducedTo(b, id, left), k) <==>
            k == b.orders[id].level && (left == 0 || left < EntryOf(b, id).qty)
  {
    ListAfterReduction(b, id, left, k);
    assert Resolves(b, id, b.orders[id]);
    var list := b.levels[b.orders[id].level];
    ShrunkDiffers(list, Find(list, b.orders[id].arrival), left);
  }

  /** A replacement leaves a newer entry than any there was at the new level. */
  lemma ReplaceChanges(b: QBook, id: nat, key: LevelKey, newId: nat, qty: nat, k: LevelKey)
    requires WellFormed(b) && id in b.orders
    ensures Changed(b, Inserted(ReducedTo(b, id, 0), key, newId, qty), k) <==> k == b.orders[id].level || k == key
  {
    var r := ReducedTo(b, id, 0);
    ReduceChanges(b, id, 0, k);
    InsertChanges(r, key, newId, qty, k);
    if k == key {
      var list := ListAt(Inserted(r, key, newId, qty), k);
      assert list[|list| - 1].arrival == b.nextSeq;
      assert k in b.levels ==> ListOk(b.levels[k], b.nextSeq);
    }
  }

  lemma TakeTouches(b: QBook, m: Msg, key: LevelKey)
    requires WellFormed(b) && (m.Execute? || m.Cancel?)
    ensures TouchesChanged(b, m, key)
  {
    if m.id in b.orders { ReduceChanges(b, m.id, LeftOf(b, m.id, m.qty), key); }
  }

  lemma ReplaceTouches(b: QBook, m: Msg, key: LevelKey)
    requires WellFormed(b) && m.Replace?
    ensures TouchesChanged(b, m, key)
  {
    if m.id in b.orders {
      ReplaceChanges(b, m.id, LevelKey(m.header.instrument, b.orders[m.id].level.side, m.price), m.newId, m.qty, key);
    }
  }

  /** The reported effect names exactly the levels whose lists the message changes. */
  lemma TouchedAreTheChanged(b: QBook, m: Msg, key: LevelKey)
    requires WellFormed(b)
    ensures TouchesChanged(b, m, key)
  {
    match m {
      case AddOrder(h, id, side, price, qty) => InsertChanges(b, LevelKey(h.instrument, side, price), id, qty, key);
      case Execute(_, _, _) => TakeTouches(b, m, key);
      case Cancel(_, _, _) => TakeTouches(b, m, key);
      case Delete(_, id) => if id in b.orders { ReduceChanges(b, id, 0, key); }
      case Replace(_, _, _, _, _) => ReplaceTouches(b, m, key);
    }
  }

  // ----- the fast tracker -----

  /** A hypothetical order's position, kept in constant time per message. */
  datatype Tracker = Tracker(level: LevelKey, arrival: nat, ahead: int, front: bool)

  function Placed(level: LevelKey, arrival: nat, aheadQty: nat): Tracker {
    var ahead := ToInt64(aheadQty);
    if ahead <= 0 then Tracker(level, arrival, 0, true) else Tracker(level, arrival, ahead, false)
  }

  /** The tracker after a message's effect, and whether the message fills the order. */
  function Consumed(t: Tracker, eff: Effect): (Tracker, bool) {
    if eff.reduction.None? || eff.reduction.value.level != t.level then (t, false) else
    var r := eff.reduction.value;
    var ahead := if r.arrival < t.arrival then (if t.ahead - r.qty < 0 then 0 else t.ahead - r.qty) else t.ahead;
    (t.(ahead := ahead, front := t.front || (r.arrival < t.arrival && ahead == 0)), t.front && r.isExecute)
  }

  /** The tracker says what the from-scratch scan says. */
  predicate Agrees(b: QBook, t: Tracker) {
    && t.arrival <= b.nextSeq
    && t.ahead == QtyAhead(b, t.level, t.arrival)
    && (t.front <==> t.ahead == 0)
  }

  /** What placing an order does: the arrival is the next one, the quantity ahead is the
      level's total, narrowed to 32 bits. */
  function PlacedAt(b: QBook, key: LevelKey): Tracker {
    Placed(key, b.nextSeq, ToUint32(LevelQty(b, key)))
  }

  /** A tracker starts in agreement exactly when the narrowing loses nothing. */
  lemma PlacementAgrees(b: QBook, key: LevelKey)
    requires WellFormed(b)
    ensures Agrees(b, PlacedAt(b, key)) <==> LevelQty(b, key) < TWO_32
  {
    AheadOfAll(ListAt(b, key), b.nextSeq);
  }

  /** A reduction is reported as a trade exactly when the message executes a known order. */
  lemma ExecuteEffect(b: QBook, m: Msg)
    ensures var eff := EffectOf(b, m);
            && (eff.reduction.Some? && eff.reduction.value.isExecute <==> m.Execute? && m.id in b.orders)
            && (m.Execute? && m.id in b.orders ==> eff.reduction.value.level == b.orders[m.id].level)
  {
  }

  /** Agreement survives every message, the clamp at zero never acts, and a fill is
      reported exactly when the scan already said zero and the message executes an
      order at the tracked level. */
  lemma ConsumeAgrees(b: QBook, t: Tracker, m: Msg)
    requires WellFormed(b)
    requires Agrees(b, t)
    ensures var eff := EffectOf(b, m);
            var (t', filled) := Consumed(t, eff);
            && Agrees(Applied(b, m), t')
            && t'.ahead <= t.ahead
            && Advance(eff, t.level, t.arrival) <= t.ahead
            && (filled <==> QtyAhead(b, t.level, t.arrival) == 0
                            && m.Execute? && m.id in b.orders && b.orders[m.id].level == t.level)
  {
    ApplyAdvances(b, m, t.level, t.arrival);
    ExecuteEffect(b, m);
    ConsumeAdvances(b, t, Applied(b, m), EffectOf(b, m));
  }

  lemma ConsumeAdvances(b: QBook, t: Tracker, b': QBook, eff: Effect)
    requires Agrees(b, t) && MovesBy(b, b', eff, t.level, t.arrival)
    ensures var (t', filled) := Consumed(t, eff);
            && Agrees(b', t')
            && t'.ahead <= t.ahead
            && (filled <==> t.ahead == 0 && eff.reduction.Some? && eff.reduction.value.isExecute
                            && eff.reduction.value.level == t.level)
  {
  }

  function Track(b: QBook, t: Tracker, ms: seq<Msg>): Tracker {
    if ms == [] then t else
    Consumed(Track(b, t, ms[..|ms| - 1]), EffectOf(Replay(b, ms[..|ms| - 1]), ms[|ms| - 1])).0
  }

  /** After any stream whatever, a tracker placed on a level of less than 2^32 agrees
      with the scan, and says front exactly when nothing is ahead. */
  lemma {:induction false} TrackerIsExact(b: QBook, key: LevelKey, ms: seq<Msg>)
    requires WellFormed(b)
    requires LevelQty(b, key) < TWO_32
    ensures Agrees(Replay(b, ms), Track(b, PlacedAt(b, key), ms))
    ensures Track(b, PlacedAt(b, key), ms).level == key && Track(b, PlacedAt(b, key), ms).arrival == b.nextSeq
  {
    if ms == [] {
      PlacementAgrees(b, key);
    } else {
      var rest := ms[..|ms| - 1];
      TrackerIsExact(b, key, rest);
      ReplayIsWellFormed(b, rest);
      ConsumeAgrees(Replay(b, rest), Track(b, PlacedAt(b, key), rest), ms[|ms| - 1]);
    }
  }

  // ----- the index and the lists correspond -----

  ghost predicate Points(b: QBook, key: LevelKey, k: nat)
    requires key in b.levels && k < |b.levels[key]|
  {
    var e := b.levels[key][k];
    e.id in b.orders && b.orders[e.id] == QLoc(key, e.arrival)
  }

  /** Every list entry is the one its id's index entry names; with well-formedness,
      entries and index correspond one to one. */
  ghost predicate Indexed(b: QBook) {
    forall key, k: nat :: key in b.levels && k < |b.levels[key]| ==> Points(b, key, k)
  }

  /** The message inserts an id that still rests. */
  predicate Reuses(b: QBook, m: Msg) {
    match m
    case AddOrder(_, id, _, _, _) => id in b.orders
    case Replace(_, id, newId, _, _) => id in b.orders && newId in b.orders && newId != id
    case _ => false
  }

  lemma InsertIndexed(b: QBook, key: LevelKey, id: nat, qty: nat)
    requires WellFormed(b)
    requires Indexed(b)
    ensures Indexed(Inserted(b, key, id, qty)) <==> id !in b.orders
  {
    var b' := Inserted(b, key, id, qty);
    if id in b.orders {
      var loc := b.orders[id];
      assert Resolves(b, id, loc);
      var k := Find(b.levels[loc.level], loc.arrival);
      assert b'.levels[loc.level][k] == b.levels[loc.level][k];
      assert !Points(b', loc.level, k);
    } else {
      forall l, k: nat | l in b'.levels && k < |b'.levels[l]| ensures Points(b', l, k) {
        if l in b.levels && k < |b.levels[l]| { assert Points(b, l, k); }
      }
    }
  }

  /** An entry of the reduced book is an entry of the old one, at most shrunk. */
  lemma EntryBeforeReduction(b: QBook, id: nat, left: nat, l: LevelKey, k: nat) returns (k0: nat)
    requires WellFormed(b) && id in b.orders
    requires l in ReducedTo(b, id, left).levels && k < |ReducedTo(b, id, left).levels[l]|
    ensures l in b.levels && k0 < |b.levels[l]|
    ensures b.levels[l][k0].id == ReducedTo(b, id, left).levels[l][k].id
    ensures b.levels[l][k0].arrival == ReducedTo(b, id, left).levels[l][k].arrival
    ensures left == 0 && l == b.orders[id].level ==> b.levels[l][k0].arrival != b.orders[id].arrival
  {
    ListAfterReduction(b, id, left, l);
    var loc := b.orders[id];
    var f := Find(b.levels[loc.level], loc.arrival);
    k0 := if l == loc.level && left == 0 && k >= f then k + 1 else k;
  }

  lemma ReducedIndexed(b: QBook, id: nat, left: nat)
    requires WellFormed(b) && Indexed(b) && id in b.orders
    ensures Indexed(ReducedTo(b, id, left))
  {
    var b' := ReducedTo(b, id, left);
    forall l, k: nat | l in b'.levels && k < |b'.levels[l]| ensures Points(b', l, k) {
      var k0 := EntryBeforeReduction(b, id, left, l, k);
      assert Points(b, l, k0);
    }
  }

  lemma ReduceByIndexed(b: QBook, id: nat, qty: nat)
    requires WellFormed(b) && Indexed(b)
    ensures Indexed(ReduceBy(b, id, qty))
  {
    if id in b.orders { ReducedIndexed(b, id, LeftOf(b, id, qty)); }
  }

  lemma ReplaceIndexed(b: QBook, id: nat, key: LevelKey, newId: nat, qty: nat)
    requires WellFormed(b) && Indexed(b) && id in b.orders
    ensures Indexed(Inserted(ReduceBy(b, id, EntryOf(b, id).qty), key, newId, qty)) <==> newId !in b.orders - {id}
  {
    var gone := ReduceBy(b, id, EntryOf(b, id).qty);
    ReduceByIsWellFormed(b, id, EntryOf(b, id).qty);
    ReduceByIndexed(b, id, EntryOf(b, id).qty);
    assert gone.orders == b.orders - {id};
    InsertIndexed(gone, key, newId, qty);
  }

  /** Entries and index stay in correspondence under every message, except precisely
      one that re-uses the id of an order still resting. */
  lemma AppliedKeepsIndexed(b: QBook, m: Msg)
    requires WellFormed(b) && Indexed(b)
    ensures Indexed(Applied(b, m)) <==> !Reuses(b, m)
  {
    match m {
      case AddOrder(h, id, side, price, qty) => InsertIndexed(b, LevelKey(h.instrument, side, price), id, qty);
      case Execute(_, id, qty) => ReduceByIndexed(b, id, qty);
      case Cancel(_, id, qty) => ReduceByIndexed(b, id, qty);
      case Delete(_, id) => if id in b.orders { ReduceByIndexed(b, id, EntryOf(b, id).qty); }
      case Replace(h, id, newId, price, qty) =>
        if id in b.orders {
          ReplaceIndexed(b, id, LevelKey(h.instrument, b.orders[id].level.side, price), newId, qty);
        }
    }
  }

  // ----- conservation -----

  /** The weight of a list, counting only the levels that `sel` picks. */
  function Picked(sel: LevelKey -> bool): (LevelKey, seq<QEntry>) -> nat {
    (key, list) => if sel(key) then ListQty(list) else 0
  }

  lemma InsertTotal(b: QBook, key: LevelKey, id: nat, qty: nat, sel: LevelKey -> bool)
    ensures Total(Inserted(b, key, id, qty).levels, Picked(sel))
            == Total(b.levels, Picked(sel)) + if sel(key) then qty else 0
  {
    var list := ListAt(b, key) + [QEntry(id, qty, b.nextSeq)];
    assert list[..|list| - 1] == ListAt(b, key);
    assert ListQty(list) == ListQty(ListAt(b, key)) + qty;
    assert Picked(sel)(key, list) == if sel(key) then ListQty(list) else 0;
    if key in b.levels {
      assert Picked(sel)(key, b.levels[key]) == if sel(key) then ListQty(b.levels[key]) else 0;
    }
    TotalUpdate(b.levels, Picked(sel), key, list);
  }

  lemma ReducedTotal(b: QBook, id: nat, left: nat, sel: LevelKey -> bool)
    requires WellFormed(b)
    requires id in b.orders && left <= EntryOf(b, id).qty
    ensures Total(ReducedTo(b, id, left).levels, Picked(sel))
            == Total(b.levels, Picked(sel)) - if sel(b.orders[id].level) then EntryOf(b, id).qty - left else 0
    ensures sel(b.orders[id].level) ==> EntryOf(b, id).qty <= Total(b.levels, Picked(sel))
  {
    var key := b.orders[id].level;
    ListAfterReduction(b, id, left, key);
    var list := b.levels[key];
    var k := Find(list, b.orders[id].arrival);
    ListQtyShrunk(list, k, left, b.nextSeq);
    TotalRemove(b.levels, Picked(sel), key);
    TotalUpdate(b.levels, Picked(sel), key, Shrunk(list, k, left));
  }

  /** What a message adds at the picked levels. */
  function AddedAt(b: QBook, m: Msg, sel: LevelKey -> bool): nat {
    match m
    case AddOrder(h, _, side, price, qty) => if sel(LevelKey(h.instrument, side, price)) then qty else 0
    case Replace(h, id, _, price, qty) =>
      if id in b.orders && sel(LevelKey(h.instrument, b.orders[id].level.side, price)) then qty else 0
    case _ => 0
  }

  /** What a message's reported reduction removes at the picked levels. */
  function RemovedAt(eff: Effect, sel: LevelKey -> bool): nat {
    if eff.reduction.Some? && sel(eff.reduction.value.level) then eff.reduction.value.qty else 0
  }

  lemma ReduceByTotal(b: QBook, id: nat, qty: nat, isExecute: bool, sel: LevelKey -> bool)
    requires WellFormed(b)
    ensures var removed := RemovedAt(ReductionOf(b, id, qty, isExecute), sel);
            && removed <= Total(b.levels, Picked(sel))
            && Total(ReduceBy(b, id, qty).levels, Picked(sel)) == Total(b.levels, Picked(sel)) - removed
  {
    if id in b.orders { ReducedTotal(b, id, LeftOf(b, id, qty), sel); }
  }

  /** The quantity at the picked levels changes by `added` less the reported reduction. */
  ghost predicate Balances(b: QBook, after: QBook, added: nat, eff: Effect, sel: LevelKey -> bool) {
    && RemovedAt(eff, sel) <= Total(b.levels, Picked(sel))
    && Total(after.levels, Picked(sel)) == Total(b.levels, Picked(sel)) + added - RemovedAt(eff, sel)
  }

  lemma TakeBalances(b: QBook, m: Msg, sel: LevelKey -> bool)
    requires WellFormed(b) && (m.Execute? || m.Cancel?)
    ensures Balances(b, Applied(b, m), AddedAt(b, m, sel), EffectOf(b, m), sel)
  {
    ReduceByTotal(b, m.id, m.qty, m.Execute?, sel);
  }

  lemma DeleteBalances(b: QBook, m: Msg, sel: LevelKey -> bool)
    requires WellFormed(b) && m.Delete?
    ensures Balances(b, Applied(b, m), AddedAt(b, m, sel), EffectOf(b, m), sel)
  {
    if m.id in b.orders { ReduceByTotal(b, m.id, EntryOf(b, m.id).qty, false, sel); }
  }

  lemma InsertBalances(b: QBook, m: Msg, sel: LevelKey -> bool)
    requires WellFormed(b) && (m.AddOrder? || m.Replace?)
    ensures Balances(b, Applied(b, m), AddedAt(b, m, sel), EffectOf(b, m), sel)
  {
    match m {
      case AddOrder(h, id, side, price, qty) => InsertTotal(b, LevelKey(h.instrument, side, price), id, qty, sel);
      case Replace(h, id, newId, price, qty) =>
        if id in b.orders {
          var all := EntryOf(b, id).qty;
          ReduceByTotal(b, id, all, false, sel);
          InsertTotal(ReduceBy(b, id, all), LevelKey(h.instrument, b.orders[id].level.side, price), newId, qty, sel);
        }
    }
  }

  /** The quantity at any set of levels changes by what the message adds there less what
      it reports removed there; over all levels this is conservation of resting quantity. */
  lemma AppliedTotal(b: QBook, m: Msg, sel: LevelKey -> bool)
    requires WellFormed(b)
    ensures Balances(b, Applied(b, m), AddedAt(b, m, sel), EffectOf(b, m), sel)
  {
    if m.Delete? {
      DeleteBalances(b, m, sel);
    } else if m.Execute? || m.Cancel? {
      TakeBalances(b, m, sel);
    } else {
      InsertBalances(b, m, sel);
    }
  }

  function AllLevels(): LevelKey -> bool { key => true }

  function AddedOver(b: QBook, ms: seq<Msg>): nat {
    if ms == [] then 0 else
    AddedOver(b, ms[..|ms| - 1]) + AddedAt(Replay(b, ms[..|ms| - 1]), ms[|ms| - 1], AllLevels())
  }

  function RemovedOver(b: QBook, ms: seq<Msg>): nat {
    if ms == [] then 0 else
    RemovedOver(b, ms[..|ms| - 1]) + RemovedAt(EffectOf(Replay(b, ms[..|ms| - 1]), ms[|ms| - 1]), AllLevels())
  }

  /** Over every stream from an empty book, resting quantity plus reported reductions
      is the quantity added. */
  lemma {:induction false} QuantityIsConserved(ms: seq<Msg>)
    ensures var b := QBook(map[], map[], 0);
            Total(Replay(b, ms).levels, Picked(AllLevels())) + RemovedOver(b, ms) == AddedOver(b, ms)
  {
    if ms == [] {
    } else {
      var rest := ms[..|ms| - 1];
      QuantityIsConserved(rest);
      ReplayIsWellFormed(QBook(map[], map[], 0), rest);
      AppliedTotal(Replay(QBook(map[], map[], 0), rest), ms[|ms| - 1], AllLevels());
    }
  }

  // ----- the objects -----

  class QueuePositionBook {
    var levels: map<LevelKey, seq<QEntry>>
    var orders: map<nat, QLoc>
    var nextSeq: nat

    ghost function Value(): QBook
      reads this
    {
      QBook(levels, orders, nextSeq)
    }

    ghost predicate Valid()
      reads this
    {
      WellFormed(Value())
    }

    constructor ()
      ensures Valid() && Value() == QBook(map[], map[], 0)
    {
      levels, orders, nextSeq := map[], map[], 0;
    }

    method PushBack(key: LevelKey, id: nat, qty: nat)
      requires Valid()
      modifies this
      ensures Valid() && Value() == Inserted(old(Value()), key, id, qty)
    {
      InsertedIsWellFormed(Value(), key, id, qty);
      var list := if key in levels then levels[key] else [];
      levels := levels[key := list + [QEntry(id, qty, nextSeq)]];
      orders := orders[id := QLoc(key, nextSeq)];
      nextSeq := nextSeq + 1;
    }

    /** Leave `left` in the entry of `id`; an exhausted entry, an emptied level and the
        index entry go. */
    method Shrink(id: nat, left: nat)
      requires id in orders && Resolves(Value(), id, orders[id])
      modifies this
      ensures Value() == ReducedTo(old(Value()), id, left)
    {
      var loc := orders[id];
      var list := levels[loc.level];
      var k := Find(list, loc.arrival);
      if left == 0 {
        list := list[..k] + list[k + 1..];
        if list == [] {
          levels := levels - {loc.level};
        } else {
          levels := levels[loc.level := list];
        }
        orders := orders - {id};
      } else {
        levels := levels[loc.level := list[k := list[k].(qty := left)]];
      }
    }

    method ShrinkValid(id: nat, left: nat)
      requires Valid() && id in orders
      modifies this
      ensures Valid() && Value() == ReducedTo(old(Value()), id, left)
    {
      assert Resolves(Value(), id, orders[id]);
      ReducedIsWellFormed(Value(), id, left);
      Shrink(id, left);
    }

    method Reduce(id: nat, qty: nat, isExecute: bool) returns (eff: Effect)
      requires Valid()
      modifies this
      ensures Valid() && Value() == ReduceBy(old(Value()), id, qty)
      ensures eff == ReductionOf(old(Value()), id, qty, isExecute)
    {
      if id !in orders { return Effect([], None); }
      var left: nat;
      eff, left := ReductionAt(id, qty, isExecute);
      ShrinkValid(id, left);
    }

    /** The reduction to report, and what it leaves. */
    method ReductionAt(id: nat, qty: nat, isExecute: bool) returns (eff: Effect, left: nat)
      requires Valid() && id in orders
      ensures eff == ReductionOf(Value(), id, qty, isExecute) && left == LeftOf(Value(), id, qty)
    {
      var loc := orders[id];
      var entry := EntryAt(id);
      var taken := Min(qty, entry.qty);
      eff := Effect([loc.level], Some(Reduction(loc.level, entry.arrival, taken, isExecute)));
      left := entry.qty - taken;
    }

    /** The entry the index names. */
    method EntryAt(id: nat) returns (entry: QEntry)
      requires Valid() && id in orders
      ensures entry == EntryOf(Value(), id)
    {
      assert Resolves(Value(), id, orders[id]);
      var list := levels[orders[id].level];
      entry := list[Find(list, orders[id].arrival)];
    }

    method Apply(m: Msg) returns (eff: Effect)
      requires Valid()
      modifies this
      ensures Valid() && Value() == Applied(old(Value()), m)
      ensures eff == EffectOf(old(Value()), m)
    {
      eff := Effect([], None);
      match m {
        case AddOrder(h, id, side, price, qty) =>
          PushBack(LevelKey(h.instrument, side, price), id, qty);
          eff := Effect([LevelKey(h.instrument, side, price)], None);
        case Execute(_, id, qty) => eff := Reduce(id, qty, true);
        case Cancel(_, id, qty) => eff := Reduce(id, qty, false);
        case Delete(_, id) =>
          if id in orders {
            var entry := EntryAt(id);
            eff := Reduce(id, entry.qty, false);
          }
        case Replace(h, id, newId, price, qty) =>
          if id in orders {
            var key := LevelKey(h.instrument, orders[id].level.side, price);
            var entry := EntryAt(id);
            eff := Reduce(id, entry.qty, false);
            PushBack(key, newId, qty);
            eff := eff.(touched := eff.touched + [key]);
          }
      }
    }

    /** The level's total, accumulated in 64 bits and returned in 32. */
    method LevelTotalQty(key: LevelKey) returns (q: nat)
      requires Valid()
      ensures q == ToUint32(LevelQty(Value(), key))
    {
      if key !in levels { return 0; }
      var list := levels[key];
      var total := 0;
      for i := 0 to |list|
        invariant total == ListQty(list[..i])
      {
        assert list[..i + 1][..i] == list[..i];
        total := total + list[i].qty;
      }
      assert list[..|list|] == list;
      q := ToUint32(total);
    }

    /** The reference oracle: scan the level's list. */
    method QtyAheadOfSeq(key: LevelKey, bound: nat) returns (total: nat)
      requires Valid()
      ensures total == QtyAhead(Value(), key, bound)
    {
      if key !in levels { return 0; }
      var list := levels[key];
      total := 0;
      for i := 0 to |list|
        invariant total == Ahead(list[..i], bound)
      {
        assert list[..i + 1][..i] == list[..i];
        if list[i].arrival < bound { total := total + list[i].qty; }
      }
      assert list[..|list|] == list;
    }

    /** Everything resting anywhere, in whatever order the levels are visited. */
    method TotalRestingQty() returns (total: nat)
      requires Valid()
      ensures total == Total(Value().levels, Picked(AllLevels()))
    {
      total := 0;
      var rest := levels;
      while rest != map[]
        invariant total + Total(rest, Picked(AllLevels())) == Total(levels, Picked(AllLevels()))
        decreases |rest|
      {
        var key :| key in rest;
        TotalRemove(rest, Picked(AllLevels()), key);
        var list := rest[key];
        for i := 0 to |list|
          invariant total + ListQty(list) - ListQty(list[..i]) + Total(rest - {key}, Picked(AllLevels()))
                    == Total(levels, Picked(AllLevels()))
        {
          assert list[..i + 1][..i] == list[..i];
          total := total + list[i].qty;
        }
        assert list[..|list|] == list;
        rest := rest - {key};
      }
    }
  }

  class FastAheadTracker {
    const level: LevelKey
    const arrival: nat
    var ahead: int
    var front: bool

    ghost function Value(): Tracker
      reads this
    {
      Tracker(level, arrival, ahead, front)
    }

    constructor (level: LevelKey, arrival: nat, aheadQty: nat)
      ensures Value() == Placed(level, arrival, aheadQty)
    {
      this.level, this.arrival := level, arrival;
      ahead, front := ToInt64(aheadQty), false;
      new;
      if ahead <= 0 {
        ahead, front := 0, true;
      }
    }

    method Consume(eff: Effect) returns (filled: bool)
      modifies this
      ensures (Value(), filled) == Consumed(old(Value()), eff)
    {
      if eff.reduction.None? { return false; }
      var r := eff.reduction.value;
      if r.level != level { return false; }
      var wasFront := front;
      if r.arrival < arrival {
        ahead := ahead - r.qty;
        if ahead < 0 { ahead := 0; }
        if ahead == 0 { front := true; }
      }
      return wasFront && r.isExecute;
    }
  }
}
