/**
 The order-flow generator.  Every random draw is a parameter, constrained only to the
 range its distribution has, so what is proved holds for every seed and every generator.
 */
module MarketSimulators {
  import opened Protocol
  import opened OrderBooks
  import opened OrderMaps

  datatype LiveOrder = LiveOrder(id: nat, side: Side, price: int, qty: nat)

  datatype Sim = Sim(refs: seq<int>, live: seq<seq<LiveOrder>>, nextId: nat)

  datatype Choice = DrawExecute | DrawCancel | DrawDelete | DrawReplace

  /** One message's worth of randomness. */
  datatype Draw = Draw(instrument: nat, drift: Option<int>, add: bool, side: Side, offset: nat, qty: nat,
                       pick: nat, choice: Choice, taken: nat)

  function Start(refs: seq<int>): Sim {
    Sim(refs, seq(|refs|, _ => []), 1)
  }

  predicate Adds(s: Sim, d: Draw)
    requires d.instrument < |s.live|
  {
    s.live[d.instrument] == [] || d.add
  }

  /** The ranges of the distributions. */
  predicate Possible(s: Sim, d: Draw) {
    && |s.refs| == |s.live| && d.instrument < |s.refs|
    && (d.drift.Some? ==> -3 <= d.drift.value <= 3)
    && 1 <= d.offset <= 200
    && 1 <= d.qty <= 500
    && (!Adds(s, d) ==>
          && d.pick < |s.live[d.instrument]|
          && (d.choice.DrawExecute? || d.choice.DrawCancel? ==> 1 <= d.taken <= s.live[d.instrument][d.pick].qty))
  }

  function Reference(s: Sim, d: Draw): int
    requires Possible(s, d)
  {
    s.refs[d.instrument] + if d.drift.Some? then d.drift.value else 0
  }

  function Quoted(reference: int, side: Side, offset: nat): int {
    if side.Buy? then reference - offset else reference + offset
  }

  function Emitted(s: Sim, d: Draw): Msg
    requires Possible(s, d)
  {
    var h := Header(d.instrument, 0);
    if Adds(s, d) then AddOrder(h, s.nextId, d.side, Quoted(Reference(s, d), d.side, d.offset), d.qty) else
    var lo := s.live[d.instrument][d.pick];
    match d.choice
    case DrawExecute => Execute(h, lo.id, d.taken)
    case DrawCancel => Cancel(h, lo.id, d.taken)
    case DrawDelete => Delete(h, lo.id)
    case DrawReplace => Replace(h, lo.id, s.nextId, Quoted(Reference(s, d), lo.side, d.offset), d.qty)
  }

  /** Remove one element by moving the last one into its place. */
  function SwapPop(list: seq<LiveOrder>, i: nat): seq<LiveOrder>
    requires i < |list|
  {
    list[i := list[|list| - 1]][..|list| - 1]
  }

  function LiveAfter(s: Sim, d: Draw): seq<LiveOrder>
    requires Possible(s, d)
  {
    var list := s.live[d.instrument];
    if Adds(s, d) then
      list + [LiveOrder(s.nextId, d.side, Quoted(Reference(s, d), d.side, d.offset), d.qty)]
    else
      var lo := list[d.pick];
      match d.choice
      case DrawDelete => SwapPop(list, d.pick)
      case DrawReplace =>
        SwapPop(list, d.pick) + [LiveOrder(s.nextId, lo.side, Quoted(Reference(s, d), lo.side, d.offset), d.qty)]
      case _ =>
        if lo.qty == d.taken then SwapPop(list, d.pick) else list[d.pick := lo.(qty := lo.qty - d.taken)]
  }

  function After(s: Sim, d: Draw): Sim
    requires Possible(s, d)
  {
    Sim(s.refs[d.instrument := Reference(s, d)], s.live[d.instrument := LiveAfter(s, d)],
        if Adds(s, d) || d.choice.DrawReplace? then s.nextId + 1 else s.nextId)
  }

  // ----- self-consistency -----

  function Rests(lo: LiveOrder): Resting {
    Resting(lo.side, lo.price, lo.qty)
  }

  predicate Distinct(list: seq<LiveOrder>) {
    forall j, k :: 0 <= j < k < |list| ==> list[j].id != list[k].id
  }

  ghost predicate HasId(list: seq<LiveOrder>, id: nat) {
    exists k :: 0 <= k < |list| && list[k].id == id
  }

  /** The live list of one instrument and the order map say the same of every id that
      the instrument owns. */
  ghost predicate Mirrors(list: seq<LiveOrder>, orders: Orders, owners: map<nat, nat>, i: nat) {
    && Distinct(list)
    && (forall k :: 0 <= k < |list| ==>
          && list[k].qty >= 1
          && list[k].id in owners && owners[list[k].id] == i
          && list[k].id in orders && orders[list[k].id] == Rests(list[k]))
    && (forall id :: id in orders && id in owners && owners[id] == i ==> HasId(list, id))
  }

  /** The generator's live orders are exactly the receiver's order map, and every id
      ever used belongs to one instrument and is older than the next id. */
  ghost predicate Agree(s: Sim, orders: Orders, owners: map<nat, nat>) {
    && |s.refs| == |s.live|
    && (forall id :: id in owners ==> owners[id] < |s.live| && id < s.nextId)
    && (forall id :: id in orders ==> id in owners)
    && (forall i :: 0 <= i < |s.live| ==> Mirrors(s.live[i], orders, owners, i))
  }

  /** Everything a feed promises of one message: inserted ids were never used, named
      orders rest on the message's instrument, and no quantity exceeds what rests. */
  predicate Consistent(orders: Orders, owners: map<nat, nat>, m: Msg) {
    match m
    case AddOrder(_, id, _, _, qty) => id !in owners && id !in orders && qty >= 1
    case Execute(h, id, qty) => id in orders && id in owners && owners[id] == h.instrument && 1 <= qty <= orders[id].qty
    case Cancel(h, id, qty) => id in orders && id in owners && owners[id] == h.instrument && 1 <= qty <= orders[id].qty
    case Delete(h, id) => id in orders && id in owners && owners[id] == h.instrument
    case Replace(h, id, newId, _, qty) =>
      && id in orders && id in owners && owners[id] == h.instrument
      && newId !in owners && newId !in orders && qty >= 1
  }

  function OwnersAfter(owners: map<nat, nat>, m: Msg): map<nat, nat> {
    match m
    case AddOrder(h, id, _, _, _) => owners[id := h.instrument]
    case Replace(h, _, newId, _, _) => owners[newId := h.instrument]
    case _ => owners
  }

  lemma SwapPopKeeps(list: seq<LiveOrder>, i: nat)
    requires Distinct(list) && i < |list|
    ensures Distinct(SwapPop(list, i))
    ensures forall k :: 0 <= k < |SwapPop(list, i)| ==>
              SwapPop(list, i)[k] == list[if k == i then |list| - 1 else k] && SwapPop(list, i)[k].id != list[i].id
    ensures forall id :: HasId(list, id) && id != list[i].id ==> HasId(SwapPop(list, i), id)
  {
    var n := |list| - 1;
    var out := SwapPop(list, i);
    forall id | HasId(list, id) && id != list[i].id ensures HasId(out, id) {
      var k :| 0 <= k < |list| && list[k].id == id;
      assert out[if k == n then i else k].id == id;
    }
  }

  lemma MirrorsOther(list: seq<LiveOrder>, orders: Orders, owners: map<nat, nat>, i: nat, m: Msg)
    requires Mirrors(list, orders, owners, i) && Consistent(orders, owners, m) && m.header.instrument != i
    ensures Mirrors(list, Transition(orders, m).0, OwnersAfter(owners, m), i)
  {
  }

  lemma MirrorsAdd(list: seq<LiveOrder>, orders: Orders, owners: map<nat, nat>, i: nat, lo: LiveOrder)
    requires Mirrors(list, orders, owners, i) && lo.id !in owners && lo.qty >= 1
    ensures Mirrors(list + [lo], orders[lo.id := Rests(lo)], owners[lo.id := i], i)
  {
    var list' := list + [lo];
    assert list'[|list|] == lo;
    forall id | HasId(list, id) || id == lo.id ensures HasId(list', id) {
      if id != lo.id {
        var k :| 0 <= k < |list| && list[k].id == id;
        assert list'[k].id == id;
      }
    }
  }

  lemma MirrorsDrop(list: seq<LiveOrder>, orders: Orders, owners: map<nat, nat>, i: nat, k: nat)
    requires Mirrors(list, orders, owners, i) && k < |list|
    ensures Mirrors(SwapPop(list, k), orders - {list[k].id}, owners, i)
  {
    SwapPopKeeps(list, k);
  }

  lemma MirrorsTake(list: seq<LiveOrder>, orders: Orders, owners: map<nat, nat>, i: nat, k: nat, left: nat)
    requires Mirrors(list, orders, owners, i) && k < |list| && left >= 1
    ensures Mirrors(list[k := list[k].(qty := left)], orders[list[k].id := Rests(list[k].(qty := left))], owners, i)
  {
    var list' := list[k := list[k].(qty := left)];
    forall id | HasId(list, id) ensures HasId(list', id) {
      var j :| 0 <= j < |list| && list[j].id == id;
      assert list'[j].id == id;
    }
  }

  lemma EmissionIsConsistent(s: Sim, d: Draw, orders: Orders, owners: map<nat, nat>)
    requires Agree(s, orders, owners) && Possible(s, d)
    ensures Consistent(orders, owners, Emitted(s, d))
  {
    assert Mirrors(s.live[d.instrument], orders, owners, d.instrument);
  }

  ghost predicate MirrorsAfter(s: Sim, d: Draw, orders: Orders, owners: map<nat, nat>)
    requires Possible(s, d)
  {
    var m := Emitted(s, d);
    Mirrors(LiveAfter(s, d), Transition(orders, m).0, OwnersAfter(owners, m), d.instrument)
  }

  lemma AddMirrors(s: Sim, d: Draw, orders: Orders, owners: map<nat, nat>)
    requires Agree(s, orders, owners) && Possible(s, d) && Adds(s, d)
    ensures MirrorsAfter(s, d, orders, owners)
  {
    assert Mirrors(s.live[d.instrument], orders, owners, d.instrument);
    MirrorsAdd(s.live[d.instrument], orders, owners, d.instrument,
               LiveOrder(s.nextId, d.side, Quoted(Reference(s, d), d.side, d.offset), d.qty));
  }

  lemma ReplaceMirrors(s: Sim, d: Draw, orders: Orders, owners: map<nat, nat>)
    requires Agree(s, orders, owners) && Possible(s, d) && !Adds(s, d) && d.choice.DrawReplace?
    ensures MirrorsAfter(s, d, orders, owners)
  {
    var list := s.live[d.instrument];
    var lo := list[d.pick];
    assert Mirrors(list, orders, owners, d.instrument);
    MirrorsDrop(list, orders, owners, d.instrument, d.pick);
    MirrorsAdd(SwapPop(list, d.pick), orders - {lo.id}, owners, d.instrument,
               LiveOrder(s.nextId, lo.side, Quoted(Reference(s, d), lo.side, d.offset), d.qty));
  }

  lemma ReductionMirrors(s: Sim, d: Draw, orders: Orders, owners: map<nat, nat>)
    requires Agree(s, orders, owners) && Possible(s, d) && !Adds(s, d) && !d.choice.DrawReplace?
    ensures MirrorsAfter(s, d, orders, owners)
  {
    var list := s.live[d.instrument];
    var lo := list[d.pick];
    assert Mirrors(list, orders, owners, d.instrument);
    if d.choice.DrawDelete? || lo.qty == d.taken {
      MirrorsDrop(list, orders, owners, d.instrument, d.pick);
    } else {
      MirrorsTake(list, orders, owners, d.instrument, d.pick, lo.qty - d.taken);
    }
  }

  /** The emitting instrument's list keeps mirroring the order map. */
  lemma EmissionMirrors(s: Sim, d: Draw, orders: Orders, owners: map<nat, nat>)
    requires Agree(s, orders, owners) && Possible(s, d)
    ensures MirrorsAfter(s, d, orders, owners)
  {
    if Adds(s, d) {
      AddMirrors(s, d, orders, owners);
    } else if d.choice.DrawReplace? {
      ReplaceMirrors(s, d, orders, owners);
    } else {
      ReductionMirrors(s, d, orders, owners);
    }
  }

  /** Every message the generator can emit is self-consistent, and the receiver's order
      map keeps agreeing with the generator's live set. */
  lemma EmissionKeepsAgreement(s: Sim, d: Draw, orders: Orders, owners: map<nat, nat>)
    requires Agree(s, orders, owners) && Possible(s, d)
    ensures var m := Emitted(s, d);
            && Consistent(orders, owners, m)
            && m.header.instrument == d.instrument
            && Agree(After(s, d), Transition(orders, m).0, OwnersAfter(owners, m))
  {
    var m := Emitted(s, d);
    EmissionIsConsistent(s, d, orders, owners);
    EmissionMirrors(s, d, orders, owners);
    forall i | 0 <= i < |s.live|
      ensures Mirrors(After(s, d).live[i], Transition(orders, m).0, OwnersAfter(owners, m), i)
    {
      if i != d.instrument {
        MirrorsOther(s.live[i], orders, owners, i, m);
      }
    }
  }

  // ----- what a draw emits -----

  /** The prices a side may be quoted at: 1 to 200 ticks below the reference to buy, above it to sell. */
  predicate NearReference(side: Side, price: int, reference: int) {
    if side == Buy then reference - 200 <= price <= reference - 1 else reference + 1 <= price <= reference + 200
  }

  /** Where the instrument's reference stands once this draw has moved it. */
  function Moved(s: Sim, d: Draw): int
    requires d.instrument < |s.refs|
  {
    match d.drift
    case None => s.refs[d.instrument]
    case Some(x) => s.refs[d.instrument] + x
  }

  /** The message of every possible draw: an add when nothing rests there or an add is drawn,
      and otherwise what was chosen, of the live order that was picked. */
  lemma EmissionIs(s: Sim, d: Draw)
    requires Possible(s, d)
    ensures var m, live := Emitted(s, d), s.live[d.instrument];
            var sign := (side: Side) => if side == Buy then -1 else 1;
            && m.header == Header(d.instrument, 0)
            && if live == [] || d.add then
                 m.AddOrder? && m.id == s.nextId && m.side == d.side && m.qty == d.qty
                 && m.price == Moved(s, d) + sign(d.side) * d.offset
               else
                 m.id == live[d.pick].id &&
                 match d.choice
                 case DrawExecute => m.Execute? && m.qty == d.taken
                 case DrawCancel => m.Cancel? && m.qty == d.taken
                 case DrawDelete => m.Delete?
                 case DrawReplace =>
                   && m.Replace? && m.newId == s.nextId && m.qty == d.qty
                   && m.price == Moved(s, d) + sign(live[d.pick].side) * d.offset
  {
  }

  /** Where every emitted quote lies, and how large every emitted quantity is. */
  lemma EmissionIsInRange(s: Sim, d: Draw)
    requires Possible(s, d)
    ensures -3 <= Moved(s, d) - s.refs[d.instrument] <= 3
    ensures var m, live := Emitted(s, d), s.live[d.instrument];
            match m
            case AddOrder(_, _, side, price, qty) => NearReference(side, price, Moved(s, d)) && 1 <= qty <= 500
            case Replace(_, id, _, price, qty) =>
              && (exists k :: 0 <= k < |live| && live[k].id == id && NearReference(live[k].side, price, Moved(s, d)))
              && 1 <= qty <= 500
            case Execute(_, id, qty) => exists k :: 0 <= k < |live| && live[k].id == id && 1 <= qty <= live[k].qty
            case Cancel(_, id, qty) => exists k :: 0 <= k < |live| && live[k].id == id && 1 <= qty <= live[k].qty
            case Delete(_, id) => exists k :: 0 <= k < |live| && live[k].id == id
  {
    if !Adds(s, d) { assert s.live[d.instrument][d.pick].id == Emitted(s, d).id; }
  }

  /** The draw that picks a given order and does a given thing to it. */
  function DrawOf(instrument: nat, k: nat, add: bool, choice: Choice, taken: nat): Draw {
    Draw(instrument, None, add, Buy, 1, 1, k, choice, taken)
  }

  /** From any state the generator can add an order, and take from, cancel, delete or replace
      any order that rests: each of the five message types, at every admissible quantity. */
  lemma EveryTypeCanBeEmitted(s: Sim, i: nat, k: nat, qty: nat)
    requires |s.refs| == |s.live| && i < |s.live| && k < |s.live[i]| && 1 <= qty <= s.live[i][k].qty
    ensures exists d :: Possible(s, d) && Emitted(s, d).AddOrder?
    ensures exists d :: Possible(s, d) && Emitted(s, d) == Execute(Header(i, 0), s.live[i][k].id, qty)
    ensures exists d :: Possible(s, d) && Emitted(s, d) == Cancel(Header(i, 0), s.live[i][k].id, qty)
    ensures exists d :: Possible(s, d) && Emitted(s, d) == Delete(Header(i, 0), s.live[i][k].id)
    ensures exists d :: Possible(s, d) && Emitted(s, d).Replace? && Emitted(s, d).id == s.live[i][k].id
  {
    assert Possible(s, DrawOf(i, k, true, DrawExecute, qty)) && Emitted(s, DrawOf(i, k, true, DrawExecute, qty)).AddOrder?;
    assert Possible(s, DrawOf(i, k, false, DrawExecute, qty));
    assert Emitted(s, DrawOf(i, k, false, DrawExecute, qty)) == Execute(Header(i, 0), s.live[i][k].id, qty);
    assert Possible(s, DrawOf(i, k, false, DrawCancel, qty));
    assert Emitted(s, DrawOf(i, k, false, DrawCancel, qty)) == Cancel(Header(i, 0), s.live[i][k].id, qty);
    assert Possible(s, DrawOf(i, k, false, DrawDelete, qty));
    assert Emitted(s, DrawOf(i, k, false, DrawDelete, qty)) == Delete(Header(i, 0), s.live[i][k].id);
    assert Possible(s, DrawOf(i, k, false, DrawReplace, qty));
    assert Emitted(s, DrawOf(i, k, false, DrawReplace, qty)).Replace?;
  }

  /** Where nothing rests an order is added, whatever else was drawn. */
  lemma EmptyListAdds(s: Sim, d: Draw)
    requires |s.refs| == |s.live| && d.instrument < |s.live| && s.live[d.instrument] == []
    requires (d.drift.Some? ==> -3 <= d.drift.value <= 3) && 1 <= d.offset <= 200 && 1 <= d.qty <= 500
    ensures Possible(s, d) && Emitted(s, d).AddOrder? && Emitted(s, d).side == d.side && Emitted(s, d).qty == d.qty
  {
  }

  /** From any state with instruments, every quote in range can be added, on either side. */
  lemma EveryQuoteCanBeAdded(s: Sim, i: nat, drift: int, side: Side, price: int, qty: nat)
    requires |s.refs| == |s.live| && i < |s.live| && -3 <= drift <= 3 && 1 <= qty <= 500
    requires NearReference(side, price, s.refs[i] + drift)
    ensures exists d :: Possible(s, d) && Emitted(s, d) == AddOrder(Header(i, 0), s.nextId, side, price, qty)
                        && After(s, d).refs[i] == s.refs[i] + drift
  {
    var offset := if side == Buy then s.refs[i] + drift - price else price - s.refs[i] - drift;
    var d := Draw(i, Some(drift), true, side, offset, qty, 0, DrawDelete, 1);
    assert Possible(s, d) && Emitted(s, d) == AddOrder(Header(i, 0), s.nextId, side, price, qty);
  }

  /** What a draw leaves alone and what it moves: one instrument's list, its reference by the
      drift, and the next id by one for each id given out. */
  lemma DrawAdvances(s: Sim, d: Draw)
    requires Possible(s, d)
    ensures var s', m := After(s, d), Emitted(s, d);
            && |s'.refs| == |s.refs| && |s'.live| == |s.live|
            && s'.refs[d.instrument] == Moved(s, d)
            && (forall i :: 0 <= i < |s.refs| && i != d.instrument ==> s'.refs[i] == s.refs[i] && s'.live[i] == s.live[i])
            && s'.nextId == s.nextId + (if m.AddOrder? || m.Replace? then 1 else 0)
            && |s'.live[d.instrument]| - |s.live[d.instrument]| ==
               (match m
                case AddOrder(_, _, _, _, _) => 1
                case Delete(_, _) => -1
                case Replace(_, _, _, _, _) => 0
                case _ => if s.live[d.instrument][d.pick].qty == d.taken then -1 else 0)
  {
  }

  // ----- whole streams -----

  predicate Drawable(s: Sim, ds: seq<Draw>)
    decreases |ds|, 0
  {
    ds == [] || (Drawable(s, ds[..|ds| - 1]) && Possible(SimAfter(s, ds[..|ds| - 1]), ds[|ds| - 1]))
  }

  function SimAfter(s: Sim, ds: seq<Draw>): Sim
    requires Drawable(s, ds)
    decreases |ds|, 1
  {
    if ds == [] then s else After(SimAfter(s, ds[..|ds| - 1]), ds[|ds| - 1])
  }

  function Stream(s: Sim, ds: seq<Draw>): (ms: seq<Msg>)
    requires Drawable(s, ds)
    ensures |ms| == |ds|
  {
    if ds == [] then [] else
    Stream(s, ds[..|ds| - 1]) + [Emitted(SimAfter(s, ds[..|ds| - 1]), ds[|ds| - 1])]
  }

  /** The order map of a receiver that never drops a message. */
  function OrdersOver(orders: Orders, ms: seq<Msg>): Orders {
    if ms == [] then orders else Transition(OrdersOver(orders, ms[..|ms| - 1]), ms[|ms| - 1]).0
  }

  function OwnersOver(owners: map<nat, nat>, ms: seq<Msg>): map<nat, nat> {
    if ms == [] then owners else OwnersAfter(OwnersOver(owners, ms[..|ms| - 1]), ms[|ms| - 1])
  }

  predicate ConsistentStream(ms: seq<Msg>) {
    ms == [] ||
    (ConsistentStream(ms[..|ms| - 1])
     && Consistent(OrdersOver(map[], ms[..|ms| - 1]), OwnersOver(map[], ms[..|ms| - 1]), ms[|ms| - 1]))
  }

  lemma StartAgrees(refs: seq<int>)
    ensures Agree(Start(refs), map[], map[])
  {
  }

  /** Every stream the generator can emit is self-consistent from its first message to
      its last, and the receiver ends with exactly the generator's live orders. */
  lemma {:induction false} StreamIsConsistent(refs: seq<int>, ds: seq<Draw>)
    requires Drawable(Start(refs), ds)
    ensures var ms := Stream(Start(refs), ds);
            && ConsistentStream(ms)
            && Agree(SimAfter(Start(refs), ds), OrdersOver(map[], ms), OwnersOver(map[], ms))
            && (forall i :: 0 <= i < |ms| ==> ms[i].header.instrument < |refs|)
            && |SimAfter(Start(refs), ds).refs| == |refs|
  {
    if ds == [] {
      StartAgrees(refs);
    } else {
      var rest := ds[..|ds| - 1];
      StreamIsConsistent(refs, rest);
      var ms := Stream(Start(refs), ds);
      assert ms[..|ms| - 1] == Stream(Start(refs), rest);
      EmissionKeepsAgreement(SimAfter(Start(refs), rest), ds[|ds| - 1],
                             OrdersOver(map[], Stream(Start(refs), rest)), OwnersOver(map[], Stream(Start(refs), rest)));
    }
  }

  /** On a consistent message the receiver's unknown-id branch and its truncation to
      what rests never act. */
  lemma NothingIsTruncated(orders: Orders, owners: map<nat, nat>, m: Msg)
    requires Consistent(orders, owners, m)
    ensures Clean(orders, m)
    ensures !m.AddOrder? ==> m.id in orders && Transition(orders, m).1 != []
    ensures m.Execute? || m.Cancel? ==>
              Transition(orders, m).1 == [Shrink(orders[m.id].side, orders[m.id].price, m.qty)]
  {
  }

  // ----- the object -----

  class MarketSimulator {
    var refs: seq<int>
    var live: seq<seq<LiveOrder>>
    var nextId: nat

    ghost function Value(): Sim
      reads this
    {
      Sim(refs, live, nextId)
    }

    constructor (refs: seq<int>)
      ensures Value() == Start(refs)
    {
      this.refs := refs;
      live := seq(|refs|, _ => []);
      nextId := 1;
    }

    method NextMessage(d: Draw) returns (m: Msg)
      requires Possible(Value(), d)
      modifies this
      ensures m == Emitted(old(Value()), d) && Value() == After(old(Value()), d)
    {
      var i := d.instrument;
      var book := live[i];
      if d.drift.Some? {
        refs := refs[i := refs[i] + d.drift.value];
      }
      if book == [] || d.add {
        var price := refs[i] + if d.side == Buy then -(d.offset as int) else d.offset;
        m := AddOrder(Header(i, 0), nextId, d.side, price, d.qty);
        live := live[i := book + [LiveOrder(nextId, d.side, price, d.qty)]];
        nextId := nextId + 1;
        return;
      }
      var lo := book[d.pick];
      match d.choice {
        case DrawExecute =>
          m := Execute(Header(i, 0), lo.id, d.taken);
          lo := lo.(qty := lo.qty - d.taken);
        case DrawCancel =>
          m := Cancel(Header(i, 0), lo.id, d.taken);
          lo := lo.(qty := lo.qty - d.taken);
        case DrawDelete =>
          m := Delete(Header(i, 0), lo.id);
          lo := lo.(qty := 0);
        case DrawReplace =>
          var price := refs[i] + if lo.side == Buy then -(d.offset as int) else d.offset;
          m := Replace(Header(i, 0), lo.id, nextId, price, d.qty);
          book := book[d.pick := book[|book| - 1]];
          book := book[..|book| - 1];
          live := live[i := book + [LiveOrder(nextId, lo.side, price, d.qty)]];
          nextId := nextId + 1;
          return;
      }
      if lo.qty == 0 {
        book := book[d.pick := book[|book| - 1]];
        live := live[i := book[..|book| - 1]];
      } else {
        live := live[i := book[d.pick := book[d.pick].(qty := lo.qty)]];
      }
    }
  }
}
