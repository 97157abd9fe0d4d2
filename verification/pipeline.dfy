/**
 The replay path from end to end: the generator's stream, dispatched with retries
 through any number of shards under any schedule, ends in exact books.
 */
module Pipeline {
  import opened Protocol
  import opened OrderBooks
  import opened OrderMaps
  import opened Masks
  import opened Normalizers
  import opened NormalizerProtocol
  import Simulator = MarketSimulators

  /** The instrument that owns an id, by the record of who inserted it. */
  function OwnerBy(owners: map<nat, nat>): nat -> nat {
    id => if id in owners then owners[id] else 0
  }

  lemma {:induction false} OwnersRespected(ms: seq<Msg>, owners: map<nat, nat>)
    requires Simulator.ConsistentStream(ms)
    requires forall id :: id in Simulator.OwnersOver(map[], ms) ==>
               id in owners && owners[id] == Simulator.OwnersOver(map[], ms)[id]
    ensures OwnedStream(OwnerBy(owners), ms)
  {
    if ms == [] {
    } else {
      OwnersRespected(ms[..|ms| - 1], owners);
    }
  }

  /** Clean for the whole map is clean for one instrument's part of it. */
  lemma CleanRestricts(orders: Orders, owner: nat -> nat, m: Msg)
    requires Clean(orders, m)
    ensures Clean(Restrict(orders, owner, m.header.instrument), m)
  {
  }

  /** One instrument's replay holds that instrument's part of the whole order map, and
      its own messages are clean. */
  lemma {:induction false} InstrumentReplay(ms: seq<Msg>, owner: nat -> nat, i: nat, reference: int)
    requires Simulator.ConsistentStream(ms) && OwnedStream(owner, ms)
    ensures var v := Replay(Opening(reference), Of(ms, i));
            && v.orders == Restrict(Simulator.OrdersOver(map[], ms), owner, i)
            && CleanStream(Opening(reference), Of(ms, i))
  {
    if ms == [] {
      assert Restrict(map[], owner, i) == map[];
    } else {
      var rest, m := ms[..|ms| - 1], ms[|ms| - 1];
      InstrumentReplay(rest, owner, i, reference);
      OfSnoc(ms, i, Opening(reference));
      var orders := Simulator.OrdersOver(map[], rest);
      Simulator.NothingIsTruncated(orders, Simulator.OwnersOver(map[], rest), m);
      if m.header.instrument == i {
        RestrictOwn(orders, owner, m);
        CleanRestricts(orders, owner, m);
        var own := Of(ms, i);
        assert own[..|own| - 1] == Of(rest, i);
      } else {
        RestrictOther(orders, owner, m, i);
        assert Of(ms, i) == Of(rest, i);
      }
    }
  }

  lemma MirrorsRestricted(list: seq<Simulator.LiveOrder>, orders: Orders, owners: map<nat, nat>, i: nat)
    requires Simulator.Mirrors(list, orders, owners, i)
    ensures Simulator.Mirrors(list, Restrict(orders, OwnerBy(owners), i), owners, i)
  {
  }

  /**
   Any stream the generator can emit for up to 512 instruments, any number of shards,
   any schedule of the threads, whatever prices the books are centred on: when `drain_and_stop` returns, every instrument's book
   has exact touches, holds at every level exactly its live orders, and its live orders
   are exactly those the generator still has resting.
   */
  lemma ReplayEndsExact(refs: seq<int>, ds: seq<Simulator.Draw>, c: Config, acts: seq<Action>, i: nat, centre: int)
    requires |refs| <= NUM_INSTRUMENTS && i < |refs| && Simulator.Drawable(Simulator.Start(refs), ds)
    requires Proper(c) && c.retry && c.stream == Simulator.Stream(Simulator.Start(refs), ds)
    requires c.opening[i] == Centred(BLANK, centre)
    requires NormalizerProtocol.Runs(c, Start(c), acts) && Finished(c, NormalizerProtocol.End(c, Start(c), acts))
    ensures var lanes := NormalizerProtocol.End(c, Start(c), acts).lanes;
            var owners := Simulator.OwnersOver(map[], c.stream);
            && ShardOf(i, c.shards) < |lanes|
            && LocalOf(i, c.shards) < |lanes[ShardOf(i, c.shards)].state.books|
            && var v := View(lanes[ShardOf(i, c.shards)].state, OwnerBy(owners), i, c.shards);
               && Sound(v)
               && i < |Simulator.SimAfter(Simulator.Start(refs), ds).live|
               && Simulator.Mirrors(Simulator.SimAfter(Simulator.Start(refs), ds).live[i], v.orders, owners, i)
  {
    var ms := c.stream;
    var owners := Simulator.OwnersOver(map[], ms);
    var owner := OwnerBy(owners);
    Simulator.StreamIsConsistent(refs, ds);
    OwnersRespected(ms, owners);
    RunIsInv(c, acts);
    assert c.stream[..|c.stream|] == c.stream;
    EveryScheduleIsSequential(c, acts, owner, i);
    ShardShowsInstrument(c.opening, ms, owner, i, 1);
    InstrumentReplay(ms, owner, i, centre);
    OpeningIsSound(centre);
    ReplayIsSound(Opening(centre), Of(ms, i));
    MirrorsRestricted(Simulator.SimAfter(Simulator.Start(refs), ds).live[i], Simulator.OrdersOver(map[], ms), owners, i);
  }
}
