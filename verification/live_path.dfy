/**
 The live path from end to end.  Datagrams are lost, full queues refuse, and nobody
 retries; the books still end exact for the messages that got through.
 */
module LivePath {
  import opened Protocol
  import opened OrderBooks
  import opened OrderMaps
  import opened Normalizers
  import opened NormalizerProtocol
  import Simulator = MarketSimulators
  import Pack = Packing
  import Scan = Scanning
  import Framing
  import Wire = Datagrams
  import Whole = Pipeline

  // ----- the publisher's clock -----

  /** The message with its send time. */
  function Stamped(m: Msg, time: nat): Msg {
    m.(header := Header(m.header.instrument, time))
  }

  function StampedStream(ms: seq<Msg>, times: nat -> nat): (r: seq<Msg>)
    ensures |r| == |ms|
  {
    if ms == [] then [] else
    StampedStream(ms[..|ms| - 1], times) + [Stamped(ms[|ms| - 1], times(|ms| - 1))]
  }

  /** Each message keeps everything but its time, and gets the time of its own sending. */
  lemma {:induction false} StampsAreSendTimes(ms: seq<Msg>, times: nat -> nat, k: nat)
    requires k < |ms|
    ensures StampedStream(ms, times)[k].header == Header(ms[k].header.instrument, times(k))
    ensures StampedStream(ms, times)[k].(header := ms[k].header) == ms[k]
  {
    if k == |ms| - 1 {
    } else {
      StampsAreSendTimes(ms[..|ms| - 1], times, k);
    }
  }

  /** Send times change nothing that the order map or a self-consistency check sees. */
  lemma {:induction false} StampingKeepsConsistency(ms: seq<Msg>, times: nat -> nat)
    requires Simulator.ConsistentStream(ms)
    ensures var st := StampedStream(ms, times);
            && Simulator.ConsistentStream(st)
            && Simulator.OrdersOver(map[], st) == Simulator.OrdersOver(map[], ms)
            && Simulator.OwnersOver(map[], st) == Simulator.OwnersOver(map[], ms)
  {
    if ms == [] {
    } else {
      var st := StampedStream(ms, times);
      StampingKeepsConsistency(ms[..|ms| - 1], times);
      assert st[..|st| - 1] == StampedStream(ms[..|ms| - 1], times);
    }
  }

  // ----- every message of the generator fits its struct -----

  /** Ids up to the number of messages, quantities up to 500, references near their start. */
  ghost predicate Bounded(s: Simulator.Sim, refs: seq<int>, n: nat) {
    && |s.refs| == |s.live| == |refs| && s.nextId <= n + 1
    && (forall i :: 0 <= i < |refs| ==> -3 * n <= s.refs[i] - refs[i] <= 3 * n)
    && forall i, k :: 0 <= i < |s.live| && 0 <= k < |s.live[i]| ==> SmallOrder(s.live[i][k], n)
  }

  predicate SmallOrder(lo: Simulator.LiveOrder, n: nat) {
    lo.id <= n && lo.qty <= 500
  }

  lemma LiveStaysSmall(s: Simulator.Sim, d: Simulator.Draw, refs: seq<int>, n: nat)
    requires Bounded(s, refs, n) && Simulator.Possible(s, d)
    ensures forall k :: 0 <= k < |Simulator.LiveAfter(s, d)| ==> SmallOrder(Simulator.LiveAfter(s, d)[k], n + 1)
  {
    assert forall k :: 0 <= k < |s.live[d.instrument]| ==> SmallOrder(s.live[d.instrument][k], n);
  }

  lemma StepBounded(s: Simulator.Sim, d: Simulator.Draw, refs: seq<int>, n: nat)
    requires Bounded(s, refs, n) && Simulator.Possible(s, d)
    ensures Bounded(Simulator.After(s, d), refs, n + 1)
  {
    LiveStaysSmall(s, d, refs, n);
    var s' := Simulator.After(s, d);
    forall i, k | 0 <= i < |s'.live| && 0 <= k < |s'.live[i]| ensures SmallOrder(s'.live[i][k], n + 1) {
      if i != d.instrument { assert SmallOrder(s.live[i][k], n); }
    }
  }

  /** Reference prices with room to drift for `n` messages inside 64 bits. */
  predicate Roomy(refs: seq<int>, n: nat) {
    && |refs| <= NUM_INSTRUMENTS && n < TWO_64
    && forall i :: 0 <= i < |refs| ==> Framing.FitsPrice(refs[i] - 3 * n - 200) && Framing.FitsPrice(refs[i] + 3 * n + 200)
  }

  lemma EmissionFits(s: Simulator.Sim, d: Simulator.Draw, refs: seq<int>, n: nat, time: nat)
    requires Bounded(s, refs, n) && Simulator.Possible(s, d) && Roomy(refs, n + 1) && time < TWO_64
    ensures Framing.Fits(Stamped(Simulator.Emitted(s, d), time))
  {
    if !Simulator.Adds(s, d) { assert SmallOrder(s.live[d.instrument][d.pick], n); }
    assert -3 * (n + 1) <= Simulator.Reference(s, d) - refs[d.instrument] <= 3 * (n + 1);
  }

  lemma RoomyShrinks(refs: seq<int>, n: nat, k: nat)
    requires Roomy(refs, n) && k <= n
    ensures Roomy(refs, k)
  {
  }

  lemma {:induction false} GeneratedFits(refs: seq<int>, ds: seq<Simulator.Draw>, times: nat -> nat)
    requires Simulator.Drawable(Simulator.Start(refs), ds) && Roomy(refs, |ds|)
    requires forall k :: 0 <= k < |ds| ==> times(k) < TWO_64
    ensures Bounded(Simulator.SimAfter(Simulator.Start(refs), ds), refs, |ds|)
    ensures Wire.AllFit(StampedStream(Simulator.Stream(Simulator.Start(refs), ds), times))
  {
    var start := Simulator.Start(refs);
    if ds == [] {
    } else {
      var rest, d, n := ds[..|ds| - 1], ds[|ds| - 1], |ds| - 1;
      RoomyShrinks(refs, |ds|, n);
      GeneratedFits(refs, rest, times);
      var s := Simulator.SimAfter(start, rest);
      StepBounded(s, d, refs, n);
      EmissionFits(s, d, refs, n, times(n));
      StampedSnoc(Simulator.Stream(start, rest), Simulator.Emitted(s, d), times);
    }
  }

  lemma StampedSnoc(ms: seq<Msg>, m: Msg, times: nat -> nat)
    ensures StampedStream(ms + [m], times) == StampedStream(ms, times) + [Stamped(m, times(|ms|))]
  {
    assert (ms + [m])[..|ms|] == ms;
  }

  // ----- subsequences -----

  lemma {:induction false} Reflexive(a: seq<Msg>)
    ensures IsSubsequence(a, a)
  {
    if a == [] {
    } else {
      Reflexive(a[..|a| - 1]);
    }
  }

  lemma {:induction false} Transitive(a: seq<Msg>, b: seq<Msg>, c: seq<Msg>)
    requires IsSubsequence(a, b) && IsSubsequence(b, c)
    ensures IsSubsequence(a, c)
    decreases |b| + |c|
  {
    if a != [] && b != [] && c != [] {
      if IsSubsequence(b, c[..|c| - 1]) {
        Transitive(a, b, c[..|c| - 1]);
      } else if IsSubsequence(a, b[..|b| - 1]) {
        Transitive(a, b[..|b| - 1], c[..|c| - 1]);
      } else {
        Transitive(a[..|a| - 1], b[..|b| - 1], c[..|c| - 1]);
      }
    }
  }

  lemma {:induction false} Extended(a: seq<Msg>, b: seq<Msg>, more: seq<Msg>)
    requires IsSubsequence(a, b)
    ensures IsSubsequence(a, b + more) && IsSubsequence(a + more, b + more)
    decreases |more|
  {
    if more == [] {
      assert b + more == b && a + more == a;
    } else {
      var init, last := more[..|more| - 1], more[|more| - 1];
      Extended(a, b, init);
      Skips(a, b + init, last);
      Skips(a + init, b + init, last);
      assert b + more == b + init + [last] && a + more == a + init + [last];
    }
  }

  /** What survives of a list of runs is a subsequence of the whole. */
  lemma {:induction false} SurvivorsAreSubsequence(gs: seq<seq<Msg>>, arrived: set<nat>)
    ensures IsSubsequence(Pack.Join(Pack.Kept(gs, arrived)), Pack.Join(gs))
  {
    if gs == [] {
    } else {
      var rest, g := gs[..|gs| - 1], gs[|gs| - 1];
      SurvivorsAreSubsequence(rest, arrived);
      var kept := Pack.Kept(rest, arrived);
      Extended(Pack.Join(kept), Pack.Join(rest), g);
      Pack.JoinSnoc(kept, g);
      assert Pack.Join(gs) == Pack.Join(rest) + g;
      if |gs| - 1 in arrived {
        assert Pack.Kept(gs, arrived) == kept + [g];
      } else {
        assert Pack.Kept(gs, arrived) == kept;
      }
    }
  }

  lemma {:induction false} SubsequenceMembers(a: seq<Msg>, b: seq<Msg>, m: Msg)
    requires IsSubsequence(a, b) && m in a
    ensures m in b
    decreases |b|
  {
    var init := b[..|b| - 1];
    if IsSubsequence(a, init) {
      SubsequenceMembers(a, init, m);
    } else if m in a[..|a| - 1] {
      SubsequenceMembers(a[..|a| - 1], init, m);
    }
  }

  lemma SubsequenceOwned(owner: nat -> nat, a: seq<Msg>, b: seq<Msg>)
    requires IsSubsequence(a, b) && OwnedStream(owner, b)
    ensures OwnedStream(owner, a)
  {
    forall k | 0 <= k < |a| ensures Owned(owner, a[k]) {
      SubsequenceMembers(a, b, a[k]);
    }
  }

  // ----- losing messages of a self-consistent stream -----

  ghost predicate KeysOwned(orders: Orders, owners: map<nat, nat>) {
    forall id :: id in orders ==> id in owners
  }

  lemma InsertsAreOwned(v: Venue, owners: map<nat, nat>, m: Msg)
    requires KeysOwned(v.orders, owners)
    ensures KeysOwned(v.orders, Simulator.OwnersAfter(owners, m))
    ensures KeysOwned(Step(v, m).orders, Simulator.OwnersAfter(owners, m))
  {
  }

  /** Every id of a self-consistent stream is inserted at most once, so whatever part of it
      reaches an instrument is clean: no id it inserts still rests there. */
  lemma {:induction false} LossyStreamIsClean(kept: seq<Msg>, all: seq<Msg>, i: nat, reference: int)
    requires IsSubsequence(kept, all) && Simulator.ConsistentStream(all)
    ensures CleanStream(Opening(reference), Of(kept, i))
    ensures KeysOwned(Replay(Opening(reference), Of(kept, i)).orders, Simulator.OwnersOver(map[], all))
    decreases |all|
  {
    if kept == [] {
    } else {
      var init, m := all[..|all| - 1], all[|all| - 1];
      var owners := Simulator.OwnersOver(map[], init);
      if IsSubsequence(kept, init) {
        LossyStreamIsClean(kept, init, i, reference);
        InsertsAreOwned(Replay(Opening(reference), Of(kept, i)), owners, m);
      } else {
        var before := kept[..|kept| - 1];
        LossyStreamIsClean(before, init, i, reference);
        var v := Replay(Opening(reference), Of(before, i));
        InsertsAreOwned(v, owners, m);
        OfSnoc(kept, i, Opening(reference));
        CleanSnoc(kept, i, reference, owners);
      }
    }
  }

  lemma CleanSnoc(kept: seq<Msg>, i: nat, reference: int, owners: map<nat, nat>)
    requires kept != [] && CleanStream(Opening(reference), Of(kept[..|kept| - 1], i))
    requires KeysOwned(Replay(Opening(reference), Of(kept[..|kept| - 1], i)).orders, owners)
    requires var m := kept[|kept| - 1];
             && (m.AddOrder? ==> m.id !in owners && m.qty >= 1)
             && (m.Replace? ==> m.newId !in owners && m.qty >= 1)
    ensures CleanStream(Opening(reference), Of(kept, i))
  {
    var before, m := kept[..|kept| - 1], kept[|kept| - 1];
    if m.header.instrument == i {
      var own := Of(kept, i);
      assert own[..|own| - 1] == Of(before, i) && own[|own| - 1] == m;
    } else {
      assert Of(kept, i) == Of(before, i);
    }
  }

  // ----- the whole path -----

  /**
   Any stream the generator can emit, stamped with any send times; any subset of the
   datagrams lost; any number of shards, any schedule, any full queue refusing without a
   retry; any prices to centre the books on.  What the receiver hears is the surviving
   runs; what the shards accept is a subsequence of what was published; and every
   instrument's book ends exact and equal, level by level, to the live orders of the
   messages that got through.
   */
  lemma LossyPathStaysSound(refs: seq<int>, ds: seq<Simulator.Draw>, times: nat -> nat, arrived: set<nat>,
                            buf: seq<Framing.Byte>, c: Config, acts: seq<Action>, i: nat, centre: int)
    requires i < |refs| && Simulator.Drawable(Simulator.Start(refs), ds)
    requires Roomy(refs, |ds|) && forall k :: 0 <= k < |ds| ==> times(k) < TWO_64
    requires |buf| >= Framing.MAX_PAYLOAD
    requires Proper(c) && c.opening[i] == Centred(BLANK, centre)
    requires c.stream == Pack.Join(Pack.Kept(Wire.Runs(StampedStream(Simulator.Stream(Simulator.Start(refs), ds), times)), arrived))
    requires NormalizerProtocol.Runs(c, Start(c), acts) && Finished(c, NormalizerProtocol.End(c, Start(c), acts))
    ensures var sent := StampedStream(Simulator.Stream(Simulator.Start(refs), ds), times);
            var s := NormalizerProtocol.End(c, Start(c), acts);
            var owner := Whole.OwnerBy(Simulator.OwnersOver(map[], sent));
            && Scan.Heard(buf, Pack.Kept(Wire.Wires(Wire.Runs(sent)), arrived), Wire.Unpack) == Wire.Known(c.stream)
            && IsSubsequence(s.accepted, sent)
            && ShardOf(i, c.shards) < |s.lanes|
            && LocalOf(i, c.shards) < |s.lanes[ShardOf(i, c.shards)].state.books|
            && var v := View(s.lanes[ShardOf(i, c.shards)].state, owner, i, c.shards);
               v == Replay(Opening(centre), Of(s.accepted, i)) && Sound(v)
  {
    var ms := Simulator.Stream(Simulator.Start(refs), ds);
    var sent := StampedStream(ms, times);
    var owners := Simulator.OwnersOver(map[], sent);
    GeneratedFits(refs, ds, times);
    Wire.LossIsWholeRuns(sent, arrived, buf);
    Wire.RunsAreExact(sent);
    SurvivorsAreSubsequence(Wire.Runs(sent), arrived);
    AcceptedOfSurvivors(c, acts, sent);
    Simulator.StreamIsConsistent(refs, ds);
    StampingKeepsConsistency(ms, times);
    Whole.OwnersRespected(sent, owners);
    AcceptedIsSound(c, acts, sent, owners, i, centre);
  }

  lemma AcceptedOfSurvivors(c: Config, acts: seq<Action>, sent: seq<Msg>)
    requires Proper(c) && NormalizerProtocol.Runs(c, Start(c), acts) && IsSubsequence(c.stream, sent)
    ensures IsSubsequence(NormalizerProtocol.End(c, Start(c), acts).accepted, sent)
  {
    LossesAreCounted(c, acts);
    var s := NormalizerProtocol.End(c, Start(c), acts);
    Reflexive(c.stream[..s.next]);
    Extended(c.stream[..s.next], c.stream[..s.next], c.stream[s.next..]);
    assert c.stream[..s.next] + c.stream[s.next..] == c.stream;
    Transitive(s.accepted, c.stream[..s.next], c.stream);
    Transitive(s.accepted, c.stream, sent);
  }

  lemma AcceptedIsSound(c: Config, acts: seq<Action>, sent: seq<Msg>, owners: map<nat, nat>, i: nat, reference: int)
    requires Proper(c) && NormalizerProtocol.Runs(c, Start(c), acts)
    requires Finished(c, NormalizerProtocol.End(c, Start(c), acts))
    requires i < NUM_INSTRUMENTS && c.opening[i] == Centred(BLANK, reference)
    requires Simulator.ConsistentStream(sent) && OwnedStream(Whole.OwnerBy(owners), sent)
    requires IsSubsequence(NormalizerProtocol.End(c, Start(c), acts).accepted, sent)
    ensures var s := NormalizerProtocol.End(c, Start(c), acts);
            && ShardOf(i, c.shards) < |s.lanes|
            && LocalOf(i, c.shards) < |s.lanes[ShardOf(i, c.shards)].state.books|
            && var v := View(s.lanes[ShardOf(i, c.shards)].state, Whole.OwnerBy(owners), i, c.shards);
               v == Replay(Opening(reference), Of(s.accepted, i)) && Sound(v)
  {
    var s := NormalizerProtocol.End(c, Start(c), acts);
    var owner := Whole.OwnerBy(owners);
    RunIsInv(c, acts);
    SubsequenceOwned(owner, s.accepted, sent);
    EveryScheduleIsSequential(c, acts, owner, i);
    ShardShowsInstrument(c.opening, s.accepted, owner, i, 1);
    LossyStreamIsClean(s.accepted, sent, i, reference);
    OpeningIsSound(reference);
    ReplayIsSound(Opening(reference), Of(s.accepted, i));
  }
}
