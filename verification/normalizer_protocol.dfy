/**
 The normalizer with its threads.  One dispatcher feeds, drains and joins; every
 worker polls its own queue, applies, and checks the stop flag.  All of them move by
 atomic micro-steps in any order, and the loads of the other side's queue index and
 of the stop flag may be stale.
 */
module NormalizerProtocol {
  import opened Protocol
  import opened OrderBooks
  import opened OrderMaps
  import opened Masks
  import opened RingBuffers
  import opened Normalizers

  /** What a run is given.  `retry` says whether the caller repeats a refused
      dispatch (as the replay loops do) or goes on to the next message (as the live feed does). */
  datatype Config = Config(shards: nat, opening: seq<ShapedBook>, stream: seq<Msg>, slots: seq<Item>, retry: bool)

  ghost predicate Proper(c: Config) {
    c.shards > 0 && |c.opening| == NUM_INSTRUMENTS && KnownInstruments(c.stream) && IsCapacity(|c.slots|)
  }

  /** Where a worker is outside `pop`. */
  datatype Mode = Polling | Applying(item: Item) | Checking | Exited

  datatype Lane = Lane(ring: Ring<Item>, mode: Mode, state: ShardState, processed: nat, refused: nat)

  /** Where the dispatcher is: feeding the stream, asking shard `k` whether it is
      empty, or waiting for worker `k` to exit. */
  datatype Phase = Feeding | Draining(k: nat) | DrainingLoaded(k: nat, head: nat) | Joining(k: nat)

  datatype Sys = Sys(lanes: seq<Lane>, next: nat, accepted: seq<Msg>, phase: Phase, stop: bool)

  datatype Action =
    | Push(st: RingStep<Item>)          // a micro-step of the dispatcher's push
    | EndOfStream                       // the feeding loop ends
    | SizeHead                          // size_approx: head_.load
    | SizeTail(seen: nat)               // size_approx: tail_.load and the comparison with zero
    | RaiseStop                         // stop_.store(true)
    | Join                              // join of the next worker
    | Pop(k: nat, st: RingStep<Item>)   // a micro-step of worker k's pop
    | Work(k: nat)                      // worker k applies its item
    | CheckStop(k: nat, flag: bool)     // worker k loads stop_

  function Start(c: Config): Sys
    requires |c.opening| == NUM_INSTRUMENTS
  {
    Sys(seq(c.shards, k requires 0 <= k < c.shards => Lane(RingBuffers.Fresh(c.slots), Polling, InitialShard(c.opening, k, c.shards), 0, 0)),
        0, [], Feeding, false)
  }

  function Target(c: Config, s: Sys): nat
    requires c.shards > 0 && s.next < |c.stream|
  {
    ShardOf(c.stream[s.next].header.instrument, c.shards)
  }

  function NextItem(c: Config, s: Sys): Item
    requires c.shards > 0 && s.next < |c.stream|
  {
    Item(c.stream[s.next], LocalOf(c.stream[s.next].header.instrument, c.shards))
  }

  predicate IsPush(st: RingStep<Item>) {
    st.LoadHead? || st.LoadTail? || st.WriteSlot? || st.StoreHead?
  }

  predicate Enabled(c: Config, s: Sys, a: Action) {
    && c.shards > 0 && |s.lanes| == c.shards
    && match a
       case Push(st) =>
         && s.phase.Feeding? && s.next < |c.stream| && IsPush(st)
         && Target(c, s) < c.shards
         && Can(s.lanes[Target(c, s)].ring, st)
         && (st.LoadHead? ==> st.item == NextItem(c, s))
       case EndOfStream => s.phase.Feeding? && s.next == |c.stream|
       case SizeHead => s.phase.Draining? && s.phase.k < c.shards && |s.lanes[s.phase.k].ring.heads| > 0
       case SizeTail(seen) =>
         && s.phase.DrainingLoaded? && s.phase.k < c.shards
         && |s.lanes[s.phase.k].ring.buf| > 0
         && s.lanes[s.phase.k].ring.tailSeen <= seen < |s.lanes[s.phase.k].ring.tails|
       case RaiseStop => s.phase.Draining? && s.phase.k == c.shards
       case Join => s.phase.Joining? && s.phase.k < c.shards && s.lanes[s.phase.k].mode.Exited?
       case Pop(k, st) => k < c.shards && s.lanes[k].mode.Polling? && !IsPush(st) && Can(s.lanes[k].ring, st)
       case Work(k) =>
         k < c.shards && s.lanes[k].mode.Applying? && s.lanes[k].mode.item.local < |s.lanes[k].state.books|
       case CheckStop(k, flag) => k < c.shards && s.lanes[k].mode.Checking? && (flag ==> s.stop)
  }

  function Do(c: Config, s: Sys, a: Action): Sys
    requires Enabled(c, s, a)
  {
    match a
    case Push(st) =>
      var t := Target(c, s);
      var lane := s.lanes[t];
      var ring := After(lane.ring, st);
      if Refuses(lane.ring, st) then
        s.(lanes := s.lanes[t := lane.(ring := ring, refused := lane.refused + 1)],
           next := if c.retry then s.next else s.next + 1)
      else if st.StoreHead? then
        s.(lanes := s.lanes[t := lane.(ring := ring)],
           next := s.next + 1, accepted := s.accepted + [c.stream[s.next]])
      else s.(lanes := s.lanes[t := lane.(ring := ring)])
    case EndOfStream => s.(phase := Draining(0))
    case SizeHead =>
      var heads := s.lanes[s.phase.k].ring.heads;
      s.(phase := DrainingLoaded(s.phase.k, heads[|heads| - 1]))
    case SizeTail(seen) =>
      var ring := s.lanes[s.phase.k].ring;
      s.(lanes := s.lanes[s.phase.k := s.lanes[s.phase.k].(ring := ring.(tailSeen := seen))],
         phase := Draining(if SizeApprox(s.phase.head, ring.tails[seen], |ring.buf|) > 0 then s.phase.k else s.phase.k + 1))
    case RaiseStop => s.(phase := Joining(0), stop := true)
    case Join => s.(phase := Joining(s.phase.k + 1))
    case Pop(k, st) =>
      var lane := s.lanes[k];
      var ring := After(lane.ring, st);
      var mode := if Starves(lane.ring, st) then Checking
                  else if st.StoreTail? then Applying(lane.ring.cons.item) else Polling;
      s.(lanes := s.lanes[k := lane.(ring := ring, mode := mode)])
    case Work(k) =>
      var lane := s.lanes[k];
      s.(lanes := s.lanes[k := lane.(state := Applied(lane.state, lane.mode.item), processed := lane.processed + 1, mode := Polling)])
    case CheckStop(k, flag) =>
      s.(lanes := s.lanes[k := s.lanes[k].(mode := if flag then Exited else Polling)])
  }

  /** `drain_and_stop` has returned. */
  predicate Finished(c: Config, s: Sys) {
    s.phase == Joining(c.shards)
  }

  predicate Runs(c: Config, s: Sys, acts: seq<Action>)
    decreases |acts|, 0
  {
    acts == [] || (Runs(c, s, acts[..|acts| - 1]) && Enabled(c, End(c, s, acts[..|acts| - 1]), acts[|acts| - 1]))
  }

  function End(c: Config, s: Sys, acts: seq<Action>): Sys
    requires Runs(c, s, acts)
    decreases |acts|, 1
  {
    if acts == [] then s else Do(c, End(c, s, acts[..|acts| - 1]), acts[|acts| - 1])
  }

  // ----- the invariant -----

  /** How many shards the dispatcher has seen empty after its last push. */
  function Drained(c: Config, p: Phase): nat {
    match p
    case Feeding => 0
    case Draining(k) => k
    case DrainingLoaded(k, _) => k
    case Joining(_) => c.shards
  }

  function Joined(p: Phase): nat {
    if p.Joining? then p.k else 0
  }

  function InHand(mode: Mode): nat {
    if mode.Applying? then 1 else 0
  }

  ghost predicate WorkerOk(c: Config, k: nat, lane: Lane)
    requires Proper(c) && k < c.shards
  {
    && lane.processed + InHand(lane.mode) == |lane.ring.popped|
    && (lane.mode.Applying? ==> lane.mode.item == lane.ring.popped[lane.processed])
    && Local(InitialShard(c.opening, k, c.shards), lane.ring.popped)
    && lane.state == Fold(InitialShard(c.opening, k, c.shards), lane.ring.popped[..lane.processed])
    && (!lane.mode.Polling? ==> lane.ring.cons.Waiting?)
  }

  ghost predicate LaneOk(c: Config, s: Sys, k: nat)
    requires Proper(c) && k < c.shards && |s.lanes| == c.shards
  {
    var lane := s.lanes[k];
    && Safe(lane.ring) && |lane.ring.buf| == |c.slots|
    && lane.ring.pushed == Routed(s.accepted, k, c.shards)
    && WorkerOk(c, k, lane)
    && (!lane.ring.prod.Idle? ==>
          s.phase.Feeding? && s.next < |c.stream| && Target(c, s) == k && lane.ring.prod.item == NextItem(c, s))
    && (k < Drained(c, s.phase) ==> |lane.ring.popped| == |lane.ring.pushed|)
    && (lane.mode.Exited? ==> s.stop)
    && (k < Joined(s.phase) ==> lane.mode.Exited?)
  }

  ghost predicate Frame(c: Config, s: Sys)
    requires Proper(c)
  {
    && |s.lanes| == c.shards
    && s.next <= |c.stream|
    && (!s.phase.Feeding? ==> s.next == |c.stream|)
    && (c.retry ==> s.accepted == c.stream[..s.next])
    && KnownInstruments(s.accepted)
    && (s.stop <==> s.phase.Joining?)
    && (!s.phase.Feeding? ==> s.phase.k <= c.shards)
    && (s.phase.DrainingLoaded? ==>
          && s.phase.k < c.shards
          && |s.lanes[s.phase.k].ring.heads| > 0
          && s.phase.head == s.lanes[s.phase.k].ring.heads[|s.lanes[s.phase.k].ring.heads| - 1])
  }

  ghost predicate Inv(c: Config, s: Sys)
    requires Proper(c)
  {
    Frame(c, s) && forall k :: 0 <= k < c.shards ==> LaneOk(c, s, k)
  }

  lemma StartIsInv(c: Config)
    requires Proper(c)
    ensures Inv(c, Start(c))
  {
    FreshIsSafe(c.slots);
  }

  /** A lane the action does not touch stays in order. */
  lemma OtherLane(c: Config, s: Sys, a: Action, k: nat)
    requires Proper(c) && Inv(c, s) && Enabled(c, s, a) && k < c.shards
    requires Do(c, s, a).lanes[k] == s.lanes[k]
    requires s.phase.Feeding? && s.next < |c.stream| ==> Target(c, s) != k || Do(c, s, a).next == s.next
    requires a.SizeTail? ==> k != s.phase.k
    ensures LaneOk(c, Do(c, s, a), k)
  {
    assert LaneOk(c, s, k);
    if a.Join? {
      assert LaneOk(c, s, s.phase.k);
    }
  }

  /** The worker's half of a lane does not see the producer move. */
  lemma PushKeepsWorker(c: Config, k: nat, lane: Lane, st: RingStep<Item>, refused: nat)
    requires Proper(c) && k < c.shards && WorkerOk(c, k, lane) && Can(lane.ring, st) && IsPush(st)
    ensures WorkerOk(c, k, lane.(ring := After(lane.ring, st), refused := refused))
  {
  }

  /** A completed push adds to the queue what its message adds to the shard's part of the stream. */
  lemma PushKeepsRoute(c: Config, s: Sys, st: RingStep<Item>)
    requires Proper(c) && Inv(c, s) && Enabled(c, s, Push(st))
    ensures var s', t := Do(c, s, Push(st)), Target(c, s);
            s'.lanes[t].ring.pushed == Routed(s'.accepted, t, c.shards)
  {
    assert LaneOk(c, s, Target(c, s));
    assert (s.accepted + [c.stream[s.next]])[..|s.accepted|] == s.accepted;
  }

  lemma PushKeepsLane(c: Config, s: Sys, st: RingStep<Item>)
    requires Proper(c) && Inv(c, s) && Enabled(c, s, Push(st))
    ensures LaneOk(c, Do(c, s, Push(st)), Target(c, s))
  {
    var t := Target(c, s);
    var lane := s.lanes[t];
    assert LaneOk(c, s, t);
    StepIsSafe(lane.ring, st);
    PushKeepsRoute(c, s, st);
    PushKeepsWorker(c, t, lane, st, Do(c, s, Push(st)).lanes[t].refused);
  }

  lemma PushIsInv(c: Config, s: Sys, st: RingStep<Item>)
    requires Proper(c) && Inv(c, s) && Enabled(c, s, Push(st))
    ensures Inv(c, Do(c, s, Push(st)))
  {
    PushKeepsLane(c, s, st);
    forall k | 0 <= k < c.shards ensures LaneOk(c, Do(c, s, Push(st)), k) {
      if k != Target(c, s) {
        OtherLane(c, s, Push(st), k);
      }
    }
  }

  lemma PopKeepsWorker(c: Config, k: nat, lane: Lane, st: RingStep<Item>, accepted: seq<Msg>)
    requires Proper(c) && k < c.shards && KnownInstruments(accepted)
    requires WorkerOk(c, k, lane) && lane.mode.Polling? && Safe(lane.ring)
    requires lane.ring.pushed == Routed(accepted, k, c.shards)
    requires !IsPush(st) && Can(lane.ring, st)
    ensures var mode := if Starves(lane.ring, st) then Checking
                        else if st.StoreTail? then Applying(lane.ring.cons.item) else Polling;
            WorkerOk(c, k, lane.(ring := After(lane.ring, st), mode := mode))
  {
    if st.StoreTail? {
      var popped := lane.ring.popped;
      var popped' := After(lane.ring, st).popped;
      RoutedIsLocal(c.opening, accepted, k, c.shards);
      StepIsSafe(lane.ring, st);
      assert popped'[..lane.processed] == popped[..lane.processed];
    }
  }

  lemma PopKeepsLane(c: Config, s: Sys, k: nat, st: RingStep<Item>)
    requires Proper(c) && Inv(c, s) && Enabled(c, s, Pop(k, st))
    ensures LaneOk(c, Do(c, s, Pop(k, st)), k)
  {
    assert LaneOk(c, s, k);
    PopKeepsWorker(c, k, s.lanes[k], st, s.accepted);
    StepIsSafe(s.lanes[k].ring, st);
  }

  lemma PopIsInv(c: Config, s: Sys, j: nat, st: RingStep<Item>)
    requires Proper(c) && Inv(c, s) && Enabled(c, s, Pop(j, st))
    ensures Inv(c, Do(c, s, Pop(j, st)))
  {
    PopKeepsLane(c, s, j, st);
    forall k | 0 <= k < c.shards ensures LaneOk(c, Do(c, s, Pop(j, st)), k) {
      if k != j {
        OtherLane(c, s, Pop(j, st), k);
      }
    }
  }

  lemma WorkKeepsLane(c: Config, s: Sys, a: Action)
    requires Proper(c) && Inv(c, s) && Enabled(c, s, a)
    requires a.Work? || a.CheckStop?
    ensures LaneOk(c, Do(c, s, a), a.k)
  {
    assert LaneOk(c, s, a.k);
    if a.Work? {
      var popped, n := s.lanes[a.k].ring.popped, s.lanes[a.k].processed;
      assert popped[..n + 1][..n] == popped[..n];
    }
  }

  lemma WorkIsInv(c: Config, s: Sys, a: Action)
    requires Proper(c) && Inv(c, s) && Enabled(c, s, a)
    requires a.Work? || a.CheckStop?
    ensures Inv(c, Do(c, s, a))
  {
    WorkKeepsLane(c, s, a);
    forall k | 0 <= k < c.shards ensures LaneOk(c, Do(c, s, a), k) {
      if k != a.k {
        OtherLane(c, s, a, k);
      }
    }
  }

  /** Looking at the size moves only what the dispatcher has seen, and it moves on only
      from an empty queue. */
  lemma DrainKeepsLane(c: Config, s: Sys, seen: nat)
    requires Proper(c) && Inv(c, s) && Enabled(c, s, SizeTail(seen))
    ensures LaneOk(c, Do(c, s, SizeTail(seen)), s.phase.k)
    ensures Frame(c, Do(c, s, SizeTail(seen)))
  {
    assert LaneOk(c, s, s.phase.k);
    SizeApproxIsExact(s.lanes[s.phase.k].ring, seen);
  }

  lemma DrainIsInv(c: Config, s: Sys, seen: nat)
    requires Proper(c) && Inv(c, s) && Enabled(c, s, SizeTail(seen))
    ensures Inv(c, Do(c, s, SizeTail(seen)))
  {
    DrainKeepsLane(c, s, seen);
    forall k | 0 <= k < c.shards ensures LaneOk(c, Do(c, s, SizeTail(seen)), k) {
      if k != s.phase.k {
        OtherLane(c, s, SizeTail(seen), k);
      }
    }
  }

  /** Every action of every thread keeps the invariant. */
  lemma ActionIsInv(c: Config, s: Sys, a: Action)
    requires Proper(c) && Inv(c, s) && Enabled(c, s, a)
    ensures Inv(c, Do(c, s, a))
  {
    match a {
      case Push(st) => PushIsInv(c, s, st);
      case Pop(k, st) => PopIsInv(c, s, k, st);
      case Work(_) => WorkIsInv(c, s, a);
      case CheckStop(_, _) => WorkIsInv(c, s, a);
      case SizeTail(seen) => DrainIsInv(c, s, seen);
      case _ =>
        forall k | 0 <= k < c.shards ensures LaneOk(c, Do(c, s, a), k) {
          OtherLane(c, s, a, k);
        }
    }
  }

  lemma {:induction false} RunIsInv(c: Config, acts: seq<Action>)
    requires Proper(c) && Runs(c, Start(c), acts)
    ensures Inv(c, End(c, Start(c), acts))
  {
    if acts == [] {
      StartIsInv(c);
    } else {
      RunIsInv(c, acts[..|acts| - 1]);
      ActionIsInv(c, End(c, Start(c), acts[..|acts| - 1]), acts[|acts| - 1]);
    }
  }

  /** How free the schedule is: while its thread is at that load, a load of the other side's index
      may return any value stored since the thread's last one, and a load of the stop flag may miss
      a store. */
  lemma LoadsMayBeStale(c: Config, s: Sys, k: nat, seen: nat)
    requires Proper(c) && Inv(c, s) && k < c.shards
    ensures s.phase.Feeding? && s.next < |c.stream| && k == Target(c, s) && s.lanes[k].ring.prod.HeadLoaded? ==>
              (s.lanes[k].ring.tailSeen <= seen <= |s.lanes[k].ring.popped| ==> Enabled(c, s, Push(LoadTail(seen))))
    ensures s.lanes[k].mode.Polling? && s.lanes[k].ring.cons.TailLoaded? ==>
              (s.lanes[k].ring.headSeen <= seen <= |s.lanes[k].ring.pushed| ==> Enabled(c, s, Pop(k, PopLoadHead(seen))))
    ensures s.phase.DrainingLoaded? && s.phase.k == k ==>
              (s.lanes[k].ring.tailSeen <= seen <= |s.lanes[k].ring.popped| ==> Enabled(c, s, SizeTail(seen)))
    ensures s.lanes[k].mode.Checking? ==> Enabled(c, s, CheckStop(k, false)) && (s.stop ==> Enabled(c, s, CheckStop(k, true)))
  {
    assert LaneOk(c, s, k);
  }

  // ----- the outcome of every schedule -----

  /** When every worker has been joined, each shard has processed exactly the accepted
      messages routed to it and holds their sequential fold. */
  lemma FinishedShards(c: Config, s: Sys, k: nat)
    requires Proper(c) && Inv(c, s) && Finished(c, s) && k < c.shards
    ensures s.lanes[k].processed == |Routed(s.accepted, k, c.shards)|
    ensures s.lanes[k].ring.popped == s.lanes[k].ring.pushed == Routed(s.accepted, k, c.shards)
    ensures s.lanes[k].state == ShardAfter(c.opening, s.accepted, k, c.shards)
  {
    assert LaneOk(c, s, k);
    var ring := s.lanes[k].ring;
    assert ring.popped[..s.lanes[k].processed] == ring.popped;
  }

  /** Every schedule, under every admissible staleness of the loads, ends with each
      instrument's book and live orders equal to those of the sequential one-shard fold
      of the accepted messages; with retries those are all the messages. */
  lemma EveryScheduleIsSequential(c: Config, acts: seq<Action>, owner: nat -> nat, i: nat)
    requires Proper(c) && Runs(c, Start(c), acts) && Finished(c, End(c, Start(c), acts))
    requires i < NUM_INSTRUMENTS && OwnedStream(owner, End(c, Start(c), acts).accepted)
    ensures var s := End(c, Start(c), acts);
            && ShardOf(i, c.shards) < |s.lanes|
            && LocalOf(i, c.shards) < |s.lanes[ShardOf(i, c.shards)].state.books|
            && KnownInstruments(s.accepted)
            && i < |ShardAfter(c.opening, s.accepted, 0, 1).books|
            && LocalOf(i, 1) == i
            && View(s.lanes[ShardOf(i, c.shards)].state, owner, i, c.shards)
               == View(ShardAfter(c.opening, s.accepted, 0, 1), owner, i, 1)
            && (c.retry ==> s.accepted == c.stream)
  {
    RunIsInv(c, acts);
    var s := End(c, Start(c), acts);
    RouteInRange(i, c.shards);
    FinishedShards(c, s, ShardOf(i, c.shards));
    ShardingIsInvisible(c.opening, s.accepted, owner, i, c.shards);
    assert c.stream[..|c.stream|] == c.stream;
  }

  /** `kept` is `all` with some messages left out. */
  predicate IsSubsequence(kept: seq<Msg>, all: seq<Msg>)
    decreases |all|
  {
    || kept == []
    || (all != [] && IsSubsequence(kept, all[..|all| - 1]))
    || (all != [] && kept[|kept| - 1] == all[|all| - 1] && IsSubsequence(kept[..|kept| - 1], all[..|all| - 1]))
  }

  function Refusals(lane: Lane): nat { lane.refused }

  predicate Accounted(c: Config, s: Sys) {
    && s.next <= |c.stream|
    && IsSubsequence(s.accepted, c.stream[..s.next])
    && (!c.retry ==> |s.accepted| + SumOver(s.lanes, Refusals) == s.next)
  }

  lemma Skips(kept: seq<Msg>, all: seq<Msg>, m: Msg)
    requires IsSubsequence(kept, all)
    ensures IsSubsequence(kept, all + [m]) && IsSubsequence(kept + [m], all + [m])
  {
    assert (all + [m])[..|all|] == all && (kept + [m])[..|kept|] == kept;
  }

  lemma PushRefusals(c: Config, s: Sys, st: RingStep<Item>)
    requires Enabled(c, s, Push(st))
    ensures SumOver(Do(c, s, Push(st)).lanes, Refusals)
            == SumOver(s.lanes, Refusals) + if Refuses(s.lanes[Target(c, s)].ring, st) then 1 else 0
  {
    SumUpdate(s.lanes, Refusals, Target(c, s), Do(c, s, Push(st)).lanes[Target(c, s)]);
  }

  lemma Advanced(c: Config, s: Sys)
    requires s.next < |c.stream| && IsSubsequence(s.accepted, c.stream[..s.next])
    ensures IsSubsequence(s.accepted, c.stream[..s.next + 1])
    ensures IsSubsequence(s.accepted + [c.stream[s.next]], c.stream[..s.next + 1])
  {
    Skips(s.accepted, c.stream[..s.next], c.stream[s.next]);
    assert c.stream[..s.next + 1] == c.stream[..s.next] + [c.stream[s.next]];
  }

  lemma PushIsAccounted(c: Config, s: Sys, st: RingStep<Item>)
    requires Accounted(c, s) && Enabled(c, s, Push(st))
    ensures Accounted(c, Do(c, s, Push(st)))
  {
    PushRefusals(c, s, st);
    Advanced(c, s);
  }

  lemma OtherIsAccounted(c: Config, s: Sys, a: Action)
    requires Accounted(c, s) && Enabled(c, s, a) && !a.Push?
    ensures Accounted(c, Do(c, s, a))
  {
    if a.Pop? || a.Work? || a.CheckStop? || a.SizeTail? {
      var k := if a.SizeTail? then s.phase.k else a.k;
      SumUpdate(s.lanes, Refusals, k, Do(c, s, a).lanes[k]);
    }
  }

  /** What is accepted keeps the stream's order, and without retries the refused
      dispatches are exactly the messages lost. */
  lemma {:induction false} LossesAreCounted(c: Config, acts: seq<Action>)
    requires Proper(c) && Runs(c, Start(c), acts)
    ensures Accounted(c, End(c, Start(c), acts))
  {
    if acts == [] {
      NoRefusals(Start(c).lanes);
    } else {
      var before := acts[..|acts| - 1];
      LossesAreCounted(c, before);
      if acts[|acts| - 1].Push? {
        PushIsAccounted(c, End(c, Start(c), before), acts[|acts| - 1].st);
      } else {
        OtherIsAccounted(c, End(c, Start(c), before), acts[|acts| - 1]);
      }
    }
  }

  lemma {:induction false} NoRefusals(lanes: seq<Lane>)
    requires forall k :: 0 <= k < |lanes| ==> lanes[k].refused == 0
    ensures SumOver(lanes, Refusals) == 0
  {
    if lanes == [] {
    } else {
      NoRefusals(lanes[..|lanes| - 1]);
    }
  }

  // ----- every run can be completed -----

  function SumOver(lanes: seq<Lane>, f: Lane -> nat): nat {
    if lanes == [] then 0 else SumOver(lanes[..|lanes| - 1], f) + f(lanes[|lanes| - 1])
  }

  lemma {:induction false} SumUpdate(lanes: seq<Lane>, f: Lane -> nat, k: nat, lane: Lane)
    requires k < |lanes|
    ensures SumOver(lanes[k := lane], f) + f(lanes[k]) == SumOver(lanes, f) + f(lane)
    decreases |lanes|
  {
    var n := |lanes| - 1;
    if k < n {
      SumUpdate(lanes[..n], f, k, lane);
      assert lanes[k := lane][..n] == lanes[..n][k := lane];
    } else {
      assert lanes[k := lane][..n] == lanes[..n];
    }
  }

  /** The irreversible events a lane still owes: pops and applications of queued
      items, and the worker's exit. */
  function Owed(lane: Lane): nat {
    (if |lane.ring.pushed| > |lane.ring.popped| then 2 * (|lane.ring.pushed| - |lane.ring.popped|) else 0)
    + InHand(lane.mode) + if lane.mode.Exited? then 0 else 1
  }

  function PhasesLeft(c: Config, p: Phase): int {
    match p
    case Feeding => 2 * c.shards + 3
    case Draining(k) => 2 * c.shards + 2 - k
    case DrainingLoaded(k, _) => 2 * c.shards + 2 - k
    case Joining(k) => c.shards - k
  }

  /** Undispatched, queued and in-flight messages, and the phases left. */
  function WorkLeft(c: Config, s: Sys): int {
    3 * (|c.stream| - s.next) + SumOver(s.lanes, Owed) + PhasesLeft(c, s.phase)
  }

  /** How many micro-steps separate a lane's producer and worker from their next irreversible event. */
  function ProducerDistance(lane: Lane): nat {
    match lane.ring.prod
    case Idle => 4
    case HeadLoaded(_, _) => 3
    case RoomSeen(_, _, _) => 2
    case SlotWritten(_, _) => 1
  }

  function WorkerDistance(lane: Lane): nat {
    if |lane.ring.pushed| > |lane.ring.popped| then
      match lane.mode
      case Checking => 5
      case Polling => (match lane.ring.cons
        case Waiting => 4 case TailLoaded(_) => 3 case ItemSeen(_) => 2 case SlotRead(_, _) => 1)
      case _ => 0
    else
      match lane.mode
      case Polling => (if lane.ring.cons.Waiting? then 3 else 2)
      case Checking => 1
      case _ => 0
  }

  function Distance(lane: Lane): nat {
    ProducerDistance(lane) + WorkerDistance(lane)
  }

  function StepsLeft(s: Sys): nat {
    SumOver(s.lanes, Distance) + if s.phase.Draining? then 2 else if s.phase.DrainingLoaded? then 1 else 0
  }

  predicate Closer(c: Config, s: Sys, s': Sys) {
    WorkLeft(c, s') < WorkLeft(c, s) || (WorkLeft(c, s') == WorkLeft(c, s) && StepsLeft(s') < StepsLeft(s))
  }

  lemma WorkLeftIsNatural(c: Config, s: Sys)
    requires Proper(c) && Inv(c, s)
    ensures WorkLeft(c, s) >= 0
  {
  }

  /** When one lane changes, the totals change by what that lane changed. */
  lemma OneLaneMoved(c: Config, s: Sys, s': Sys, k: nat)
    requires k < |s.lanes| == |s'.lanes| && s'.lanes == s.lanes[k := s'.lanes[k]]
    ensures WorkLeft(c, s') == WorkLeft(c, s) + 3 * (s.next - s'.next)
                               + Owed(s'.lanes[k]) - Owed(s.lanes[k]) + PhasesLeft(c, s'.phase) - PhasesLeft(c, s.phase)
    ensures s'.phase == s.phase ==> StepsLeft(s') == StepsLeft(s) + Distance(s'.lanes[k]) - Distance(s.lanes[k])
  {
    SumUpdate(s.lanes, Owed, k, s'.lanes[k]);
    SumUpdate(s.lanes, Distance, k, s'.lanes[k]);
  }

  lemma PushOwes(c: Config, s: Sys, st: RingStep<Item>)
    requires Enabled(c, s, Push(st))
    requires |s.lanes[Target(c, s)].ring.popped| <= |s.lanes[Target(c, s)].ring.pushed|
    ensures WorkLeft(c, Do(c, s, Push(st))) <= WorkLeft(c, s)
    ensures st.StoreHead? || (Refuses(s.lanes[Target(c, s)].ring, st) && !c.retry)
            ==> WorkLeft(c, Do(c, s, Push(st))) < WorkLeft(c, s)
    ensures st.LoadHead? || (st.LoadTail? && !Refuses(s.lanes[Target(c, s)].ring, st)) || st.WriteSlot?
            ==> Closer(c, s, Do(c, s, Push(st)))
  {
    OneLaneMoved(c, s, Do(c, s, Push(st)), Target(c, s));
  }

  lemma PopOwes(c: Config, s: Sys, k: nat, st: RingStep<Item>)
    requires Enabled(c, s, Pop(k, st))
    requires |s.lanes[k].ring.popped| <= |s.lanes[k].ring.pushed|
    requires st.StoreTail? || st.ReadSlot? ==> |s.lanes[k].ring.popped| < |s.lanes[k].ring.pushed|
    ensures WorkLeft(c, Do(c, s, Pop(k, st))) <= WorkLeft(c, s)
    ensures (Starves(s.lanes[k].ring, st) && |s.lanes[k].ring.popped| < |s.lanes[k].ring.pushed|)
            || (st.PopLoadHead? && !Starves(s.lanes[k].ring, st) && |s.lanes[k].ring.popped| == |s.lanes[k].ring.pushed|)
            || Closer(c, s, Do(c, s, Pop(k, st)))
  {
    OneLaneMoved(c, s, Do(c, s, Pop(k, st)), k);
  }

  lemma WorkOwes(c: Config, s: Sys, k: nat)
    requires Enabled(c, s, Work(k))
    ensures WorkLeft(c, Do(c, s, Work(k))) < WorkLeft(c, s)
  {
    OneLaneMoved(c, s, Do(c, s, Work(k)), k);
  }

  lemma CheckOwes(c: Config, s: Sys, k: nat, flag: bool)
    requires Enabled(c, s, CheckStop(k, flag))
    ensures WorkLeft(c, Do(c, s, CheckStop(k, flag))) <= WorkLeft(c, s)
    ensures flag || (|s.lanes[k].ring.popped| < |s.lanes[k].ring.pushed| && s.lanes[k].ring.cons.Waiting?)
            ==> Closer(c, s, Do(c, s, CheckStop(k, flag)))
  {
    OneLaneMoved(c, s, Do(c, s, CheckStop(k, flag)), k);
  }

  /** No action of any thread, however stale its loads, adds to the work left. */
  lemma WorkNeverGrows(c: Config, s: Sys, a: Action)
    requires Proper(c) && Inv(c, s) && Enabled(c, s, a)
    ensures WorkLeft(c, Do(c, s, a)) <= WorkLeft(c, s)
  {
    match a {
      case Push(st) =>
        assert LaneOk(c, s, Target(c, s));
        PushOwes(c, s, st);
      case Pop(k, st) =>
        assert LaneOk(c, s, k);
        PopOwes(c, s, k, st);
      case Work(k) => WorkOwes(c, s, k);
      case CheckStop(k, flag) => CheckOwes(c, s, k, flag);
      case SizeTail(_) => OneLaneMoved(c, s, Do(c, s, a), s.phase.k);
      case _ =>
    }
  }

  /** A polling worker's next micro-step, with an up-to-date load. */
  function NextPop(lane: Lane): RingStep<Item> {
    match lane.ring.cons
    case Waiting => PopLoadTail
    case TailLoaded(_) => PopLoadHead(|lane.ring.pushed|)
    case ItemSeen(_) => ReadSlot
    case SlotRead(_, _) => StoreTail
  }

  lemma NextPopWorks(r: Ring<Item>, st: RingStep<Item>)
    requires Safe(r)
    requires st == match r.cons
                   case Waiting => PopLoadTail
                   case TailLoaded(_) => PopLoadHead(|r.pushed|)
                   case ItemSeen(_) => ReadSlot
                   case SlotRead(_, _) => StoreTail
    ensures Can(r, st) && |r.popped| <= |r.pushed|
    ensures st.StoreTail? || st.ReadSlot? ==> |r.popped| < |r.pushed|
    ensures st.PopLoadHead? ==> (Starves(r, st) <==> |r.popped| == |r.pushed|)
  {
    if st.PopLoadHead? { RefusalIsTruthful(r, st); }
  }

  /** A worker with something queued, something in hand, or told to stop has a step
      that brings the run closer to its end. */
  lemma DriveWorker(c: Config, s: Sys, k: nat) returns (a: Action)
    requires Proper(c) && Inv(c, s) && k < c.shards && !s.lanes[k].mode.Exited?
    requires s.stop || |s.lanes[k].ring.popped| < |s.lanes[k].ring.pushed|
    ensures Enabled(c, s, a) && Closer(c, s, Do(c, s, a))
  {
    assert LaneOk(c, s, k);
    var lane := s.lanes[k];
    match lane.mode {
      case Applying(_) =>
        a := Work(k);
        WorkOwes(c, s, k);
      case Checking =>
        a := CheckStop(k, |lane.ring.popped| == |lane.ring.pushed|);
        CheckOwes(c, s, k, |lane.ring.popped| == |lane.ring.pushed|);
      case Polling =>
        a := Pop(k, NextPop(lane));
        NextPopWorks(lane.ring, NextPop(lane));
        PopOwes(c, s, k, NextPop(lane));
    }
  }

  lemma NextPushWorks(r: Ring<Item>)
    requires Safe(r)
    ensures |r.popped| <= |r.pushed|
    ensures r.prod.HeadLoaded? ==> Can(r, LoadTail(|r.popped|))
                                   && (Refuses(r, LoadTail(|r.popped|)) <==> |r.pushed| - |r.popped| == |r.buf| - 1)
    ensures r.prod.RoomSeen? ==> Can(r, WriteSlot)
  {
    if r.prod.HeadLoaded? { RefusalIsTruthful(r, LoadTail(|r.popped|)); }
  }

  /** The dispatcher's own step while it feeds, or the worker it is waiting for. */
  lemma DriveFeeding(c: Config, s: Sys) returns (a: Action)
    requires Proper(c) && Inv(c, s) && |c.slots| >= 2 && s.phase.Feeding?
    ensures Enabled(c, s, a) && Closer(c, s, Do(c, s, a))
  {
    if s.next == |c.stream| { return EndOfStream; }
    var t := Target(c, s);
    assert LaneOk(c, s, t);
    var ring := s.lanes[t].ring;
    NextPushWorks(ring);
    if ring.prod.HeadLoaded? && |ring.pushed| - |ring.popped| == |ring.buf| - 1 {
      a := DriveWorker(c, s, t);
      return;
    }
    var st := match ring.prod
              case Idle => LoadHead(NextItem(c, s))
              case HeadLoaded(_, _) => LoadTail(|ring.popped|)
              case RoomSeen(_, _, _) => WriteSlot
              case SlotWritten(_, _) => StoreHead;
    PushOwes(c, s, st);
    a := Push(st);
  }

  lemma DriveDraining(c: Config, s: Sys) returns (a: Action)
    requires Proper(c) && Inv(c, s) && (s.phase.Draining? || s.phase.DrainingLoaded?)
    ensures Enabled(c, s, a) && Closer(c, s, Do(c, s, a))
  {
    var k := s.phase.k;
    if k == c.shards { return RaiseStop; }
    assert LaneOk(c, s, k);
    var ring := s.lanes[k].ring;
    if |ring.popped| < |ring.pushed| {
      a := DriveWorker(c, s, k);
    } else if s.phase.Draining? {
      a := SizeHead;
    } else {
      a := SizeTail(|ring.popped|);
      SizeApproxIsExact(ring, |ring.popped|);
      OneLaneMoved(c, s, Do(c, s, a), k);
    }
  }

  /** In every reachable state before the end some action brings the run closer to it. */
  lemma SomeActionProgresses(c: Config, s: Sys) returns (a: Action)
    requires Proper(c) && Inv(c, s) && |c.slots| >= 2 && !Finished(c, s)
    ensures Enabled(c, s, a) && Closer(c, s, Do(c, s, a))
  {
    match s.phase {
      case Feeding => a := DriveFeeding(c, s);
      case Joining(j) =>
        if s.lanes[j].mode.Exited? {
          a := Join;
        } else {
          assert LaneOk(c, s, j);
          a := DriveWorker(c, s, j);
        }
      case _ => a := DriveDraining(c, s);
    }
  }

  lemma {:induction false} CanFinish(c: Config, s: Sys) returns (acts: seq<Action>)
    requires Proper(c) && |c.slots| >= 2 && Inv(c, s)
    ensures Runs(c, s, acts) && Finished(c, End(c, s, acts))
    decreases WorkLeft(c, s), StepsLeft(s)
  {
    WorkLeftIsNatural(c, s);
    if Finished(c, s) { return []; }
    var a := SomeActionProgresses(c, s);
    ActionIsInv(c, s, a);
    WorkLeftIsNatural(c, Do(c, s, a));
    var rest := CanFinish(c, Do(c, s, a));
    RunsCons(c, s, a, rest);
    acts := [a] + rest;
  }

  lemma RunsSnoc(c: Config, s: Sys, acts: seq<Action>, a: Action)
    requires Runs(c, s, acts) && Enabled(c, End(c, s, acts), a)
    ensures Runs(c, s, acts + [a]) && End(c, s, acts + [a]) == Do(c, End(c, s, acts), a)
  {
    assert (acts + [a])[..|acts|] == acts;
  }

  lemma {:induction false} RunsCons(c: Config, s: Sys, a: Action, rest: seq<Action>)
    requires Enabled(c, s, a) && Runs(c, Do(c, s, a), rest)
    ensures Runs(c, s, [a] + rest) && End(c, s, [a] + rest) == End(c, Do(c, s, a), rest)
    decreases |rest|
  {
    if rest == [] {
      RunsSnoc(c, s, [], a);
      assert [a] + rest == [] + [a];
    } else {
      var init, last := rest[..|rest| - 1], rest[|rest| - 1];
      RunsCons(c, s, a, init);
      RunsSnoc(c, s, [a] + init, last);
      assert [a] + rest == [a] + init + [last];
    }
  }

  /** From every reachable state the run can be completed: no schedule so far, however
      unlucky, has lost the possibility of a clean shutdown. */
  lemma EveryRunCanFinish(c: Config, acts: seq<Action>) returns (more: seq<Action>)
    requires Proper(c) && |c.slots| >= 2 && Runs(c, Start(c), acts)
    ensures Runs(c, End(c, Start(c), acts), more) && Finished(c, End(c, End(c, Start(c), acts), more))
  {
    RunIsInv(c, acts);
    more := CanFinish(c, End(c, Start(c), acts));
  }
}
