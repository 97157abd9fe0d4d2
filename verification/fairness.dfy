/**
 The normalizer under a fair scheduler.  In each round every thread moves at least once,
 with up-to-date loads, in any order and as often as the scheduler likes; after a number of
 rounds known in advance, `drain_and_stop` has returned.
 */
module Fairness {
  import opened Protocol
  import opened OrderMaps
  import opened Masks
  import opened RingBuffers
  import opened Normalizers
  import opened NormalizerProtocol

  // ----- the threads' own steps -----

  /** What the dispatcher does next; nothing while it waits in a join. */
  function DispatcherStep(c: Config, s: Sys): Option<Action>
    requires c.shards > 0
  {
    match s.phase
    case Feeding =>
      if s.next >= |c.stream| then Some(EndOfStream)
      else if Target(c, s) >= |s.lanes| then None
      else
        var ring := s.lanes[Target(c, s)].ring;
        Some(Push(match ring.prod
                  case Idle => LoadHead(NextItem(c, s))
                  case HeadLoaded(_, _) => LoadTail(|ring.popped|)
                  case RoomSeen(_, _, _) => WriteSlot
                  case SlotWritten(_, _) => StoreHead))
    case Draining(k) => Some(if k == c.shards then RaiseStop else SizeHead)
    case DrainingLoaded(k, _) => if k < |s.lanes| then Some(SizeTail(|s.lanes[k].ring.popped|)) else None
    case Joining(k) => if k < |s.lanes| && s.lanes[k].mode.Exited? then Some(Join) else None
  }

  /** What worker `k` does next; nothing once it has exited. */
  function WorkerStep(s: Sys, k: nat): Option<Action>
    requires k < |s.lanes|
  {
    match s.lanes[k].mode
    case Polling => Some(Pop(k, NextPop(s.lanes[k])))
    case Applying(_) => Some(Work(k))
    case Checking => Some(CheckStop(k, s.stop))
    case Exited => None
  }

  /** Thread 0 is the dispatcher, thread `k + 1` is worker `k`. */
  function StepOf(c: Config, s: Sys, thread: nat): Option<Action>
    requires c.shards > 0
  {
    if thread == 0 then DispatcherStep(c, s)
    else if thread <= |s.lanes| then WorkerStep(s, thread - 1) else None
  }

  /** One turn of a thread. */
  function Turn(c: Config, s: Sys, thread: nat): Sys
    requires c.shards > 0
  {
    var a := StepOf(c, s, thread);
    if a.Some? && Enabled(c, s, a.value) then Do(c, s, a.value) else s
  }

  function Turns(c: Config, s: Sys, threads: seq<nat>): Sys
    requires c.shards > 0
    decreases |threads|
  {
    if threads == [] then s else Turns(c, Turn(c, s, threads[0]), threads[1..])
  }

  function Rounds(c: Config, s: Sys, rounds: seq<seq<nat>>): Sys
    requires c.shards > 0
    decreases |rounds|
  {
    if rounds == [] then s else Rounds(c, Turns(c, s, rounds[0]), rounds[1..])
  }

  /** Every thread gets a turn. */
  ghost predicate Fair(c: Config, threads: seq<nat>) {
    forall t :: 0 <= t <= c.shards ==> t in threads
  }

  // ----- whose turn the run is waiting for -----

  predicate Full(c: Config, ring: Ring<Item>) {
    |ring.pushed| - |ring.popped| == |c.slots| - 1
  }

  predicate HasItems(ring: Ring<Item>) {
    |ring.popped| < |ring.pushed|
  }

  /** The dispatcher is stuck behind a full queue. */
  predicate StuckBehind(c: Config, ring: Ring<Item>) {
    (ring.prod.Idle? || ring.prod.HeadLoaded?) && Full(c, ring)
  }

  /** The thread whose turn brings the run closer to its end. */
  function Helpful(c: Config, s: Sys): nat
    requires c.shards > 0 && |s.lanes| == c.shards
  {
    match s.phase
    case Feeding =>
      if s.next < |c.stream| && StuckBehind(c, s.lanes[Target(c, s)].ring) then Target(c, s) + 1 else 0
    case Draining(k) => if k < c.shards && HasItems(s.lanes[k].ring) then k + 1 else 0
    case DrainingLoaded(k, _) => if k < c.shards && HasItems(s.lanes[k].ring) then k + 1 else 0
    case Joining(k) => if k < c.shards && !s.lanes[k].mode.Exited? then k + 1 else 0
  }

  /** How many of its turns that takes. */
  function TurnsLeft(c: Config, s: Sys): nat
    requires c.shards > 0 && |s.lanes| == c.shards
  {
    if Helpful(c, s) > 0 then WorkerDistance(s.lanes[Helpful(c, s) - 1])
    else match s.phase
      case Feeding => if s.next < |c.stream| then ProducerDistance(s.lanes[Target(c, s)]) else 0
      case Draining(_) => 2
      case DrainingLoaded(_, _) => 1
      case Joining(_) => 0
  }

  function Measure(c: Config, s: Sys): int
    requires c.shards > 0 && |s.lanes| == c.shards
  {
    8 * WorkLeft(c, s) + TurnsLeft(c, s)
  }

  /** A turn either uses up work, or changes neither the helpful thread nor what it has left. */
  predicate Undisturbed(c: Config, s: Sys, s': Sys)
    requires c.shards > 0 && |s.lanes| == c.shards && |s'.lanes| == c.shards
  {
    || WorkLeft(c, s') < WorkLeft(c, s)
    || (WorkLeft(c, s') == WorkLeft(c, s) && Helpful(c, s') == Helpful(c, s) && TurnsLeft(c, s') == TurnsLeft(c, s))
  }

  /** A turn of the helpful thread uses up work, or one of its turns. */
  predicate Helped(c: Config, s: Sys, s': Sys)
    requires c.shards > 0 && |s.lanes| == c.shards && |s'.lanes| == c.shards
  {
    || WorkLeft(c, s') < WorkLeft(c, s)
    || (WorkLeft(c, s') == WorkLeft(c, s) && TurnsLeft(c, s') < TurnsLeft(c, s))
  }

  ghost predicate Ready(c: Config, s: Sys) {
    Proper(c) && Inv(c, s) && |c.slots| >= 2
  }

  lemma TurnsLeftIsSmall(c: Config, s: Sys)
    requires c.shards > 0 && |s.lanes| == c.shards
    ensures TurnsLeft(c, s) <= 5
  {
  }

  // ----- the workers' turns -----

  /** Only lane `k` moves, and, unless it uses up work, its queue keeps its ends. */
  ghost predicate LaneMoved(c: Config, s: Sys, s': Sys, k: nat) {
    && |s.lanes| == c.shards && k < c.shards && |s'.lanes| == c.shards
    && s' == s.(lanes := s.lanes[k := s'.lanes[k]])
    && WorkLeft(c, s') <= WorkLeft(c, s)
    && (WorkLeft(c, s') == WorkLeft(c, s) ==>
          && !s.lanes[k].mode.Exited? && !s'.lanes[k].mode.Exited?
          && s'.lanes[k].ring.pushed == s.lanes[k].ring.pushed
          && s'.lanes[k].ring.popped == s.lanes[k].ring.popped
          && s'.lanes[k].ring.prod == s.lanes[k].ring.prod)
  }

  lemma PopUsesWork(c: Config, s: Sys, k: nat, st: RingStep<Item>)
    requires Enabled(c, s, Pop(k, st))
    requires |s.lanes[k].ring.popped| <= |s.lanes[k].ring.pushed|
    requires st.StoreTail? ==> |s.lanes[k].ring.popped| < |s.lanes[k].ring.pushed|
    ensures var s' := Do(c, s, Pop(k, st));
            if st.StoreTail? then WorkLeft(c, s') < WorkLeft(c, s) else WorkLeft(c, s') == WorkLeft(c, s)
  {
    OneLaneMoved(c, s, Do(c, s, Pop(k, st)), k);
  }

  lemma CheckUsesWork(c: Config, s: Sys, k: nat, flag: bool)
    requires Enabled(c, s, CheckStop(k, flag))
    ensures var s' := Do(c, s, CheckStop(k, flag));
            if flag then WorkLeft(c, s') < WorkLeft(c, s) else WorkLeft(c, s') == WorkLeft(c, s)
  {
    OneLaneMoved(c, s, Do(c, s, CheckStop(k, flag)), k);
  }

  /** The worker's step is possible, and is its turn. */
  ghost predicate StepWorks(c: Config, s: Sys, k: nat)
    requires c.shards > 0 && k < |s.lanes| && !s.lanes[k].mode.Exited?
  {
    var a := WorkerStep(s, k).value;
    Enabled(c, s, a) && Turn(c, s, k + 1) == Do(c, s, a) && LaneMoved(c, s, Turn(c, s, k + 1), k)
  }

  lemma PollingWorks(c: Config, s: Sys, k: nat)
    requires |s.lanes| == c.shards && k < c.shards && s.lanes[k].mode.Polling? && Safe(s.lanes[k].ring)
    ensures StepWorks(c, s, k)
  {
    var lane := s.lanes[k];
    NextPopWorks(lane.ring, NextPop(lane));
    PopUsesWork(c, s, k, NextPop(lane));
  }

  lemma ApplyingWorks(c: Config, s: Sys, k: nat)
    requires |s.lanes| == c.shards && k < c.shards && s.lanes[k].mode.Applying?
    requires s.lanes[k].mode.item.local < |s.lanes[k].state.books|
    ensures StepWorks(c, s, k)
  {
    WorkOwes(c, s, k);
  }

  lemma CheckingWorks(c: Config, s: Sys, k: nat)
    requires |s.lanes| == c.shards && k < c.shards && s.lanes[k].mode.Checking?
    ensures StepWorks(c, s, k)
  {
    CheckUsesWork(c, s, k, s.stop);
  }

  /** A worker that has not exited can always take its step. */
  lemma WorkerStepWorks(c: Config, s: Sys, k: nat)
    requires Ready(c, s) && k < c.shards && !s.lanes[k].mode.Exited?
    ensures StepWorks(c, s, k)
  {
    assert LaneOk(c, s, k);
    match s.lanes[k].mode {
      case Polling => PollingWorks(c, s, k);
      case Applying(_) => ApplyingWorks(c, s, k);
      case Checking => CheckingWorks(c, s, k);
    }
  }

  /** A move inside a lane that nobody waits for disturbs nobody. */
  lemma QuietMove(c: Config, s: Sys, s': Sys, k: nat)
    requires LaneMoved(c, s, s', k) && Helpful(c, s) != k + 1
    ensures Undisturbed(c, s, s')
  {
  }

  /** The lane after its worker's step inside `pop`. */
  function Popped(lane: Lane, st: RingStep<Item>): Lane
    requires Can(lane.ring, st)
  {
    lane.(ring := After(lane.ring, st),
          mode := if Starves(lane.ring, st) then Checking
                  else if st.StoreTail? then Applying(lane.ring.cons.item) else Polling)
  }

  /** A step inside `pop` short of its last brings the worker closer. */
  lemma PopGetsCloser(lane: Lane)
    requires Safe(lane.ring) && lane.mode.Polling?
    ensures Can(lane.ring, NextPop(lane))
    ensures NextPop(lane).StoreTail? || WorkerDistance(Popped(lane, NextPop(lane))) < WorkerDistance(lane)
  {
    NextPopWorks(lane.ring, NextPop(lane));
  }

  /** A worker that has items, or is told to stop with none, gets closer at each of its turns. */
  lemma WorkerGetsCloser(c: Config, s: Sys, k: nat)
    requires Ready(c, s) && k < c.shards && !s.lanes[k].mode.Exited?
    requires s.stop || HasItems(s.lanes[k].ring)
    ensures var s' := Turn(c, s, k + 1);
            && |s'.lanes| == c.shards && WorkLeft(c, s') <= WorkLeft(c, s)
            && (WorkLeft(c, s') == WorkLeft(c, s) ==> WorkerDistance(s'.lanes[k]) < WorkerDistance(s.lanes[k]))
  {
    WorkerStepWorks(c, s, k);
    assert LaneOk(c, s, k);
    var lane := s.lanes[k];
    match lane.mode {
      case Polling =>
        PopGetsCloser(lane);
        NextPopWorks(lane.ring, NextPop(lane));
        PopUsesWork(c, s, k, NextPop(lane));
      case Applying(_) =>
        WorkOwes(c, s, k);
      case Checking =>
        CheckUsesWork(c, s, k, s.stop);
    }
  }

  /** The worker the run waits for has items, or is told to stop. */
  lemma HelpfulWorkerIsBusy(c: Config, s: Sys)
    requires Ready(c, s) && Helpful(c, s) > 0
    ensures var k := Helpful(c, s) - 1;
            k < c.shards && !s.lanes[k].mode.Exited? && (s.stop || HasItems(s.lanes[k].ring))
  {
    assert LaneOk(c, s, Helpful(c, s) - 1);
  }

  /** A move inside the lane that the run waits for helps if it brings the worker closer. */
  lemma AwaitedMove(c: Config, s: Sys, s': Sys, k: nat)
    requires LaneMoved(c, s, s', k) && Helpful(c, s) == k + 1
    requires WorkLeft(c, s') == WorkLeft(c, s) ==> WorkerDistance(s'.lanes[k]) < WorkerDistance(s.lanes[k])
    ensures Helped(c, s, s')
  {
  }

  // ----- the dispatcher's turns -----

  lemma FeedingIsEnabled(c: Config, s: Sys)
    requires Ready(c, s) && s.phase.Feeding? && s.next < |c.stream|
    ensures DispatcherStep(c, s).Some? && Enabled(c, s, DispatcherStep(c, s).value)
    ensures var ring := s.lanes[Target(c, s)].ring;
            && |ring.popped| <= |ring.pushed|
            && (ring.prod.HeadLoaded? ==> (Refuses(ring, LoadTail(|ring.popped|)) <==> Full(c, ring)))
  {
    assert LaneOk(c, s, Target(c, s));
    NextPushWorks(s.lanes[Target(c, s)].ring);
  }

  /** The effect of the dispatcher's step on what the run is waiting for, whatever the other lanes hold. */
  lemma PushMove(c: Config, s: Sys, st: RingStep<Item>)
    requires Enabled(c, s, Push(st))
    requires var ring := s.lanes[Target(c, s)].ring;
             && |ring.popped| <= |ring.pushed|
             && (st.LoadTail? ==> (Refuses(ring, st) <==> Full(c, ring)))
    ensures |Do(c, s, Push(st)).lanes| == c.shards
    ensures if StuckBehind(c, s.lanes[Target(c, s)].ring) then Undisturbed(c, s, Do(c, s, Push(st)))
            else Helped(c, s, Do(c, s, Push(st)))
  {
    PushOwes(c, s, st);
    OneLaneMoved(c, s, Do(c, s, Push(st)), Target(c, s));
  }

  lemma FeedingStepWorks(c: Config, s: Sys)
    requires Ready(c, s) && s.phase.Feeding? && s.next < |c.stream|
    ensures var a := DispatcherStep(c, s).value;
            && DispatcherStep(c, s).Some? && Enabled(c, s, a) && |Do(c, s, a).lanes| == c.shards
            && if Helpful(c, s) > 0 then Undisturbed(c, s, Do(c, s, a)) else Helped(c, s, Do(c, s, a))
  {
    FeedingIsEnabled(c, s);
    PushMove(c, s, DispatcherStep(c, s).value.st);
  }

  /** Loading the head changes only where the dispatcher is. */
  lemma LoadingStepWorks(c: Config, s: Sys)
    requires Ready(c, s) && s.phase.Draining?
    ensures var a := DispatcherStep(c, s).value;
            && DispatcherStep(c, s).Some? && Enabled(c, s, a) && |Do(c, s, a).lanes| == c.shards
            && if Helpful(c, s) > 0 then Undisturbed(c, s, Do(c, s, a)) else Helped(c, s, Do(c, s, a))
  {
    if s.phase.k < c.shards { assert LaneOk(c, s, s.phase.k); }
  }

  /** The comparison moves on exactly from an empty queue. */
  lemma ComparingStepWorks(c: Config, s: Sys)
    requires Ready(c, s) && s.phase.DrainingLoaded?
    ensures var a := DispatcherStep(c, s).value;
            && DispatcherStep(c, s).Some? && Enabled(c, s, a) && |Do(c, s, a).lanes| == c.shards
            && if Helpful(c, s) > 0 then Undisturbed(c, s, Do(c, s, a)) else Helped(c, s, Do(c, s, a))
  {
    assert LaneOk(c, s, s.phase.k);
    var ring := s.lanes[s.phase.k].ring;
    SizeApproxIsExact(ring, |ring.popped|);
    OneLaneMoved(c, s, Do(c, s, SizeTail(|ring.popped|)), s.phase.k);
  }

  /** A turn keeps the invariant and helps, or at least does no harm. */
  ghost predicate TurnHelps(c: Config, s: Sys, thread: nat)
    requires Ready(c, s)
  {
    var s' := Turn(c, s, thread);
    && |s'.lanes| == c.shards && Inv(c, s')
    && if thread == Helpful(c, s) then Helped(c, s, s') else Undisturbed(c, s, s')
  }

  /** The dispatcher helps when it can, does no harm while it is stuck, and is blocked only in a join. */
  lemma DispatcherTurn(c: Config, s: Sys)
    requires Ready(c, s) && !Finished(c, s)
    ensures TurnHelps(c, s, 0)
  {
    match s.phase {
      case Feeding =>
        if s.next < |c.stream| { FeedingStepWorks(c, s); }
      case Draining(_) => LoadingStepWorks(c, s);
      case DrainingLoaded(_, _) => ComparingStepWorks(c, s);
      case Joining(_) =>
    }
    var a := DispatcherStep(c, s);
    if a.Some? && Enabled(c, s, a.value) { ActionIsInv(c, s, a.value); }
  }

  // ----- rounds -----

  /** A worker helps when the run waits for it, and does no harm when it does not. */
  lemma WorkerTurn(c: Config, s: Sys, k: nat)
    requires Ready(c, s) && k < c.shards
    ensures TurnHelps(c, s, k + 1)
  {
    if s.lanes[k].mode.Exited? {
      if Helpful(c, s) > 0 { HelpfulWorkerIsBusy(c, s); }
    } else {
      WorkerStepWorks(c, s, k);
      ActionIsInv(c, s, WorkerStep(s, k).value);
      if k + 1 == Helpful(c, s) {
        HelpfulWorkerIsBusy(c, s);
        WorkerGetsCloser(c, s, k);
        AwaitedMove(c, s, Turn(c, s, k + 1), k);
      } else {
        QuietMove(c, s, Turn(c, s, k + 1), k);
      }
    }
  }

  lemma NobodyTurn(c: Config, s: Sys, thread: nat)
    requires Ready(c, s) && thread > c.shards
    ensures TurnHelps(c, s, thread)
  {
    HelpfulIsAThread(c, s);
  }

  /** Any thread's turn does no harm, and the helpful one's helps. */
  lemma AnyTurn(c: Config, s: Sys, thread: nat)
    requires Ready(c, s) && !Finished(c, s)
    ensures TurnHelps(c, s, thread)
  {
    if thread == 0 {
      DispatcherTurn(c, s);
    } else if thread <= c.shards {
      WorkerTurn(c, s, thread - 1);
    } else {
      NobodyTurn(c, s, thread);
    }
  }

  /** Nobody moves once shutdown has returned. */
  lemma FinishedStays(c: Config, s: Sys, thread: nat)
    requires Proper(c) && Inv(c, s) && Finished(c, s)
    ensures Turn(c, s, thread) == s
  {
    if 0 < thread <= c.shards { assert LaneOk(c, s, thread - 1); }
  }

  lemma {:induction false} FinishedStaysFinished(c: Config, s: Sys, threads: seq<nat>)
    requires Proper(c) && Inv(c, s) && Finished(c, s)
    ensures Turns(c, s, threads) == s
    decreases |threads|
  {
    if threads == [] {
    } else {
      FinishedStays(c, s, threads[0]);
      FinishedStaysFinished(c, s, threads[1..]);
    }
  }

  /** Over any turns the measure does not grow; it shrinks if the helpful thread is among them. */
  lemma {:induction false} TurnsHelp(c: Config, s: Sys, threads: seq<nat>)
    requires Ready(c, s)
    ensures var s' := Turns(c, s, threads);
            && |s'.lanes| == c.shards && Inv(c, s')
            && (Finished(c, s') || Measure(c, s') <= Measure(c, s))
            && (Helpful(c, s) in threads ==> Finished(c, s') || Measure(c, s') < Measure(c, s))
    decreases |threads|
  {
    if threads == [] {
    } else if Finished(c, s) {
      FinishedStaysFinished(c, s, threads);
    } else {
      var next := Turn(c, s, threads[0]);
      AnyTurn(c, s, threads[0]);
      TurnsLeftIsSmall(c, s);
      TurnsLeftIsSmall(c, next);
      TurnsHelp(c, next, threads[1..]);
      assert Helpful(c, s) in threads ==> Helpful(c, s) == threads[0] || Helpful(c, s) in threads[1..];
    }
  }

  lemma HelpfulIsAThread(c: Config, s: Sys)
    requires Proper(c) && Inv(c, s)
    ensures Helpful(c, s) <= c.shards
  {
  }

  lemma {:induction false} RoundsFinish(c: Config, s: Sys, rounds: seq<seq<nat>>)
    requires Ready(c, s) && forall r :: r in rounds ==> Fair(c, r)
    requires |rounds| > Measure(c, s) || Finished(c, s)
    ensures Finished(c, Rounds(c, s, rounds))
    decreases |rounds|
  {
    WorkLeftIsNatural(c, s);
    if rounds == [] {
    } else {
      HelpfulIsAThread(c, s);
      assert Fair(c, rounds[0]);
      TurnsHelp(c, s, rounds[0]);
      if Finished(c, s) { FinishedStaysFinished(c, s, rounds[0]); }
      RoundsFinish(c, Turns(c, s, rounds[0]), rounds[1..]);
    }
  }

  lemma {:induction false} EachOwesOne(lanes: seq<Lane>)
    requires forall k :: 0 <= k < |lanes| ==> Owed(lanes[k]) == 1
    ensures SumOver(lanes, Owed) == |lanes|
  {
    if lanes == [] {
    } else {
      EachOwesOne(lanes[..|lanes| - 1]);
    }
  }

  /** Turns are actions of the protocol, in front of any later ones. */
  lemma {:induction false} TurnsThenRun(c: Config, s: Sys, threads: seq<nat>, later: seq<Action>)
    returns (acts: seq<Action>)
    requires c.shards > 0 && NormalizerProtocol.Runs(c, Turns(c, s, threads), later)
    ensures NormalizerProtocol.Runs(c, s, acts)
    ensures NormalizerProtocol.End(c, s, acts) == NormalizerProtocol.End(c, Turns(c, s, threads), later)
    decreases |threads|
  {
    if threads == [] {
      acts := later;
    } else {
      var a := StepOf(c, s, threads[0]);
      acts := TurnsThenRun(c, Turn(c, s, threads[0]), threads[1..], later);
      if a.Some? && Enabled(c, s, a.value) {
        RunsCons(c, s, a.value, acts);
        acts := [a.value] + acts;
      }
    }
  }

  lemma {:induction false} RoundsAreARun(c: Config, s: Sys, rounds: seq<seq<nat>>) returns (acts: seq<Action>)
    requires c.shards > 0
    ensures NormalizerProtocol.Runs(c, s, acts) && NormalizerProtocol.End(c, s, acts) == Rounds(c, s, rounds)
    decreases |rounds|
  {
    if rounds == [] {
      acts := [];
    } else {
      var later := RoundsAreARun(c, Turns(c, s, rounds[0]), rounds[1..]);
      acts := TurnsThenRun(c, s, rounds[0], later);
    }
  }

  /** From the start, 24 rounds a message and 24 a shard, and 30 more, always suffice: the
      rounds are a run of the protocol, and at its end shutdown has returned. */
  lemma FairRoundsFinish(c: Config, rounds: seq<seq<nat>>) returns (acts: seq<Action>)
    requires Proper(c) && |c.slots| >= 2
    requires (forall r :: r in rounds ==> Fair(c, r)) && |rounds| >= 24 * |c.stream| + 24 * c.shards + 30
    ensures NormalizerProtocol.Runs(c, Start(c), acts) && NormalizerProtocol.End(c, Start(c), acts) == Rounds(c, Start(c), rounds)
    ensures Finished(c, Rounds(c, Start(c), rounds))
  {
    StartIsInv(c);
    EachOwesOne(Start(c).lanes);
    TurnsLeftIsSmall(c, Start(c));
    RoundsFinish(c, Start(c), rounds);
    acts := RoundsAreARun(c, Start(c), rounds);
  }
}
