/**
 The single-producer/single-consumer ring buffer: first as an object used by one
 thread at a time, then with `push` and `pop` split into their atomic micro-steps.
 */
module RingBuffers {
  import opened Protocol
  import opened Masks

  // ----- the object -----

  /** How many items lie between two indices. */
  function Held(head: nat, tail: nat, c: nat): nat
    requires head < c && tail < c
  {
    if head >= tail then head - tail else head + c - tail
  }

  /** The `i`-th index after `tail`, wrapping once. */
  function Slot(tail: nat, i: nat, c: nat): nat
    requires tail < c && i < c
  {
    if tail + i < c then tail + i else tail + i - c
  }

  /** The `n` items from index `tail` on. */
  function Window<T>(buf: seq<T>, tail: nat, n: nat): seq<T>
    requires tail < |buf| && n <= |buf|
  {
    seq(n, i requires 0 <= i < n => buf[Slot(tail, i, |buf|)])
  }

  lemma NextIs(i: nat, c: nat)
    requires IsCapacity(c) && i < c
    ensures Next(i, c) == if i + 1 == c then 0 else i + 1
  {
    NextWraps(i, c);
    DivModUnique(i + 1, c, if i + 1 == c then 1 else 0, if i + 1 == c then 0 else i + 1);
  }

  lemma SizeIs(head: nat, tail: nat, c: nat)
    requires IsCapacity(c) && head < c && tail < c
    ensures SizeApprox(head, tail, c) == Held(head, tail, c)
  {
    SizeApproxIsDifference(head, tail, c);
    DivModUnique(head - tail, c, if head >= tail then 0 else -1, Held(head, tail, c));
  }

  class SpscRingBuffer<T(0)> {
    const buffer: array<T>
    var head: nat
    var tail: nat

    ghost predicate Valid()
      reads this
    {
      IsCapacity(buffer.Length) && head < buffer.Length && tail < buffer.Length
    }

    /** The queued items, oldest first. */
    ghost function Contents(): seq<T>
      requires Valid()
      reads this, buffer
    {
      Window(buffer[..], tail, Held(head, tail, buffer.Length))
    }

    constructor (capacity: nat)
      requires IsCapacity(capacity)
      ensures Valid() && fresh(buffer) && buffer.Length == capacity && Contents() == []
    {
      buffer := new T[capacity];
      head, tail := 0, 0;
    }

    method Push(item: T) returns (ok: bool)
      requires Valid()
      modifies this`head, buffer
      ensures Valid()
      ensures ok == (|old(Contents())| + 1 < buffer.Length)
      ensures Contents() == if ok then old(Contents()) + [item] else old(Contents())
    {
      var next := Next(head, buffer.Length);
      NextIs(head, buffer.Length);
      if next == tail { return false; }
      buffer[head] := item;
      head := next;
      return true;
    }

    method Pop() returns (item: T, ok: bool)
      requires Valid()
      modifies this`tail
      ensures Valid()
      ensures ok == (old(Contents()) != [])
      ensures ok ==> old(Contents()) == [item] + Contents()
      ensures !ok ==> Contents() == old(Contents())
    {
      item := buffer[tail];
      if tail == head { return item, false; }
      NextIs(tail, buffer.Length);
      tail := Next(tail, buffer.Length);
      return item, true;
    }

    method Size() returns (n: nat)
      requires Valid()
      ensures n == |Contents()|
    {
      n := SizeApprox(head, tail, buffer.Length);
      SizeIs(head, tail, buffer.Length);
    }
  }

  // ----- the two threads -----

  /** Where the producer is inside `push`. */
  datatype Producer<T> =
    | Idle
    | HeadLoaded(item: T, head: nat)
    | RoomSeen(item: T, head: nat, next: nat)
    | SlotWritten(item: T, next: nat)

  /** Where the consumer is inside `pop`. */
  datatype Consumer<T> =
    | Waiting
    | TailLoaded(tail: nat)
    | ItemSeen(tail: nat)
    | SlotRead(item: T, tail: nat)

  /**
   The shared memory of one queue and the program counters of its two threads.
   `heads` and `tails` hold every value ever stored to the two atomics, oldest first;
   a load of the other side's index may return any of them that is not older than
   what the same thread saw before.  `pushed` and `popped` record completed calls.
   */
  datatype Ring<T> = Ring(
    buf: seq<T>, heads: seq<nat>, tails: seq<nat>,
    prod: Producer<T>, cons: Consumer<T>,
    pushed: seq<T>, popped: seq<T>,
    tailSeen: nat, headSeen: nat)

  datatype RingStep<T> =
    | LoadHead(item: T)      // push: head_.load
    | LoadTail(seen: nat)    // push: tail_.load and the full check
    | WriteSlot              // push: buffer_[head] = item
    | StoreHead              // push: head_.store
    | PopLoadTail            // pop: tail_.load
    | PopLoadHead(seen: nat) // pop: head_.load and the empty check
    | ReadSlot               // pop: out = buffer_[tail]
    | StoreTail              // pop: tail_.store

  function Fresh<T>(buf: seq<T>): Ring<T> {
    Ring(buf, [0], [0], Idle, Waiting, [], [], 0, 0)
  }

  predicate Can<T>(r: Ring<T>, st: RingStep<T>) {
    && |r.buf| > 0 && |r.heads| > 0 && |r.tails| > 0
    && match st
       case LoadHead(_) => r.prod.Idle?
       case LoadTail(seen) => r.prod.HeadLoaded? && r.tailSeen <= seen < |r.tails|
       case WriteSlot => r.prod.RoomSeen? && r.prod.head < |r.buf|
       case StoreHead => r.prod.SlotWritten?
       case PopLoadTail => r.cons.Waiting?
       case PopLoadHead(seen) => r.cons.TailLoaded? && r.headSeen <= seen < |r.heads|
       case ReadSlot => r.cons.ItemSeen? && r.cons.tail < |r.buf|
       case StoreTail => r.cons.SlotRead?
  }

  /** `push` sees a full queue. */
  predicate Refuses<T>(r: Ring<T>, st: RingStep<T>)
    requires Can(r, st)
  {
    st.LoadTail? && Next(r.prod.head, |r.buf|) == r.tails[st.seen]
  }

  /** `pop` sees an empty queue. */
  predicate Starves<T>(r: Ring<T>, st: RingStep<T>)
    requires Can(r, st)
  {
    st.PopLoadHead? && r.cons.tail == r.heads[st.seen]
  }

  function After<T>(r: Ring<T>, st: RingStep<T>): Ring<T>
    requires Can(r, st)
  {
    match st
    case LoadHead(item) => r.(prod := HeadLoaded(item, r.heads[|r.heads| - 1]))
    case LoadTail(seen) =>
      if Refuses(r, st) then r.(prod := Idle, tailSeen := seen)
      else r.(prod := RoomSeen(r.prod.item, r.prod.head, Next(r.prod.head, |r.buf|)), tailSeen := seen)
    case WriteSlot =>
      r.(buf := r.buf[r.prod.head := r.prod.item], prod := SlotWritten(r.prod.item, r.prod.next))
    case StoreHead =>
      r.(heads := r.heads + [r.prod.next], pushed := r.pushed + [r.prod.item], prod := Idle)
    case PopLoadTail => r.(cons := TailLoaded(r.tails[|r.tails| - 1]))
    case PopLoadHead(seen) =>
      if Starves(r, st) then r.(cons := Waiting, headSeen := seen)
      else r.(cons := ItemSeen(r.cons.tail), headSeen := seen)
    case ReadSlot => r.(cons := SlotRead(r.buf[r.cons.tail], r.cons.tail))
    case StoreTail =>
      r.(tails := r.tails + [Next(r.cons.tail, |r.buf|)], popped := r.popped + [r.cons.item], cons := Waiting)
  }

  /** The items pushed and not yet popped. */
  function Queue<T>(r: Ring<T>): seq<T>
    requires |r.popped| <= |r.pushed|
  {
    r.pushed[|r.popped|..]
  }

  ghost predicate Counters<T>(r: Ring<T>) {
    var c := |r.buf|;
    && IsCapacity(c)
    && |r.heads| == |r.pushed| + 1 && |r.tails| == |r.popped| + 1
    && (forall j :: 0 <= j < |r.heads| ==> r.heads[j] == j % c)
    && (forall j :: 0 <= j < |r.tails| ==> r.tails[j] == j % c)
    && r.tailSeen <= |r.popped| <= r.headSeen <= |r.pushed| < r.tailSeen + c
  }

  ghost predicate Slots<T>(r: Ring<T>)
    requires |r.buf| > 0
  {
    && r.popped <= r.pushed
    && forall j :: |r.popped| <= j < |r.pushed| ==> r.buf[j % |r.buf|] == r.pushed[j]
  }

  ghost predicate ProducerOk<T>(r: Ring<T>)
    requires |r.buf| > 0
  {
    var c := |r.buf|;
    var n := |r.pushed|;
    match r.prod
    case Idle => true
    case HeadLoaded(_, head) => head == n % c
    case RoomSeen(_, head, next) => head == n % c && next == (n + 1) % c && n + 1 < r.tailSeen + c
    case SlotWritten(item, next) => next == (n + 1) % c && n + 1 < r.tailSeen + c && r.buf[n % c] == item
  }

  ghost predicate ConsumerOk<T>(r: Ring<T>)
    requires |r.buf| > 0
  {
    var c := |r.buf|;
    var n := |r.popped|;
    match r.cons
    case Waiting => true
    case TailLoaded(tail) => tail == n % c
    case ItemSeen(tail) => tail == n % c && n < r.headSeen
    case SlotRead(item, tail) => tail == n % c && n < r.headSeen && n < |r.pushed| && item == r.pushed[n]
  }

  ghost predicate Safe<T>(r: Ring<T>) {
    Counters(r) && Slots(r) && ProducerOk(r) && ConsumerOk(r)
  }

  lemma FreshIsSafe<T>(buf: seq<T>)
    requires IsCapacity(|buf|)
    ensures Safe(Fresh(buf))
  {
    assert 0 % |buf| == 0;
  }

  lemma ProducerStepIsSafe<T>(r: Ring<T>, st: RingStep<T>)
    requires Safe(r) && Can(r, st)
    requires st.LoadHead? || st.LoadTail? || st.WriteSlot? || st.StoreHead?
    ensures Safe(After(r, st))
  {
    var c, n := |r.buf|, |r.pushed|;
    match st {
      case LoadHead(_) =>
      case LoadTail(seen) =>
        NextWraps(n % c, c);
        NextIndex(n, c);
        if !Refuses(r, st) && n + 1 == seen + c {
          ModShift(seen, 1, c);
        }
      case WriteSlot =>
        forall j | |r.popped| <= j < n ensures j % c != n % c {
          if j % c == n % c { ModClose(n, j, c); }
        }
        if r.cons.SlotRead? {
          assert After(r, st).pushed == r.pushed;
        }
      case StoreHead =>
        var r' := After(r, st);
        assert forall j :: 0 <= j < |r'.heads| ==> r'.heads[j] == j % c;
    }
  }

  lemma ConsumerStepIsSafe<T>(r: Ring<T>, st: RingStep<T>)
    requires Safe(r) && Can(r, st)
    requires !(st.LoadHead? || st.LoadTail? || st.WriteSlot? || st.StoreHead?)
    ensures Safe(After(r, st))
  {
    var c, n := |r.buf|, |r.popped|;
    match st {
      case PopLoadTail =>
      case PopLoadHead(seen) =>
      case ReadSlot =>
      case StoreTail =>
        NextWraps(n % c, c);
        NextIndex(n, c);
        assert r.pushed[..n] + [r.pushed[n]] == r.pushed[..n + 1];
    }
  }

  /** Every micro-step keeps the queue safe, whatever the other thread is doing. */
  lemma StepIsSafe<T>(r: Ring<T>, st: RingStep<T>)
    requires Safe(r) && Can(r, st)
    ensures Safe(After(r, st))
  {
    if st.LoadHead? || st.LoadTail? || st.WriteSlot? || st.StoreHead? {
      ProducerStepIsSafe(r, st);
    } else {
      ConsumerStepIsSafe(r, st);
    }
  }

  /** The slot about to be written is never the slot about to be read, nor one that holds a queued item. */
  lemma NoSlotRace<T>(r: Ring<T>)
    requires Safe(r) && r.prod.RoomSeen?
    ensures r.cons.ItemSeen? ==> r.prod.head != r.cons.tail
    ensures forall j :: |r.popped| <= j < |r.pushed| ==> r.prod.head != j % |r.buf|
  {
    forall j | |r.popped| <= j < |r.pushed| ensures r.prod.head != j % |r.buf| {
      if r.prod.head == j % |r.buf| { ModClose(|r.pushed|, j, |r.buf|); }
    }
  }

  /** Every micro-step is a step of a bounded first-in first-out queue: a published
      head appends below the bound, a published tail removes the oldest item and hands
      exactly that item out, and nothing else changes the queue. */
  lemma StepRefinesFifo<T>(r: Ring<T>, st: RingStep<T>)
    requires Safe(r) && Can(r, st)
    ensures |After(r, st).popped| <= |After(r, st).pushed|
    ensures st.StoreHead? ==> Queue(After(r, st)) == Queue(r) + [r.prod.item] && |Queue(r)| + 1 < |r.buf|
    ensures st.StoreTail? ==> Queue(r) == [r.cons.item] + Queue(After(r, st))
    ensures !st.StoreHead? && !st.StoreTail? ==> Queue(After(r, st)) == Queue(r)
  {
    StepIsSafe(r, st);
    if st.StoreTail? { TakesFirst(r.pushed, |r.popped|); }
    if st.StoreHead? { AddsLast(r.pushed, |r.popped|, r.prod.item); }
  }

  lemma TakesFirst<T>(s: seq<T>, n: nat)
    requires n < |s|
    ensures s[n..] == [s[n]] + s[n + 1..]
  {
  }

  lemma AddsLast<T>(s: seq<T>, n: nat, t: T)
    requires n <= |s|
    ensures (s + [t])[n..] == s[n..] + [t]
  {
  }

  /** A refused push had counted a full queue, a starved pop an empty one; with an
      up-to-date load the refusal is about the queue as it is now. */
  lemma RefusalIsTruthful<T>(r: Ring<T>, st: RingStep<T>)
    requires Safe(r) && Can(r, st)
    ensures st.LoadTail? ==> (Refuses(r, st) <==> |r.pushed| - st.seen == |r.buf| - 1)
    ensures st.PopLoadHead? ==> (Starves(r, st) <==> st.seen == |r.popped|)
  {
    var c := |r.buf|;
    if st.LoadTail? {
      var n := |r.pushed|;
      NextWraps(n % c, c);
      NextIndex(n, c);
      if n + 1 == st.seen + c {
        ModShift(st.seen, 1, c);
      } else if Refuses(r, st) {
        ModClose(n + 1, st.seen, c);
      }
    } else if st.PopLoadHead? && Starves(r, st) {
      ModClose(st.seen, |r.popped|, c);
    }
  }

  /** A one-slot ring refuses every push: its usable capacity is zero. */
  lemma OneSlotRefuses<T>(r: Ring<T>, st: RingStep<T>)
    requires Safe(r) && Can(r, st) && |r.buf| == 1 && st.LoadTail?
    ensures Refuses(r, st)
  {
    RefusalIsTruthful(r, st);
  }

  /** `size_approx` read by the producer: the head is its own, the tail may be stale. */
  lemma SizeApproxIsExact<T>(r: Ring<T>, seen: nat)
    requires Safe(r) && r.tailSeen <= seen < |r.tails|
    ensures SizeApprox(r.heads[|r.heads| - 1], r.tails[seen], |r.buf|) == |r.pushed| - seen
  {
    SizeOfCounters(|r.pushed|, seen, |r.buf|);
  }

  // ----- whole runs -----

  predicate Runs<T>(r: Ring<T>, sts: seq<RingStep<T>>)
    decreases |sts|, 0
  {
    sts == [] || (Runs(r, sts[..|sts| - 1]) && Can(End(r, sts[..|sts| - 1]), sts[|sts| - 1]))
  }

  function End<T>(r: Ring<T>, sts: seq<RingStep<T>>): Ring<T>
    requires Runs(r, sts)
    decreases |sts|, 1
  {
    if sts == [] then r else After(End(r, sts[..|sts| - 1]), sts[|sts| - 1])
  }

  /** After any interleaving of micro-steps, with any admissible staleness of the
      loads, the popped items are a prefix of the pushed ones and at most
      capacity less one are held. */
  lemma {:induction false} EveryRunIsFifo<T>(buf: seq<T>, sts: seq<RingStep<T>>)
    requires IsCapacity(|buf|) && Runs(Fresh(buf), sts)
    ensures var r := End(Fresh(buf), sts);
            && Safe(r)
            && r.popped <= r.pushed
            && |r.buf| == |buf|
            && |r.pushed| - |r.popped| <= |buf| - 1
  {
    if sts == [] {
      FreshIsSafe(buf);
    } else {
      EveryRunIsFifo(buf, sts[..|sts| - 1]);
      StepIsSafe(End(Fresh(buf), sts[..|sts| - 1]), sts[|sts| - 1]);
    }
  }
}
