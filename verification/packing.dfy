/**
 Greedy packing: items in order, as many to a group as its room allows.
 */
module Packing {

  function Join<T>(xs: seq<seq<T>>): seq<T> {
    if xs == [] then [] else Join(xs[..|xs| - 1]) + xs[|xs| - 1]
  }

  lemma Associates<T>(a: seq<T>, b: seq<T>, c: seq<T>)
    ensures (a + b) + c == a + (b + c)
  {
  }

  lemma JoinSnoc<T>(xs: seq<seq<T>>, x: seq<T>)
    ensures Join(xs + [x]) == Join(xs) + x
  {
    assert (xs + [x])[..|xs|] == xs;
  }

  lemma {:induction false} JoinConcat<T>(xs: seq<seq<T>>, ys: seq<seq<T>>)
    ensures Join(xs + ys) == Join(xs) + Join(ys)
  {
    if ys == [] {
      assert xs + ys == xs;
    } else {
      var rest, y := ys[..|ys| - 1], ys[|ys| - 1];
      JoinConcat(xs, rest);
      JoinSnoc(xs + rest, y);
      assert ys == rest + [y];
      Associates(xs, rest, [y]);
      Associates(Join(xs), Join(rest), y);
    }
  }

  lemma {:induction false} JoinMembers<T>(xs: seq<seq<T>>, x: seq<T>, t: T)
    requires x in xs && t in x
    ensures t in Join(xs)
  {
    if x in xs[..|xs| - 1] { JoinMembers(xs[..|xs| - 1], x, t); }
  }

  /** What is left of a list when only some of its elements arrive. */
  function Kept<T>(xs: seq<T>, arrived: set<nat>): (r: seq<T>) {
    if xs == [] then [] else
    Kept(xs[..|xs| - 1], arrived) + if |xs| - 1 in arrived then [xs[|xs| - 1]] else []
  }

  lemma {:induction false} KeptMembers<T>(xs: seq<T>, arrived: set<nat>)
    ensures forall x :: x in Kept(xs, arrived) ==> x in xs
  {
    if xs == [] {
    } else {
      KeptMembers(xs[..|xs| - 1], arrived);
    }
  }

  lemma {:induction false} KeptAll<T>(xs: seq<T>, arrived: set<nat>)
    requires forall k :: 0 <= k < |xs| ==> k in arrived
    ensures Kept(xs, arrived) == xs
  {
    if xs == [] {
    } else {
      KeptAll(xs[..|xs| - 1], arrived);
    }
  }

  // ----- the greedy rule -----

  function Weight<T>(g: seq<T>, size: T -> nat): nat {
    if g == [] then 0 else Weight(g[..|g| - 1], size) + size(g[|g| - 1])
  }

  lemma WeightSnoc<T>(g: seq<T>, x: T, size: T -> nat)
    ensures Weight(g + [x], size) == Weight(g, size) + size(x)
  {
    assert (g + [x])[..|g|] == g;
  }

  /** The groups closed so far and the one being filled. */
  datatype Bin<T> = Bin(closed: seq<seq<T>>, open: seq<T>)

  function Flushed<T>(p: Bin<T>): Bin<T> {
    if p.open == [] then p else Bin(p.closed + [p.open], [])
  }

  predicate Overflows<T>(open: seq<T>, x: T, size: T -> nat, room: nat) {
    Weight(open, size) + size(x) > room
  }

  function Packed<T>(p: Bin<T>, x: T, size: T -> nat, room: nat): Bin<T> {
    var q := if Overflows(p.open, x, size, room) then Flushed(p) else p;
    Bin(q.closed, q.open + [x])
  }

  function Pack<T>(xs: seq<T>, size: T -> nat, room: nat): Bin<T> {
    if xs == [] then Bin([], []) else Packed(Pack(xs[..|xs| - 1], size, room), xs[|xs| - 1], size, room)
  }

  function Groups<T>(xs: seq<T>, size: T -> nat, room: nat): seq<seq<T>> {
    Flushed(Pack(xs, size, room)).closed
  }

  lemma FlushedJoins<T>(p: Bin<T>)
    ensures Join(Flushed(p).closed) + Flushed(p).open == Join(p.closed) + p.open
    ensures Flushed(p).open == []
  {
    JoinSnoc(p.closed, p.open);
  }

  lemma PackedJoins<T>(p: Bin<T>, x: T, size: T -> nat, room: nat)
    ensures var q := Packed(p, x, size, room); Join(q.closed) + q.open == Join(p.closed) + p.open + [x]
  {
    var q := if Overflows(p.open, x, size, room) then Flushed(p) else p;
    FlushedJoins(p);
    Associates(Join(q.closed), q.open, [x]);
  }

  lemma {:induction false} PackJoins<T>(xs: seq<T>, size: T -> nat, room: nat)
    ensures var p := Pack(xs, size, room); Join(p.closed) + p.open == xs
  {
    if xs == [] {
    } else {
      var rest, x := xs[..|xs| - 1], xs[|xs| - 1];
      PackJoins(rest, size, room);
      PackedJoins(Pack(rest, size, room), x, size, room);
      assert xs == rest + [x];
    }
  }

  /** Packing loses, repeats and reorders nothing. */
  lemma GroupsJoin<T>(xs: seq<T>, size: T -> nat, room: nat)
    ensures Join(Groups(xs, size, room)) == xs
  {
    PackJoins(xs, size, room);
    FlushedJoins(Pack(xs, size, room));
  }

  predicate WithinRoom<T>(g: seq<T>, size: T -> nat, room: nat) {
    g != [] && Weight(g, size) <= room
  }

  ghost predicate AllWithinRoom<T>(gs: seq<seq<T>>, size: T -> nat, room: nat) {
    forall g :: g in gs ==> WithinRoom(g, size, room)
  }

  lemma PackedFits<T>(p: Bin<T>, x: T, size: T -> nat, room: nat)
    requires size(x) <= room
    requires AllWithinRoom(p.closed, size, room) && (p.open == [] || WithinRoom(p.open, size, room))
    ensures var q := Packed(p, x, size, room);
            AllWithinRoom(q.closed, size, room) && WithinRoom(q.open, size, room)
  {
    WeightSnoc(p.open, x, size);
    WeightSnoc([], x, size);
  }

  lemma {:induction false} PackFits<T>(xs: seq<T>, size: T -> nat, room: nat)
    requires forall x :: x in xs ==> size(x) <= room
    ensures var p := Pack(xs, size, room);
            AllWithinRoom(p.closed, size, room) && (p.open == [] || WithinRoom(p.open, size, room))
  {
    if xs == [] {
    } else {
      PackFits(xs[..|xs| - 1], size, room);
      PackedFits(Pack(xs[..|xs| - 1], size, room), xs[|xs| - 1], size, room);
    }
  }

  /** No group is empty and none exceeds the room. */
  lemma GroupsFit<T>(xs: seq<T>, size: T -> nat, room: nat)
    requires forall x :: x in xs ==> size(x) <= room
    ensures AllWithinRoom(Groups(xs, size, room), size, room)
  {
    PackFits(xs, size, room);
  }

  /** No group had room for the first item of the next. */
  ghost predicate Greedy<T>(gs: seq<seq<T>>, size: T -> nat, room: nat) {
    forall k :: 0 < k < |gs| ==> gs[k] != [] && Overflows(gs[k - 1], gs[k][0], size, room)
  }

  lemma GreedyGrows<T>(gs: seq<seq<T>>, g: seq<T>, x: T, size: T -> nat, room: nat)
    requires Greedy(gs + [g], size, room) && g != []
    ensures Greedy(gs + [g + [x]], size, room)
    ensures Overflows(g, x, size, room) ==> Greedy(gs + [g] + [[x]], size, room)
  {
    var old', grown, next := gs + [g], gs + [g + [x]], gs + [g] + [[x]];
    forall k | 0 < k < |grown| ensures grown[k] != [] && Overflows(grown[k - 1], grown[k][0], size, room) {
      assert old'[k][0] == grown[k][0] && old'[k - 1] == grown[k - 1];
    }
    forall k | 0 < k < |next| && Overflows(g, x, size, room)
      ensures next[k] != [] && Overflows(next[k - 1], next[k][0], size, room)
    {
      assert next[k - 1] == old'[k - 1];
      assert k < |old'| ==> next[k] == old'[k];
    }
  }

  lemma {:induction false} PackIsGreedy<T>(xs: seq<T>, size: T -> nat, room: nat)
    requires forall x :: x in xs ==> size(x) <= room
    ensures var p := Pack(xs, size, room);
            if p.open == [] then p.closed == [] else Greedy(p.closed + [p.open], size, room)
  {
    if xs == [] {
    } else {
      var p, x := Pack(xs[..|xs| - 1], size, room), xs[|xs| - 1];
      PackIsGreedy(xs[..|xs| - 1], size, room);
      if p.open != [] { GreedyGrows(p.closed, p.open, x, size, room); }
      assert [] + [x] == [x];
    }
  }

  lemma GroupsAreGreedy<T>(xs: seq<T>, size: T -> nat, room: nat)
    requires forall x :: x in xs ==> size(x) <= room
    ensures Greedy(Groups(xs, size, room), size, room)
  {
    PackIsGreedy(xs, size, room);
  }
}
