/**
 Scanning a reused buffer of back-to-back records, each as long as its first element says.
 */
module Scanning {
  import opened Packing

  /** At most `k` records, while the offset is inside the first `n` elements.  A record that
      would run past the buffer itself ends the scan. */
  function Scan<B, T>(buf: seq<B>, n: nat, offset: nat, k: nat, size: B -> nat, read: seq<B> -> T): seq<T>
    decreases k
  {
    if k == 0 || offset >= n || offset >= |buf| || offset + size(buf[offset]) > |buf| then [] else
    var next := offset + size(buf[offset]);
    [read(buf[offset..next])] + Scan(buf, n, next, k - 1, size, read)
  }

  /** Where that stops. */
  function ScanEnd<B>(buf: seq<B>, n: nat, offset: nat, k: nat, size: B -> nat): nat
    decreases k
  {
    if k == 0 || offset >= n || offset >= |buf| || offset + size(buf[offset]) > |buf| then offset
    else ScanEnd(buf, n, offset + size(buf[offset]), k - 1, size)
  }

  /** Every record that the scan meets lies inside the buffer. */
  ghost predicate InBuffer<B>(buf: seq<B>, n: nat, offset: nat, k: nat, size: B -> nat)
    decreases k
  {
    || k == 0 || offset >= n
    || (offset < |buf| && offset + size(buf[offset]) <= |buf|
        && InBuffer(buf, n, offset + size(buf[offset]), k - 1, size))
  }

  /** Room for one longest record behind the received bytes is enough for that. */
  lemma {:induction false} RoomIsEnough<B>(buf: seq<B>, n: nat, offset: nat, k: nat, size: B -> nat, longest: nat)
    requires n + longest <= |buf| && forall i :: 0 <= i < |buf| ==> size(buf[i]) <= longest
    ensures InBuffer(buf, n, offset, k, size)
    decreases k
  {
    if k == 0 || offset >= n {
    } else if offset < |buf| {
      RoomIsEnough(buf, n, offset + size(buf[offset]), k - 1, size, longest);
    }
  }

  /** `r` is a record of its own size that reads as `t`. */
  ghost predicate Carries<B, T>(r: seq<B>, t: T, size: B -> nat, read: seq<B> -> T) {
    r != [] && size(r[0]) == |r| && read(r) == t
  }

  ghost predicate AllCarry<B, T>(rs: seq<seq<B>>, ts: seq<T>, size: B -> nat, read: seq<B> -> T) {
    |rs| == |ts| && forall i :: 0 <= i < |ts| ==> Carries(rs[i], ts[i], size, read)
  }

  lemma JoinFront<T>(xs: seq<seq<T>>)
    requires xs != []
    ensures Join(xs) == xs[0] + Join(xs[1..])
  {
    assert xs == [xs[0]] + xs[1..];
    JoinConcat([xs[0]], xs[1..]);
    JoinSnoc([], xs[0]);
    assert [] + [xs[0]] == [xs[0]];
  }

  lemma SplitAt<T>(buf: seq<T>, offset: nat, x: seq<T>, y: seq<T>)
    requires offset + |x + y| <= |buf| && buf[offset..offset + |x + y|] == x + y
    ensures buf[offset..offset + |x|] == x && buf[offset + |x|..offset + |x| + |y|] == y
  {
    assert (x + y)[..|x|] == x && (x + y)[|x|..] == y;
  }

  /** The first record lies at the offset and the rest behind it. */
  lemma FirstRecord<B, T>(buf: seq<B>, n: nat, offset: nat, rs: seq<seq<B>>, ts: seq<T>, size: B -> nat, read: seq<B> -> T)
    requires ts != [] && AllCarry(rs, ts, size, read)
    requires offset + |Join(rs)| == n <= |buf| && buf[offset..n] == Join(rs)
    ensures var next := offset + |rs[0]|;
            && offset < next <= n && size(buf[offset]) == |rs[0]| && read(buf[offset..next]) == ts[0]
            && n == next + |Join(rs[1..])| && buf[next..n] == Join(rs[1..])
    ensures AllCarry(rs[1..], ts[1..], size, read)
  {
    assert Carries(rs[0], ts[0], size, read);
    JoinFront(rs);
    SplitAt(buf, offset, rs[0], Join(rs[1..]));
    assert buf[offset] == rs[0][0];
  }

  /** A scan of joined records reads them all and stops at their end. */
  lemma {:induction false} ScanReads<B, T>(buf: seq<B>, n: nat, offset: nat, rs: seq<seq<B>>, ts: seq<T>,
                                           size: B -> nat, read: seq<B> -> T)
    requires AllCarry(rs, ts, size, read)
    requires n == offset + |Join(rs)| <= |buf| && buf[offset..n] == Join(rs)
    ensures Scan(buf, n, offset, |ts|, size, read) == ts
    ensures ScanEnd(buf, n, offset, |ts|, size) == n
    decreases |ts|
  {
    if ts == [] {
    } else {
      FirstRecord(buf, n, offset, rs, ts, size, read);
      ScanReads(buf, n, offset + |rs[0]|, rs[1..], ts[1..], size, read);
      assert ts == [ts[0]] + ts[1..];
    }
  }

  function UpTo<T>(ts: seq<T>, k: nat): seq<T> {
    if k <= |ts| then ts[..k] else ts
  }

  lemma UpToFront<T>(ts: seq<T>, k: nat)
    requires ts != [] && k > 0
    ensures UpTo(ts, k) == [ts[0]] + UpTo(ts[1..], k - 1)
  {
  }

  /** One turn of a scan over joined records. */
  lemma ScanStep<B, T>(buf: seq<B>, n: nat, offset: nat, k: nat, rs: seq<seq<B>>, ts: seq<T>,
                       size: B -> nat, read: seq<B> -> T)
    requires ts != [] && k > 0 && AllCarry(rs, ts, size, read)
    requires n == offset + |Join(rs)| <= |buf| && buf[offset..n] == Join(rs)
    ensures var next := offset + |rs[0]|;
            && AllCarry(rs[1..], ts[1..], size, read) && n == next + |Join(rs[1..])| && buf[next..n] == Join(rs[1..])
            && Scan(buf, n, offset, k, size, read) == [ts[0]] + Scan(buf, n, next, k - 1, size, read)
  {
    FirstRecord(buf, n, offset, rs, ts, size, read);
  }

  lemma ScanStops<B, T>(buf: seq<B>, n: nat, offset: nat, k: nat, size: B -> nat, read: seq<B> -> T)
    requires k == 0 || offset >= n
    ensures Scan(buf, n, offset, k, size, read) == []
  {
  }

  /** With any other count: fewer are read if fewer are asked for, and none past the end of
      the first `n` elements however many are. */
  lemma {:induction false} ScanReadsUpTo<B, T>(buf: seq<B>, n: nat, offset: nat, k: nat, rs: seq<seq<B>>, ts: seq<T>,
                                               size: B -> nat, read: seq<B> -> T)
    requires AllCarry(rs, ts, size, read)
    requires n == offset + |Join(rs)| <= |buf| && buf[offset..n] == Join(rs)
    ensures Scan(buf, n, offset, k, size, read) == UpTo(ts, k)
    decreases |ts|
  {
    if ts == [] || k == 0 {
      ScanStops(buf, n, offset, k, size, read);
    } else {
      ScanStep(buf, n, offset, k, rs, ts, size, read);
      ScanReadsUpTo(buf, n, offset + |rs[0]|, k - 1, rs[1..], ts[1..], size, read);
      UpToFront(ts, k);
    }
  }

  // ----- one buffer, many arrivals -----

  /** An arrival overwrites its own length and leaves the rest. */
  function Landed<B>(buf: seq<B>, d: seq<B>): seq<B> {
    if |d| <= |buf| then d + buf[|d|..] else buf
  }

  function BufferAfter<B>(buf: seq<B>, arrivals: seq<seq<B>>): seq<B> {
    if arrivals == [] then buf
    else Landed(BufferAfter(buf, arrivals[..|arrivals| - 1]), arrivals[|arrivals| - 1])
  }

  /** Everything read from a list of arrivals. */
  function Heard<B, T>(buf: seq<B>, arrivals: seq<seq<B>>, unpack: (seq<B>, nat) -> seq<T>): seq<T> {
    if arrivals == [] then [] else
    Heard(buf, arrivals[..|arrivals| - 1], unpack)
    + unpack(BufferAfter(buf, arrivals), |arrivals[|arrivals| - 1]|)
  }

  lemma {:induction false} BufferLength<B>(buf: seq<B>, arrivals: seq<seq<B>>)
    ensures |BufferAfter(buf, arrivals)| == |buf|
  {
    if arrivals == [] {
    } else {
      BufferLength(buf, arrivals[..|arrivals| - 1]);
    }
  }

  lemma HeardNext<B, T>(buf: seq<B>, arrivals: seq<seq<B>>, a: nat, unpack: (seq<B>, nat) -> seq<T>)
    requires a < |arrivals|
    ensures BufferAfter(buf, arrivals[..a + 1]) == Landed(BufferAfter(buf, arrivals[..a]), arrivals[a])
    ensures Heard(buf, arrivals[..a + 1], unpack)
            == Heard(buf, arrivals[..a], unpack) + unpack(BufferAfter(buf, arrivals[..a + 1]), |arrivals[a]|)
  {
    assert arrivals[..a + 1][..a] == arrivals[..a];
  }

  /** `d` reads as `ts` from any buffer of this length, whatever lies behind it. */
  ghost predicate ReadsAs<B(!new), T>(d: seq<B>, ts: seq<T>, length: nat, unpack: (seq<B>, nat) -> seq<T>) {
    |d| <= length && forall b: seq<B> :: |b| == length && b[..|d|] == d ==> unpack(b, |d|) == ts
  }

  ghost predicate AllReadAs<B(!new), T>(ds: seq<seq<B>>, tss: seq<seq<T>>, length: nat, unpack: (seq<B>, nat) -> seq<T>) {
    |ds| == |tss| && forall i :: 0 <= i < |ds| ==> ReadsAs(ds[i], tss[i], length, unpack)
  }

  /** What is read from a list of arrivals is what each of them carries. */
  lemma {:induction false} ArrivalsRead<B(!new), T>(buf: seq<B>, ds: seq<seq<B>>, tss: seq<seq<T>>,
                                                    unpack: (seq<B>, nat) -> seq<T>)
    requires AllReadAs(ds, tss, |buf|, unpack)
    ensures Heard(buf, ds, unpack) == Join(tss)
    decreases |ds|
  {
    if ds == [] {
    } else {
      var n := |ds| - 1;
      ArrivalsRead(buf, ds[..n], tss[..n], unpack);
      BufferLength(buf, ds[..n]);
      BufferLength(buf, ds);
      assert ReadsAs(ds[n], tss[n], |buf|, unpack);
      assert BufferAfter(buf, ds)[..|ds[n]|] == ds[n];
    }
  }
}
