/**
 The ring through which a signal handler tells the parent loop which child processes died
 (`src/app/app_runtime.c`): records overwrite the oldest slot, a drain skips what was overwritten and counts it.
 */
module DeathRing {

  const CAPACITY: nat := 64

  datatype Death = Death(pid: int, status: int)

  /** The number of the record found in the slot of record `i` once `w` records were made: the last one to use that slot. */
  function Holder(i: nat, w: nat): (h: nat)
    requires i < w
    decreases w - i
  {
    if i + CAPACITY < w then Holder(i + CAPACITY, w) else i
  }

  lemma {:induction false} HolderBounds(i: nat, w: nat)
    requires i < w
    ensures Holder(i, w) < w <= Holder(i, w) + CAPACITY && Holder(i, w) % CAPACITY == i % CAPACITY && Holder(i, w) >= i
    decreases w - i
  {
    if i + CAPACITY < w {
      HolderBounds(i + CAPACITY, w);
    }
  }

  /** A record can still be read in its slot exactly while at most 64 records, itself included, follow its start. */
  lemma HolderExact(i: nat, w: nat)
    requires i < w
    ensures Holder(i, w) == i <==> w <= i + CAPACITY
  {
    if i + CAPACITY < w {
      HolderBounds(i + CAPACITY, w);
    }
  }

  /** The first record a drain can still return: the oldest unread one, or the oldest of the last 64. */
  function Start(read: nat, write: nat): (s: nat)
    requires read <= write
    ensures read <= s <= write && write <= s + CAPACITY
    ensures s == read || s + CAPACITY == write
  {
    if write - read > CAPACITY then write - CAPACITY else read
  }

  function Least(a: nat, b: nat): (n: nat)
    ensures n <= a && n <= b && (n == a || n == b)
  {
    if a <= b then a else b
  }

  function Range(from: nat, to: nat): (r: seq<nat>)
    requires from <= to
    ensures |r| == to - from && forall k :: 0 <= k < |r| ==> r[k] == from + k
  {
    seq(to - from, k requires 0 <= k => from + k)
  }

  /** How many records arrive in the first `n` groups. */
  function Arrived(arrivals: seq<seq<Death>>, n: nat): nat
    requires n <= |arrivals|
  {
    if n == 0 then 0 else Arrived(arrivals, n - 1) + |arrivals[n - 1]|
  }

  lemma {:induction false} ArrivedGrows(arrivals: seq<seq<Death>>, m: nat, n: nat)
    requires m <= n <= |arrivals|
    ensures Arrived(arrivals, m) <= Arrived(arrivals, n)
    decreases n
  {
    if m < n {
      ArrivedGrows(arrivals, m, n - 1);
    }
  }

  predicate Increasing(s: seq<nat>) { forall j, k :: 0 <= j < k < |s| ==> s[j] < s[k] }

  /** Each record before `read` was either returned or skipped, never both; what was returned is in order, once. */
  predicate Accounted(read: nat, got: seq<nat>, lost: seq<nat>) {
    && Increasing(got) && Increasing(lost) && |got| + |lost| == read
    && (forall i :: i in got ==> i < read && i !in lost)
    && (forall i :: i in lost ==> i < read)
    && (forall i :: 0 <= i < read ==> i in got || i in lost)
  }

  lemma AccountedMore(read: nat, got: seq<nat>, lost: seq<nat>, start: nat, end: nat)
    requires Accounted(read, got, lost) && read <= start <= end
    ensures Accounted(end, got + Range(start, end), lost + Range(read, start))
  {
    var more, less := got + Range(start, end), lost + Range(read, start);
    forall i | 0 <= i < end ensures i in more || i in less {
      if i >= start {
        assert i == Range(start, end)[i - start];
      } else if i >= read {
        assert i == Range(read, start)[i - read];
      }
    }
    forall j, k | 0 <= j < k < |more| ensures more[j] < more[k] {
      if j < |got| <= k {
        assert got[j] in got;
      }
    }
    forall j, k | 0 <= j < k < |less| ensures less[j] < less[k] {
      if j < |lost| <= k {
        assert lost[j] in lost;
      }
    }
  }

  /** `d` is what the slot of record `i` holds after `w` records. */
  ghost predicate Read(recorded: seq<Death>, d: Death, i: nat, w: nat) {
    i < w && Holder(i, w) < |recorded| && d == recorded[Holder(i, w)]
  }

  class Ring {
    var slots: array<Death>
    var write: nat
    var read: nat
    var dropped: nat
    ghost var recorded: seq<Death>
    ghost var got: seq<nat>
    ghost var lost: seq<nat>
    ghost var told: nat

    ghost predicate Filled()
      reads this, slots
    {
      && slots.Length == CAPACITY && write == |recorded|
      && forall i :: 0 <= i < write && write <= i + CAPACITY ==> slots[i % CAPACITY] == recorded[i]
    }

    /** Recorded == returned + skipped + still pending, and every skip was or will be reported. */
    ghost predicate Valid()
      reads this, slots
    {
      && Filled() && read <= write
      && Accounted(read, got, lost)
      && |lost| == told + dropped
    }

    constructor ()
      ensures Valid() && fresh(slots) && recorded == [] && got == [] && lost == [] && told == 0
    {
      slots := new Death[CAPACITY](i => Death(0, 0));
      write, read, dropped, told := 0, 0, 0, 0;
      recorded, got, lost := [], [], [];
    }

    /** From the signal handler: one atomic step. */
    method Record(d: Death)
      requires Filled()
      modifies this`write, this`recorded, slots
      ensures Filled() && recorded == old(recorded) + [d]
    {
      var idx := write;
      write := write + 1;
      slots[idx % CAPACITY] := d;
      recorded := recorded + [d];
      forall i | 0 <= i < write && write <= i + CAPACITY ensures slots[i % CAPACITY] == recorded[i] {
        if i < idx {
          OtherSlots(i, idx);
        }
      }
    }

    method RecordAll(ds: seq<Death>)
      requires Filled()
      modifies this`write, this`recorded, slots
      ensures Filled() && recorded == old(recorded) + ds
    {
      for k := 0 to |ds|
        invariant Filled() && recorded == old(recorded) + ds[..k]
      {
        Record(ds[k]);
      }
    }

    /** Read the next slot, after the deaths that landed just before. */
    method ReadSlot(landed: seq<Death>) returns (d: Death)
      requires Filled() && read < write
      modifies this`write, this`recorded, this`read, slots
      ensures Filled() && recorded == old(recorded) + landed && read == old(read) + 1
      ensures Read(recorded, d, old(read), |recorded|)
    {
      RecordAll(landed);
      HolderBounds(read, write);
      d := slots[read % CAPACITY];
      read := read + 1;
    }

    /** Read `count` slots in a row. */
    method ReadSlots(out: array<Death>, count: nat, arrivals: seq<seq<Death>>) returns (n: nat)
      requires Filled() && read + count <= write && count <= out.Length && out != slots && |arrivals| == out.Length
      modifies this`write, this`read, this`recorded, slots, out
      ensures Filled() && n == count && read == old(read) + n
      ensures old(recorded) <= recorded && |recorded| == old(write) + Arrived(arrivals, n)
      ensures forall k :: 0 <= k < n ==> Read(recorded, out[k], old(read) + k, old(write) + Arrived(arrivals, k + 1))
    {
      n := 0;
      while n < count
        invariant Filled() && n <= count && read == old(read) + n
        invariant old(recorded) <= recorded && |recorded| == old(write) + Arrived(arrivals, n)
        invariant forall k :: 0 <= k < n ==> Read(recorded, out[k], old(read) + k, old(write) + Arrived(arrivals, k + 1))
      {
        var d := ReadSlot(arrivals[n]);
        out[n] := d;
        n := n + 1;
      }
    }

    /**
     Return at most `max` deaths, oldest first. The deaths in `arrivals[k]` are recorded by the handler while the
     drain runs, just before it reads its `k`-th slot.
     What it reads is the record it means exactly as long as the slot was not reused meanwhile.
     */
    method Drain(out: array<Death>, max: int, arrivals: seq<seq<Death>>) returns (n: nat)
      requires Valid() && max <= out.Length && out != slots && |arrivals| == out.Length
      modifies this`write, this`read, this`dropped, this`recorded, this`got, this`lost, slots, out
      ensures Valid() && told == old(told) && old(recorded) <= recorded
      ensures max <= 0 ==> n == 0 && read == old(read) && recorded == old(recorded) && lost == old(lost) && got == old(got)
      ensures max > 0 ==>
        var start := Start(old(read), old(write));
        && n == Least(max, old(write) - start)
        && lost == old(lost) + Range(old(read), start) && got == old(got) + Range(start, start + n)
        && |recorded| == old(write) + Arrived(arrivals, n)
        && (forall k :: 0 <= k < n ==> Read(recorded, out[k], start + k, old(write) + Arrived(arrivals, k + 1)))
      ensures max > 0 && RoomThroughout(old(read), old(write), arrivals, n) ==>
        old(write) <= |recorded| && out[..n] == recorded[Start(old(read), old(write))..][..n]
    {
      n := 0;
      if max <= 0 {
        return;
      }
      ghost var first, before := read, write;
      var available := SkipOverwritten();
      ghost var start := read;
      n := ReadSlots(out, Least(max, available), arrivals);
      DrainReads(first, before, arrivals, n, out[..], recorded);
      Book(first, start, start + n);
    }

    /** What was overwritten since the last drain is skipped and counted; returns how many records can be read. */
    method SkipOverwritten() returns (available: nat)
      requires Filled() && read <= write
      modifies this`read, this`dropped
      ensures Filled() && read == Start(old(read), write) && available == write - read
      ensures dropped == old(dropped) + (read - old(read))
    {
      var writeIndex := write;
      available := writeIndex - read;
      if available > CAPACITY {
        dropped := dropped + (available - CAPACITY);
        read := writeIndex - CAPACITY;
        available := CAPACITY;
      }
    }

    ghost method Book(first: nat, start: nat, end: nat)
      requires Accounted(first, got, lost) && first <= start <= end
      modifies this`got, this`lost
      ensures got == old(got) + Range(start, end) && lost == old(lost) + Range(first, start)
      ensures Accounted(end, got, lost)
    {
      AccountedMore(first, got, lost, start, end);
      lost := lost + Range(first, start);
      got := got + Range(start, end);
    }

    /** The number of deaths skipped since the last time it was asked for. */
    method DroppedCount() returns (d: nat)
      requires Valid()
      modifies this`dropped, this`told
      ensures Valid() && d == |lost| - old(told) && told == |lost| && dropped == 0
    {
      d := dropped;
      dropped := 0;
      told := told + d;
    }
  }

  lemma OtherSlots(i: nat, j: nat)
    requires i < j < i + CAPACITY
    ensures i % CAPACITY != j % CAPACITY
  {
  }

  /** The `k`-th slot a drain reads still holds the record it means. */
  predicate ReadsRight(read: nat, write: nat, arrivals: seq<seq<Death>>, k: nat)
    requires read <= write && k < write - Start(read, write) && k < |arrivals|
  {
    Holder(Start(read, write) + k, write + Arrived(arrivals, k + 1)) == Start(read, write) + k
  }

  /** The deaths landing before the `k`-th read fit in the slots that are free by then. */
  predicate LeavesRoom(read: nat, write: nat, arrivals: seq<seq<Death>>, k: nat)
    requires read <= write && k < |arrivals|
  {
    Arrived(arrivals, k + 1) <= CAPACITY - (write - Start(read, write)) + k
  }

  /**
   A drain of `n` slots reads the records it accounts for, all of them, exactly when at each read no more deaths
   landed since it began than slots were free at its beginning or read before.
   */
  lemma DrainExact(read: nat, write: nat, arrivals: seq<seq<Death>>, n: nat)
    requires read <= write && n <= write - Start(read, write) && n <= |arrivals|
    ensures (forall k :: 0 <= k < n ==> ReadsRight(read, write, arrivals, k))
       <==> RoomThroughout(read, write, arrivals, n)
  {
    forall k | 0 <= k < n ensures ReadsRight(read, write, arrivals, k) <==> LeavesRoom(read, write, arrivals, k) {
      HolderExact(Start(read, write) + k, write + Arrived(arrivals, k + 1));
    }
  }

  predicate RoomThroughout(read: nat, write: nat, arrivals: seq<seq<Death>>, n: nat)
    requires read <= write && n <= |arrivals|
  {
    forall k :: 0 <= k < n ==> LeavesRoom(read, write, arrivals, k)
  }

  /** What a drain then returns is the stretch of the record it accounts for. */
  lemma DrainReads(read: nat, write: nat, arrivals: seq<seq<Death>>, n: nat, out: seq<Death>, recorded: seq<Death>)
    requires read <= write <= |recorded| && n <= write - Start(read, write) && n <= |arrivals| && n <= |out|
    requires forall k :: 0 <= k < n ==> Read(recorded, out[k], Start(read, write) + k, write + Arrived(arrivals, k + 1))
    ensures RoomThroughout(read, write, arrivals, n) ==> out[..n] == recorded[Start(read, write)..][..n]
  {
    if RoomThroughout(read, write, arrivals, n) {
      DrainExact(read, write, arrivals, n);
      forall k | 0 <= k < n ensures out[k] == recorded[Start(read, write)..][k] {
        assert ReadsRight(read, write, arrivals, k);
      }
    }
  }

  /** In particular when all the deaths that land while it runs fit in the slots free at its beginning. */
  lemma QuietDrain(read: nat, write: nat, arrivals: seq<seq<Death>>, n: nat)
    requires read <= write && n <= write - Start(read, write) && n <= |arrivals|
    requires Arrived(arrivals, n) <= CAPACITY - (write - Start(read, write))
    ensures RoomThroughout(read, write, arrivals, n)
  {
    forall k | 0 <= k < n ensures LeavesRoom(read, write, arrivals, k) {
      ArrivedGrows(arrivals, k + 1, n);
    }
  }

  /** With the ring full, a single death landing first is enough: the drain then reads that newest death as the oldest. */
  lemma OverrunDrain(write: nat)
    requires write >= CAPACITY
    ensures Start(write - CAPACITY, write) == write - CAPACITY && Holder(write - CAPACITY, write + 1) == write
  {
    assert Holder(write, write + 1) == write;
  }
}
