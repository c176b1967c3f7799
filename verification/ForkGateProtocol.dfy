/**
 The quiescence gate of `src/app/fork_gate.c` as a state machine over its atomic steps.

 A step is one mutex-protected section (up to the next unlock or condition wait), the lock-free read of
 the flag, a wake-up, or a return. Condition waits are explicit: a sleeping thread moves only when a
 broadcast, a spurious wake-up or a timeout takes it out of its wait set, and it then has to reacquire
 the mutex before it looks at anything.
 */
module ForkGateProtocol {
  const MAX_PARTICIPANTS: nat := 8

  datatype Status = Running | Parked | Blocked

  /** Where the thread that owns a slot stands. */
  datatype Pc =
    | Outside      // between two calls
    | Leaving      // in checkpoint, the lock-free read saw 0, not yet returned
    | AtLock       // in checkpoint, the lock-free read saw 1, waiting for the mutex
    | Asleep       // in checkpoint, on the released condition
    | Woken        // in checkpoint, taken off the released condition, waiting for the mutex
    | InCall       // between mark_blocked(1) and mark_blocked(0)

  datatype Slot = Slot(inUse: bool, status: Status, pc: Pc)

  /** Where the single requester stands. */
  datatype Requester =
    | Resting      // no request outstanding
    | Sleeping     // on the state-changed condition
    | Signalled    // woken, or about to test, with budget left
    | TimedOut     // woken because the budget ran out
    | Quiesced     // request returned QUIESCED, not yet released

  datatype State = State(slots: seq<Slot>, flag: bool, req: Requester)

  datatype Label =
    | Register
    | Unregister(i: nat)
    | FastRead(i: nat)
    | Return(i: nat)
    | Lock(i: nat)
    | WakeSpuriously(i: nat)
    | Reacquire(i: nat)
    | BlockOn(i: nat)
    | BlockOff(i: nat)
    | Request
    | RequesterWakesSpuriously
    | BudgetExpires
    | Recheck
    | Release

  const Init := State(seq(MAX_PARTICIPANTS, _ => Slot(false, Running, Outside)), false, Resting)

  predicate IsRunning(s: Slot) { s.inUse && s.status == Running }

  predicate AllQuiescent(s: State) { forall i :: 0 <= i < |s.slots| ==> !IsRunning(s.slots[i]) }

  predicate IsFirstFree(s: State, i: int) {
    0 <= i < |s.slots| && !s.slots[i].inUse && forall j :: 0 <= j < i ==> s.slots[j].inUse
  }

  function FirstFreeFrom(s: State, i: nat): (k: nat)
    requires i <= |s.slots|
    requires forall j :: 0 <= j < i ==> s.slots[j].inUse
    ensures k <= |s.slots| && (k < |s.slots| ==> IsFirstFree(s, k)) && (k == |s.slots| ==> forall j :: 0 <= j < k ==> s.slots[j].inUse)
    decreases |s.slots| - i
  {
    if i == |s.slots| || !s.slots[i].inUse then i else FirstFreeFrom(s, i + 1)
  }

  /** Broadcast on the released condition. */
  function WakeAll(slots: seq<Slot>): (r: seq<Slot>)
    ensures |r| == |slots|
    ensures forall i :: 0 <= i < |r| ==> r[i] == if slots[i].pc == Asleep then slots[i].(pc := Woken) else slots[i]
  {
    seq(|slots|, i requires 0 <= i < |slots| => if slots[i].pc == Asleep then slots[i].(pc := Woken) else slots[i])
  }

  /** Broadcast on the state-changed condition. */
  function Notify(req: Requester): Requester { if req == Sleeping then Signalled else req }

  predicate Owned(s: State, i: nat, pc: Pc) { i < |s.slots| && s.slots[i].inUse && s.slots[i].pc == pc }

  predicate Enabled(s: State, l: Label) {
    match l
    case Register => exists i :: 0 <= i < |s.slots| && !s.slots[i].inUse
    case Unregister(i) => i < |s.slots| && s.slots[i].pc == Outside    // a free slot may be freed again
    case FastRead(i) => Owned(s, i, Outside)
    case Return(i) => Owned(s, i, Leaving)
    case Lock(i) => Owned(s, i, AtLock)
    case WakeSpuriously(i) => Owned(s, i, Asleep)
    case Reacquire(i) => Owned(s, i, Woken)
    case BlockOn(i) => Owned(s, i, Outside)
    case BlockOff(i) => Owned(s, i, InCall)
    case Request => s.req == Resting
    case RequesterWakesSpuriously => s.req == Sleeping
    case BudgetExpires => s.req == Sleeping || s.req == Signalled
    case Recheck => s.req == Signalled || s.req == TimedOut
    case Release => s.req == Quiesced
  }

  function Put(s: State, i: nat, slot: Slot): State
    requires i < |s.slots|
  {
    s.(slots := s.slots[i := slot])
  }

  function Cancel(s: State): State { State(WakeAll(s.slots), false, Resting) }

  /** The effect of one step. */
  function Step(s: State, l: Label): State
    requires Enabled(s, l)
  {
    match l
    case Register =>
      var i := FirstFreeFrom(s, 0);
      Put(s, i, Slot(true, Running, Outside)).(req := Notify(s.req))
    case Unregister(i) => Put(s, i, s.slots[i].(inUse := false)).(req := Notify(s.req))
    case FastRead(i) => Put(s, i, s.slots[i].(pc := if s.flag then AtLock else Leaving))
    case Return(i) => Put(s, i, s.slots[i].(pc := Outside))
    case Lock(i) =>
      if !s.flag then Put(s, i, s.slots[i].(pc := Outside))
      else Put(s, i, Slot(true, Parked, Asleep)).(req := Notify(s.req))
    case WakeSpuriously(i) => Put(s, i, s.slots[i].(pc := Woken))
    case Reacquire(i) =>
      if s.flag then Put(s, i, s.slots[i].(pc := Asleep)) else Put(s, i, Slot(true, Running, Outside))
    case BlockOn(i) => Put(s, i, Slot(true, Blocked, InCall)).(req := Notify(s.req))
    case BlockOff(i) => Put(s, i, Slot(true, Running, Outside)).(req := Notify(s.req))
    case Request => s.(flag := true, req := if AllQuiescent(s) then Quiesced else Sleeping)
    case RequesterWakesSpuriously => s.(req := Signalled)
    case BudgetExpires => s.(req := TimedOut)
    case Recheck =>
      if AllQuiescent(s) then s.(req := Quiesced)
      else if s.req == Signalled then s.(req := Sleeping)
      else Cancel(s)
    case Release => Cancel(s)
  }

  /** A thread inside a checkpoint. */
  predicate InCheckpoint(s: Slot) { s.inUse && (s.pc == Leaving || s.pc == AtLock || s.pc == Asleep || s.pc == Woken) }

  predicate Leaves(s: State, t: State, i: nat) {
    i < |s.slots| && i < |t.slots| && InCheckpoint(s.slots[i]) && !InCheckpoint(t.slots[i])
  }

  /** The step takes a thread out of a checkpoint. */
  predicate Passes(s: State, l: Label)
    requires Enabled(s, l)
  {
    var t := Step(s, l);
    exists i :: 0 <= i < |s.slots| && Leaves(s, t, i)
  }

  /** Which steps do: the return of the fast path and, with the flag down, the slow path before and after its wait. */
  predicate PassingStep(s: State, l: Label) {
    l.Return? || ((l.Lock? || l.Reacquire?) && !s.flag)
  }

  lemma PassesExact(s: State, l: Label)
    requires Enabled(s, l)
    ensures Passes(s, l) <==> PassingStep(s, l)
  {
    var t := Step(s, l);
    if PassingStep(s, l) {
      assert Leaves(s, t, l.i);
    } else {
      forall i | 0 <= i < |s.slots| ensures !Leaves(s, t, i) {}
    }
  }

  // ------------------------------------------------------------------
  // The invariant
  // ------------------------------------------------------------------

  /** A thread's announced status and its position agree. */
  predicate SlotInv(s: Slot) {
    && (!s.inUse ==> s.pc == Outside)
    && (s.inUse ==>
         && (s.status == Running <==> s.pc == Outside || s.pc == Leaving || s.pc == AtLock)
         && (s.status == Parked <==> s.pc == Asleep || s.pc == Woken)
         && (s.status == Blocked <==> s.pc == InCall))
  }

  predicate SlotsInv(s: State) { forall i :: 0 <= i < |s.slots| ==> SlotInv(s.slots[i]) }

  /** No sleeper on the released condition without a raised flag to wait for. */
  predicate NobodyForgotten(s: State) {
    !s.flag ==> forall i :: 0 <= i < |s.slots| ==> s.slots[i].pc != Asleep
  }

  /** The requester sleeps only while some participant still has a state change to announce. */
  predicate RequesterHasCause(s: State) { s.req == Sleeping ==> !AllQuiescent(s) }

  /** Between QUIESCED and release nobody is on its way out of a checkpoint. */
  predicate NobodyLeaving(s: State) {
    s.req == Quiesced ==> forall i :: 0 <= i < |s.slots| ==> s.slots[i].pc != Leaving
  }

  predicate Inv(s: State) {
    && |s.slots| == MAX_PARTICIPANTS
    && SlotsInv(s)
    && (s.flag <==> s.req != Resting)
    && NobodyForgotten(s)
    && RequesterHasCause(s)
    && NobodyLeaving(s)
  }

  lemma InitInv()
    ensures Inv(Init)
  {
  }

  lemma PutInv(s: State, i: nat, slot: Slot, req: Requester)
    requires Inv(s) && i < |s.slots| && SlotInv(slot) && (s.flag <==> req != Resting)
    requires slot.pc == Asleep ==> s.flag
    requires req == Quiesced ==> s.req == Quiesced && slot.pc != Leaving
    requires req == Sleeping ==> s.req == Sleeping && (IsRunning(s.slots[i]) ==> IsRunning(slot))
    ensures Inv(Put(s, i, slot).(req := req))
  {
    var t := Put(s, i, slot).(req := req);
    if req == Sleeping {
      var k :| 0 <= k < |s.slots| && IsRunning(s.slots[k]);
      assert IsRunning(t.slots[k]);
    }
  }

  lemma CancelInv(s: State)
    requires Inv(s)
    ensures Inv(Cancel(s))
  {
  }

  /** Every step of every thread keeps the invariant. */
  lemma StepInv(s: State, l: Label)
    requires Inv(s) && Enabled(s, l)
    ensures Inv(Step(s, l))
  {
    match l
    case Register =>
      var i := FirstFreeFrom(s, 0);
      PutInv(s, i, Slot(true, Running, Outside), Notify(s.req));
    case Unregister(i) => PutInv(s, i, s.slots[i].(inUse := false), Notify(s.req));
    case FastRead(i) => PutInv(s, i, s.slots[i].(pc := if s.flag then AtLock else Leaving), s.req);
    case Return(i) => PutInv(s, i, s.slots[i].(pc := Outside), s.req);
    case Lock(i) =>
      if s.flag {
        PutInv(s, i, Slot(true, Parked, Asleep), Notify(s.req));
      } else {
        PutInv(s, i, s.slots[i].(pc := Outside), s.req);
      }
    case WakeSpuriously(i) => PutInv(s, i, s.slots[i].(pc := Woken), s.req);
    case Reacquire(i) =>
      PutInv(s, i, if s.flag then s.slots[i].(pc := Asleep) else Slot(true, Running, Outside), s.req);
    case BlockOn(i) => PutInv(s, i, Slot(true, Blocked, InCall), Notify(s.req));
    case BlockOff(i) => PutInv(s, i, Slot(true, Running, Outside), Notify(s.req));
    case Request => RaiseInv(s);
    case RequesterWakesSpuriously =>
    case BudgetExpires =>
    case Recheck => RecheckInv(s);
    case Release => CancelInv(s);
  }

  lemma RaiseInv(s: State)
    requires Inv(s) && s.req == Resting
    ensures Inv(Step(s, Request))
  {
    QuiescentNobodyLeaving(s);
    var t := Step(s, Request);
    assert AllQuiescent(t) <==> AllQuiescent(s) by {
      assert t.slots == s.slots;
    }
  }

  lemma RecheckInv(s: State)
    requires Inv(s) && (s.req == Signalled || s.req == TimedOut)
    ensures Inv(Step(s, Recheck))
  {
    QuiescentNobodyLeaving(s);
    CancelInv(s);
  }

  lemma QuiescentNobodyLeaving(s: State)
    requires SlotsInv(s)
    ensures AllQuiescent(s) ==> forall i :: 0 <= i < |s.slots| ==> s.slots[i].pc != Leaving
  {
    if AllQuiescent(s) {
      forall i | 0 <= i < |s.slots| ensures s.slots[i].pc != Leaving {
        assert SlotInv(s.slots[i]) && !IsRunning(s.slots[i]);
      }
    }
  }

  // ------------------------------------------------------------------
  // Whole runs
  // ------------------------------------------------------------------

  predicate ValidRun(s: State, ls: seq<Label>)
    decreases |ls|
  {
    ls == [] || (Enabled(s, ls[0]) && ValidRun(Step(s, ls[0]), ls[1..]))
  }

  function After(s: State, ls: seq<Label>): State
    requires ValidRun(s, ls)
    decreases |ls|
  {
    if ls == [] then s else After(Step(s, ls[0]), ls[1..])
  }

  /** How many times a thread gets past a checkpoint during the run. */
  function PassCount(s: State, ls: seq<Label>): nat
    requires ValidRun(s, ls)
    decreases |ls|
  {
    if ls == [] then 0 else (if Passes(s, ls[0]) then 1 else 0) + PassCount(Step(s, ls[0]), ls[1..])
  }

  /** Every reachable state satisfies the invariant. */
  lemma {:induction false} RunInv(s: State, ls: seq<Label>)
    requires Inv(s) && ValidRun(s, ls)
    ensures Inv(After(s, ls))
    decreases |ls|
  {
    if ls != [] {
      StepInv(s, ls[0]);
      RunInv(Step(s, ls[0]), ls[1..]);
    }
  }

  lemma {:induction false} RunSplit(s: State, a: seq<Label>, b: seq<Label>)
    requires ValidRun(s, a) && ValidRun(After(s, a), b)
    ensures ValidRun(s, a + b) && After(s, a + b) == After(After(s, a), b)
    decreases |a|
  {
    if a == [] {
      assert a + b == b;
    } else {
      assert (a + b)[0] == a[0] && (a + b)[1..] == a[1..] + b;
      RunSplit(Step(s, a[0]), a[1..], b);
    }
  }

  /** No step taken while a quiescence is held lets a thread past a checkpoint, and only the release ends it. */
  lemma HeldStep(s: State, l: Label)
    requires Inv(s) && s.req == Quiesced && Enabled(s, l)
    ensures !Passes(s, l)
    ensures l != Release ==> Step(s, l).req == Quiesced && Step(s, l).flag
  {
    PassesExact(s, l);
  }

  /**
   The guarantee the forker relies on: from the return of QUIESCED to the release, whatever the other
   threads do (come back from a blocking call, wake up spuriously, register, unregister), no thread
   gets past a checkpoint.
   */
  lemma {:induction false} NoPassWhileHeld(s: State, ls: seq<Label>)
    requires Inv(s) && s.req == Quiesced && ValidRun(s, ls) && Release !in ls
    ensures PassCount(s, ls) == 0
    ensures After(s, ls).req == Quiesced && After(s, ls).flag
    decreases |ls|
  {
    if ls != [] {
      HeldStep(s, ls[0]);
      StepInv(s, ls[0]);
      NoPassWhileHeld(Step(s, ls[0]), ls[1..]);
    }
  }

  /** At the return of QUIESCED every registered participant is parked or in a declared blocking call. */
  lemma QuiescedMeansQuiet(s: State, l: Label)
    requires Inv(s) && Enabled(s, l) && s.req != Quiesced && Step(s, l).req == Quiesced
    ensures (l == Request || l == Recheck) && AllQuiescent(Step(s, l)) && Step(s, l).flag
    ensures forall i :: 0 <= i < |s.slots| && s.slots[i].inUse ==>
              s.slots[i].pc == Asleep || s.slots[i].pc == Woken || s.slots[i].pc == InCall
  {
    forall i | 0 <= i < |s.slots| && s.slots[i].inUse
      ensures s.slots[i].pc == Asleep || s.slots[i].pc == Woken || s.slots[i].pc == InCall
    {
      assert SlotInv(s.slots[i]);
      assert !IsRunning(s.slots[i]);
    }
  }

  /** A participant that came back from its blocking call during a quiescence ends up parked, not past the checkpoint. */
  lemma ReturnedFromCallParks(s: State, i: nat)
    requires Inv(s) && s.req == Quiesced && Owned(s, i, InCall)
    ensures ValidRun(s, [BlockOff(i), FastRead(i), Lock(i)])
    ensures Owned(After(s, [BlockOff(i), FastRead(i), Lock(i)]), i, Asleep)
  {
    var s1 := Step(s, BlockOff(i));
    var s2 := Step(s1, FastRead(i));
    var s3 := Step(s2, Lock(i));
    var ls := [BlockOff(i), FastRead(i), Lock(i)];
    assert ls[1..] == [FastRead(i), Lock(i)] && ls[1..][1..] == [Lock(i)] && ls[1..][1..][1..] == [];
    assert ValidRun(s3, []) && ValidRun(s2, [Lock(i)]) && ValidRun(s1, [FastRead(i), Lock(i)]);
    assert After(s3, []) == s3 && After(s2, [Lock(i)]) == s3 && After(s1, [FastRead(i), Lock(i)]) == s3;
  }

  // ------------------------------------------------------------------
  // No lost wake-up
  // ------------------------------------------------------------------

  /**
   In every reachable state: with the flag down nobody sleeps on the released condition, and when the
   requester sleeps some registered participant is still running.
   */
  lemma NoLostWakeup(ls: seq<Label>)
    requires ValidRun(Init, ls)
    ensures var s := After(Init, ls);
      && (!s.flag ==> forall i :: 0 <= i < |s.slots| ==> s.slots[i].pc != Asleep)
      && (s.req == Sleeping ==> exists i :: 0 <= i < |s.slots| && IsRunning(s.slots[i]))
  {
    InitInv();
    RunInv(Init, ls);
    var s := After(Init, ls);
    if s.req == Sleeping && !(exists i :: 0 <= i < |s.slots| && IsRunning(s.slots[i])) {
      assert AllQuiescent(s);
    }
  }

  /** A request that gives up, like a release, lowers the flag and wakes everybody who was parked. */
  lemma CancelWakesAll(s: State, l: Label)
    requires Inv(s) && Enabled(s, l) && s.req != Resting && Step(s, l).req == Resting
    ensures l == Release || (l == Recheck && s.req == TimedOut && !AllQuiescent(s))
    ensures !Step(s, l).flag
    ensures forall i :: 0 <= i < |s.slots| && s.slots[i].pc == Asleep ==> Owned(Step(s, l), i, Woken)
    ensures forall i :: 0 <= i < |s.slots| && s.slots[i].status == Parked && s.slots[i].inUse ==>
              Enabled(Step(s, l), Reacquire(i)) && Passes(Step(s, l), Reacquire(i))
  {
    var t := Step(s, l);
    forall i | 0 <= i < |s.slots| && s.slots[i].status == Parked && s.slots[i].inUse
      ensures Enabled(t, Reacquire(i)) && Passes(t, Reacquire(i))
    {
      assert SlotInv(s.slots[i]);
      PassesExact(t, Reacquire(i));
    }
  }

  // ------------------------------------------------------------------
  // A request can always succeed if the participants keep moving
  // ------------------------------------------------------------------

  predicate Waiting(s: State) { s.req == Sleeping || s.req == Signalled }

  /** The steps with which the owner of slot `i` reaches its parking place once the flag is up. */
  function ParkSteps(s: State, i: nat): seq<Label>
    requires i < |s.slots|
  {
    if !IsRunning(s.slots[i]) then []
    else if s.slots[i].pc == Leaving then [Return(i), FastRead(i), Lock(i)]
    else if s.slots[i].pc == Outside then [FastRead(i), Lock(i)]
    else [Lock(i)]
  }

  lemma LockParks(s: State, i: nat)
    requires Inv(s) && Waiting(s) && Owned(s, i, AtLock)
    ensures ValidRun(s, [Lock(i)])
    ensures After(s, [Lock(i)]) == Put(s, i, Slot(true, Parked, Asleep)).(req := Signalled)
  {
    var t := Step(s, Lock(i));
    assert [Lock(i)][1..] == [];
    assert ValidRun(t, []) && After(t, []) == t;
  }

  lemma FastReadParks(s: State, i: nat)
    requires Inv(s) && Waiting(s) && Owned(s, i, Outside)
    ensures ValidRun(s, [FastRead(i), Lock(i)])
    ensures After(s, [FastRead(i), Lock(i)]) == Put(s, i, Slot(true, Parked, Asleep)).(req := Signalled)
  {
    StepInv(s, FastRead(i));
    LockParks(Step(s, FastRead(i)), i);
    assert [FastRead(i), Lock(i)][1..] == [Lock(i)];
  }

  /** A running participant, left alone, parks and tells the requester. */
  lemma OneParks(s: State, i: nat)
    requires Inv(s) && Waiting(s) && i < |s.slots| && IsRunning(s.slots[i])
    ensures ValidRun(s, ParkSteps(s, i))
    ensures After(s, ParkSteps(s, i)) == Put(s, i, Slot(true, Parked, Asleep)).(req := Signalled)
  {
    assert SlotInv(s.slots[i]);
    if s.slots[i].pc == Leaving {
      StepInv(s, Return(i));
      FastReadParks(Step(s, Return(i)), i);
      assert ParkSteps(s, i)[1..] == [FastRead(i), Lock(i)];
    } else if s.slots[i].pc == Outside {
      FastReadParks(s, i);
    } else {
      LockParks(s, i);
    }
  }

  /**
   No reachable request is stuck: from every state in which the requester still waits there is a run of
   participant steps, with no help from timeouts or spurious wake-ups, after which the request
   returns QUIESCED.
   */
  lemma {:induction false} RequestCanSucceed(s: State, i: nat) returns (ls: seq<Label>)
    requires Inv(s) && Waiting(s) && i <= |s.slots|
    requires forall j :: 0 <= j < i ==> !IsRunning(s.slots[j])
    requires i == |s.slots| ==> s.req == Signalled
    ensures ValidRun(s, ls) && After(s, ls).req == Quiesced
    ensures forall l :: l in ls ==> l.Return? || l.FastRead? || l.Lock? || l.Recheck?
    ensures ls != [] && ls[|ls| - 1] == Recheck && forall j :: 0 <= j < |ls| - 1 ==> ls[j] != Recheck
    decreases |s.slots| - i
  {
    if i == |s.slots| {
      ls := [Recheck];
      var t := Step(s, Recheck);
      assert ls[1..] == [] && ValidRun(t, []) && After(t, []) == t;
    } else if !IsRunning(s.slots[i]) {
      if i + 1 == |s.slots| && s.req == Sleeping {
        assert AllQuiescent(s);
      }
      ls := RequestCanSucceed(s, i + 1);
    } else {
      OneParks(s, i);
      var first := ParkSteps(s, i);
      var t := After(s, first);
      RunInv(s, first);
      var rest := RequestCanSucceed(t, i + 1);
      RunSplit(s, first, rest);
      ls := first + rest;
    }
  }
}
