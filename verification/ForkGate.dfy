/**
 The sections of `src/app/fork_gate.c` that run under the mutex, and the lock-free read, as methods on
 the gate's own state. Each is proved to be one step of `ForkGateProtocol`; what the operating system
 keeps (where each thread stands, who sleeps) is ghost state beside it.
 */
module ForkGate {
  import opened ForkGateProtocol

  const FORK_GATE_FULL := -2

  datatype Participant = Participant(inUse: bool, status: Status)

  datatype Outcome = StillWaiting | ReturnsQuiesced | ReturnsTimeout

  class Gate {
    const slots: array<Participant>
    var requested: bool
    ghost var pc: seq<Pc>
    ghost var req: Requester

    ghost predicate Shaped()
      reads this
    {
      slots.Length == MAX_PARTICIPANTS && |pc| == MAX_PARTICIPANTS
    }

    ghost function Now(): (s: State)
      reads this, slots
      requires Shaped()
      ensures |s.slots| == MAX_PARTICIPANTS
      ensures forall i :: 0 <= i < MAX_PARTICIPANTS ==> s.slots[i] == Slot(slots[i].inUse, slots[i].status, pc[i])
    {
      State(seq(MAX_PARTICIPANTS, i requires 0 <= i < MAX_PARTICIPANTS && Shaped() reads this, slots =>
              Slot(slots[i].inUse, slots[i].status, pc[i])), requested, req)
    }

    ghost predicate Valid()
      reads this, slots
    {
      Shaped() && Inv(Now())
    }

    constructor ()
      ensures Valid() && fresh(slots) && Now() == Init
    {
      slots := new Participant[MAX_PARTICIPANTS](_ => Participant(false, Running));
      requested := false;
      pc := seq(MAX_PARTICIPANTS, _ => Outside);
      req := Resting;
      new;
      assert Now().slots == Init.slots;
    }

    /** Takes the first free slot, or reports a full table. */
    method Register() returns (slot: int)
      requires Valid()
      modifies this, slots
      ensures Valid()
      ensures (slot == FORK_GATE_FULL) <==> !old(Enabled(Now(), ForkGateProtocol.Register))
      ensures slot == FORK_GATE_FULL ==> Now() == old(Now())
      ensures slot != FORK_GATE_FULL ==>
        old(IsFirstFree(Now(), slot)) && old(Enabled(Now(), ForkGateProtocol.Register))
        && Now() == old(Step(Now(), ForkGateProtocol.Register))
        && slots[..] == old(slots[..])[slot := Participant(true, Running)]
    {
      ghost var before := Now();
      slot := -1;
      var i := 0;
      while i < slots.Length
        invariant 0 <= i <= slots.Length
        invariant forall j :: 0 <= j < i ==> slots[j].inUse
        invariant slot == -1 && Now() == before
      {
        if !slots[i].inUse {
          slot := i;
          break;
        }
        i := i + 1;
      }
      if slot < 0 {
        return FORK_GATE_FULL;
      }
      assert Enabled(before, ForkGateProtocol.Register) by { assert !before.slots[slot].inUse; }
      assert FirstFreeFrom(before, 0) == slot by { FirstFreeUnique(before, slot, FirstFreeFrom(before, 0)); }
      slots[slot] := Participant(true, Running);
      pc, req := pc[slot := Outside], Notify(req);
      assert Now().slots == Step(before, ForkGateProtocol.Register).slots;
      StepInv(before, ForkGateProtocol.Register);
    }

    /** No effect outside the table; a slot that is free already is freed again. */
    method Unregister(slot: int)
      requires Valid()
      requires 0 <= slot < MAX_PARTICIPANTS ==> Enabled(Now(), ForkGateProtocol.Unregister(slot))
      modifies this, slots
      ensures Valid()
      ensures Now() == if 0 <= slot < MAX_PARTICIPANTS then old(Step(Now(), ForkGateProtocol.Unregister(slot))) else old(Now())
      ensures 0 <= slot < MAX_PARTICIPANTS ==> !slots[slot].inUse
      ensures forall j :: 0 <= j < MAX_PARTICIPANTS && j != slot ==> slots[j] == old(slots[j])
    {
      if slot < 0 || slot >= slots.Length {
        return;
      }
      ghost var before := Now();
      slots[slot] := slots[slot].(inUse := false);
      req := Notify(req);
      assert Now().slots == Step(before, ForkGateProtocol.Unregister(slot)).slots;
      StepInv(before, ForkGateProtocol.Unregister(slot));
    }

    /** The fast path of `checkpoint`: one read of the flag without the mutex; nothing outside the table. */
    method ReadFlag(slot: int) returns (raised: bool)
      requires Valid()
      requires 0 <= slot < MAX_PARTICIPANTS ==> Owned(Now(), slot, Outside)
      modifies this`pc
      ensures Valid() && raised == (requested && 0 <= slot < MAX_PARTICIPANTS)
      ensures Now() == if 0 <= slot < MAX_PARTICIPANTS then old(Step(Now(), FastRead(slot))) else old(Now())
    {
      if slot < 0 || slot >= slots.Length {
        return false;
      }
      ghost var before := Now();
      raised := requested;
      pc := pc[slot := if raised then AtLock else Leaving];
      assert Now().slots == Step(before, FastRead(slot)).slots;
      StepInv(before, FastRead(slot));
    }

    /** The slow path up to the wait: rechecks the flag under the mutex, then announces PARKED and sleeps. */
    method ParkOrPass(slot: nat) returns (passed: bool)
      requires Valid() && Owned(Now(), slot, AtLock)
      modifies this, slots
      ensures Valid() && passed == old(Passes(Now(), Lock(slot)))
      ensures Now() == old(Step(Now(), Lock(slot)))
      ensures requested == old(requested) && (passed <==> !requested)
      ensures slots[..] == if passed then old(slots[..]) else old(slots[..])[slot := Participant(true, Parked)]
    {
      ghost var before := Now();
      PassesExact(before, Lock(slot));
      passed := !requested;
      if passed {
        pc := pc[slot := Outside];
      } else {
        slots[slot] := slots[slot].(status := Parked);
        pc, req := pc[slot := Asleep], Notify(req);
      }
      assert Now().slots == Step(before, Lock(slot)).slots;
      StepInv(before, Lock(slot));
    }

    /** The wait loop once the mutex is held again: back to sleep while the flag is up, else RUNNING and out. */
    method AfterWait(slot: nat) returns (passed: bool)
      requires Valid() && Owned(Now(), slot, Woken)
      modifies this, slots
      ensures Valid() && passed == old(Passes(Now(), Reacquire(slot)))
      ensures Now() == old(Step(Now(), Reacquire(slot)))
      ensures requested == old(requested) && (passed <==> !requested)
      ensures slots[..] == if passed then old(slots[..])[slot := Participant(true, Running)] else old(slots[..])
    {
      ghost var before := Now();
      PassesExact(before, Reacquire(slot));
      passed := !requested;
      if passed {
        slots[slot] := slots[slot].(status := Running);
        pc := pc[slot := Outside];
      } else {
        pc := pc[slot := Asleep];
      }
      assert Now().slots == Step(before, Reacquire(slot)).slots;
      StepInv(before, Reacquire(slot));
    }

    /** Into a blocking call and out of it; nothing outside the table. */
    method MarkBlocked(slot: int, blocked: bool)
      requires Valid()
      requires 0 <= slot < MAX_PARTICIPANTS ==> Owned(Now(), slot, if blocked then Outside else InCall)
      modifies this, slots
      ensures Valid()
      ensures Now() ==
        if 0 <= slot < MAX_PARTICIPANTS then old(Step(Now(), if blocked then BlockOn(slot) else BlockOff(slot))) else old(Now())
      ensures 0 <= slot < MAX_PARTICIPANTS ==>
        slots[..] == old(slots[..])[slot := Participant(true, if blocked then Blocked else Running)]
    {
      if slot < 0 || slot >= slots.Length {
        return;
      }
      ghost var before := Now();
      slots[slot] := slots[slot].(status := if blocked then Blocked else Running);
      pc, req := pc[slot := if blocked then InCall else Outside], Notify(req);
      assert Now().slots == Step(before, if blocked then BlockOn(slot) else BlockOff(slot)).slots;
      StepInv(before, if blocked then BlockOn(slot) else BlockOff(slot));
    }

    /** The test under the mutex: no registered participant is RUNNING. */
    method AllParticipantsQuiescent() returns (quiet: bool)
      requires Valid()
      ensures quiet == AllQuiescent(Now())
    {
      for i := 0 to slots.Length
        invariant forall j :: 0 <= j < i ==> !IsRunning(Now().slots[j])
      {
        if slots[i].inUse && slots[i].status == Running {
          assert IsRunning(Now().slots[i]);
          return false;
        }
      }
      quiet := true;
    }

    /** The request up to its first wait. */
    method RequestQuiesce() returns (outcome: Outcome)
      requires Valid() && req == Resting
      modifies this`requested, this`req
      ensures Valid() && outcome == (if old(AllQuiescent(Now())) then ReturnsQuiesced else StillWaiting)
      ensures Now() == old(Step(Now(), Request))
    {
      ghost var before := Now();
      var quiet := AllParticipantsQuiescent();
      requested := true;
      req := if quiet then Quiesced else Sleeping;
      outcome := if quiet then ReturnsQuiesced else StillWaiting;
      assert Now().slots == before.slots;
      StepInv(before, Request);
    }

    /** One turn of the wait loop after a wake-up; `timedOut` is the ETIMEDOUT return of the wait. */
    method AfterStateWait(timedOut: bool) returns (outcome: Outcome)
      requires Valid() && req == if timedOut then TimedOut else Signalled
      modifies this
      ensures Valid()
      ensures Now() == old(Step(Now(), Recheck))
      ensures outcome == if old(AllQuiescent(Now())) then ReturnsQuiesced else if timedOut then ReturnsTimeout else StillWaiting
    {
      ghost var before := Now();
      var quiet := AllParticipantsQuiescent();
      if quiet {
        req := Quiesced;
        outcome := ReturnsQuiesced;
      } else if timedOut {
        requested := false;
        pc, req := Awake(pc), Resting;
        outcome := ReturnsTimeout;
      } else {
        req := Sleeping;
        outcome := StillWaiting;
      }
      assert Now().slots == Step(before, Recheck).slots;
      StepInv(before, Recheck);
    }

    method ReleaseQuiesce()
      requires Valid() && req == Quiesced
      modifies this
      ensures Valid() && Now() == old(Step(Now(), Release)) && !requested
    {
      ghost var before := Now();
      requested := false;
      pc, req := Awake(pc), Resting;
      assert Now().slots == Step(before, Release).slots;
      StepInv(before, Release);
    }
  }

  lemma FirstFreeUnique(s: State, i: int, j: int)
    requires IsFirstFree(s, i) && IsFirstFree(s, j)
    ensures i == j
  {
  }

  ghost function Awake(pc: seq<Pc>): (r: seq<Pc>)
    ensures |r| == |pc| && forall i :: 0 <= i < |pc| ==> r[i] == if pc[i] == Asleep then Woken else pc[i]
  {
    seq(|pc|, i requires 0 <= i < |pc| => if pc[i] == Asleep then Woken else pc[i])
  }
}
