/**
 The driver of the process life cycle on the quiescence gate (`src/app/fork_orchestrator.c` on `src/app/fork_gate.c`):
 every creation of a process, and the rebuilding of the shared structures when a configuration is applied, asks for a
 quiescence of its own and releases it. The steps of the participants, of the console and of the driver interleave in
 any order.

 The main result is that whenever a process is created, or the structures are rebuilt, no process of an older lot is
 left, and since a moment at which every participant was parked or in a blocking call none got past a checkpoint.
 */
module SpawnGate {
  import G = ForkGateProtocol
  import L = OrchestratorModel
  import opened Orchestrator

  /** Where the driver stands with its quiescence; work is the one creation, or the rebuilding. */
  datatype Phase = Idle | Asked | Holding | WorkDone

  /**
   The gate, the life cycle, the creations of the current lot, whether the configuration could be applied; and, while
   a quiescence is held, the gate when it was reached and the steps taken there since.
   */
  datatype System = System(gate: G.State, driver: L.Machine, phase: Phase, tries: seq<Try>, applied: Applied,
                           quietAt: G.State, since: seq<G.Label>)

  datatype Applied = NotYet | Refused | Rebuilt

  datatype Act =
    | Others(g: G.Label)     // a participant, a spurious wake-up, or the end of the requester's budget
    | Life(l: L.Label)       // the console, or the driver outside its lots
    | Ask                    // the request for a quiescence
    | Look                   // the test after a wake-up of the requester
    | Create(t: Try)         // the creation itself: made, failed, or found dead at once
    | Rebuild
    | Release
    | EndLot(stop: bool)     // no slot is left, too many failed, or a stop was requested

  predicate ByOthers(g: G.Label) { g != G.Request && g != G.Recheck && g != G.Release }

  /** The lot goes on: a slot is left and fewer than ten creations failed. */
  predicate GoesOn(tries: seq<Try>, slots: nat) { SlotOf(tries, |tries|) < slots && Failures(tries, |tries|) < MAX_FAILURES }

  /** The driver has something to do under a quiescence. */
  predicate HasWork(s: System, slots: nat) {
    (s.driver.at == L.Spawning && GoesOn(s.tries, slots)) || (s.driver.at == L.Reconfiguring && s.applied == NotYet)
  }

  predicate LifeEnabled(s: System, l: L.Label) {
    && !l.Spawn? && L.Enabled(s.driver, l) && L.Permitted(s.driver, l)
    && (l.FinishApply? ==> s.phase == Idle && s.applied == if l.quiesced then Rebuilt else Refused)
  }

  predicate Enabled(s: System, a: Act, slots: nat) {
    match a
    case Others(g) => ByOthers(g) && G.Enabled(s.gate, g)
    case Life(l) => LifeEnabled(s, l)
    case Ask => s.phase == Idle && G.Enabled(s.gate, G.Request) && HasWork(s, slots)
    case Look => s.phase == Asked && G.Enabled(s.gate, G.Recheck)
    case Create(t) => s.phase == Holding && s.driver.at == L.Spawning && TryOk(t) && !t.StopRequested?
    case Rebuild => s.phase == Holding && s.driver.at == L.Reconfiguring
    case Release => s.phase == WorkDone && G.Enabled(s.gate, G.Release)
    case EndLot(stop) => s.phase == Idle && s.driver.at == L.Spawning && (stop || !GoesOn(s.tries, slots))
  }

  /** The slots that hold a process after the first `n` turns of a lot. */
  function Filled(tries: seq<Try>, n: nat): set<nat>
    requires n <= |tries|
  {
    if n == 0 then {}
    else
      var c := SlotOf(tries, n - 1);
      if Outcome(tries[n - 1]) > 0 then Filled(tries, n - 1) + {c} else Filled(tries, n - 1) - {c}
  }

  /** The gate after a step, with the record of what happened since the quiescence was reached. */
  function AtGate(s: System, g: G.Label): System
    requires G.Enabled(s.gate, g)
  {
    s.(gate := G.Step(s.gate, g), since := s.since + [g])
  }

  /** What the requester learns: quiescence, a refusal, or nothing yet. */
  function Learnt(s: System): System {
    if s.gate.req == G.Quiesced then s.(phase := Holding, quietAt := s.gate, since := [])
    else if s.gate.req != G.Resting then s.(phase := Asked)
    else if s.driver.at == L.Spawning then s.(phase := Idle, tries := s.tries + [Failure])
    else s.(phase := Idle, applied := Refused)
  }

  function Lived(s: System, l: L.Label): System {
    var next := L.Next(s.driver, l);
    s.(driver := next, tries := if next.at == s.driver.at then s.tries else [],
       applied := if next.at == s.driver.at then s.applied else NotYet)
  }

  function Step(s: System, a: Act, slots: nat): System
    requires Enabled(s, a, slots)
  {
    match a
    case Others(g) => AtGate(s, g)
    case Life(l) => Lived(s, l)
    case Ask => Learnt(AtGate(s, G.Request))
    case Look => Learnt(AtGate(s, G.Recheck))
    case Create(t) => s.(phase := WorkDone, tries := s.tries + [t])
    case Rebuild => s.(phase := WorkDone, applied := Rebuilt)
    case Release => AtGate(s, G.Release).(phase := Idle)
    case EndLot(_) => Lived(s, L.Spawn(Filled(s.tries, |s.tries|)))
  }

  /** Before anything happened, given an empty gate. */
  function Start(gate: G.State, configLoaded: bool): System {
    System(gate, L.Boot(configLoaded), Idle, [], NotYet, gate, [])
  }

  // ------------------------------------------------------------------
  // What every state keeps
  // ------------------------------------------------------------------

  /** All participants were parked or in a blocking call at a moment since which the quiescence was not released. */
  ghost predicate Peaceful(s: System) {
    && G.Inv(s.quietAt) && s.quietAt.req == G.Quiesced && G.AllQuiescent(s.quietAt)
    && G.ValidRun(s.quietAt, s.since) && G.After(s.quietAt, s.since) == s.gate && G.Release !in s.since
  }

  predicate AllGo(tries: seq<Try>, slots: nat) { forall k :: 0 <= k < |tries| ==> Goes(tries, k, slots) }

  ghost predicate Inv(s: System, slots: nat) {
    && G.Inv(s.gate) && L.Inv(s.driver)
    && (s.phase == Idle <==> s.gate.req == G.Resting)
    && (s.phase == Holding || s.phase == WorkDone <==> s.gate.req == G.Quiesced)
    && (s.phase == Asked || s.phase == Holding ==> HasWork(s, slots))
    && (s.phase == WorkDone ==> s.driver.at == L.Spawning || s.driver.at == L.Reconfiguring)
    && (s.driver.at == L.Spawning ==> AllGo(s.tries, slots))
    && (s.phase == Holding || s.phase == WorkDone ==> Peaceful(s))
  }

  lemma StartInv(gate: G.State, configLoaded: bool, slots: nat)
    requires gate == G.Init
    ensures Inv(Start(gate, configLoaded), slots)
  {
    G.InitInv();
  }

  lemma {:induction false} SamePrefix(tries: seq<Try>, t: Try, k: nat)
    requires k <= |tries|
    ensures SlotOf(tries + [t], k) == SlotOf(tries, k) && Failures(tries + [t], k) == Failures(tries, k)
  {
    if k > 0 {
      SamePrefix(tries, t, k - 1);
    }
  }

  lemma AllGoMore(tries: seq<Try>, t: Try, slots: nat)
    requires AllGo(tries, slots) && GoesOn(tries, slots) && !t.StopRequested?
    ensures AllGo(tries + [t], slots)
  {
    var more := tries + [t];
    forall k | 0 <= k < |more| ensures Goes(more, k, slots) {
      SamePrefix(tries, t, k);
      if k < |tries| {
        assert Goes(tries, k, slots);
      }
    }
  }

  lemma {:induction false} RunMore(s: G.State, ls: seq<G.Label>, l: G.Label)
    requires G.ValidRun(s, ls) && G.Enabled(G.After(s, ls), l)
    ensures G.ValidRun(s, ls + [l]) && G.After(s, ls + [l]) == G.Step(G.After(s, ls), l)
    decreases |ls|
  {
    if ls == [] {
      var t := G.Step(s, l);
      assert [] + [l] == [l] && [l][1..] == [] && G.ValidRun(t, []) && G.After(t, []) == t;
    } else {
      assert (ls + [l])[0] == ls[0] && (ls + [l])[1..] == ls[1..] + [l];
      RunMore(G.Step(s, ls[0]), ls[1..], l);
    }
  }

  /** A step of somebody else never takes the quiescence away, nor grants it. */
  lemma OthersInv(s: System, g: G.Label, slots: nat)
    requires Inv(s, slots) && Enabled(s, Others(g), slots)
    ensures Inv(AtGate(s, g), slots)
  {
    G.StepInv(s.gate, g);
    if s.gate.req == G.Quiesced {
      G.HeldStep(s.gate, g);
      RunMore(s.quietAt, s.since, g);
    }
  }

  /** Nothing is learnt but what the gate says; a granted quiescence starts in peace. */
  lemma LearntInv(s: System, g: G.Label, slots: nat)
    requires Inv(s, slots) && HasWork(s, slots) && (g == G.Request || g == G.Recheck) && G.Enabled(s.gate, g)
    requires s.gate.req != G.Quiesced
    ensures Inv(Learnt(AtGate(s, g)), slots)
  {
    G.StepInv(s.gate, g);
    if G.Step(s.gate, g).req == G.Quiesced {
      G.QuiescedMeansQuiet(s.gate, g);
    } else if s.driver.at == L.Spawning {
      AllGoMore(s.tries, Failure, slots);
    }
  }

  lemma LivedInv(s: System, l: L.Label, slots: nat)
    requires Inv(s, slots) && L.Enabled(s.driver, l) && L.Permitted(s.driver, l)
    requires l.Console? || s.phase == Idle
    ensures Inv(Lived(s, l), slots)
  {
    L.StepInv(s.driver, l);
  }

  /** Every step of anybody keeps the invariant. */
  lemma StepInv(s: System, a: Act, slots: nat)
    requires Inv(s, slots) && Enabled(s, a, slots)
    ensures Inv(Step(s, a, slots), slots)
  {
    match a
    case Others(g) => OthersInv(s, g, slots);
    case Life(l) => LivedInv(s, l, slots);
    case Ask => LearntInv(s, G.Request, slots);
    case Look => LearntInv(s, G.Recheck, slots);
    case Create(t) => AllGoMore(s.tries, t, slots);
    case Rebuild =>
    case Release => G.StepInv(s.gate, G.Release);
    case EndLot(_) => LivedInv(s, L.Spawn(Filled(s.tries, |s.tries|)), slots);
  }

  predicate IsRun(s: System, run: seq<Act>, slots: nat)
    decreases |run|
  {
    run == [] || (Enabled(s, run[0], slots) && IsRun(Step(s, run[0], slots), run[1..], slots))
  }

  function Final(s: System, run: seq<Act>, slots: nat): System
    requires IsRun(s, run, slots)
    decreases |run|
  {
    if run == [] then s else Final(Step(s, run[0], slots), run[1..], slots)
  }

  lemma {:induction false} RunInv(s: System, run: seq<Act>, slots: nat)
    requires Inv(s, slots) && IsRun(s, run, slots)
    ensures Inv(Final(s, run, slots), slots)
    decreases |run|
  {
    if run != [] {
      StepInv(s, run[0], slots);
      RunInv(Step(s, run[0], slots), run[1..], slots);
    }
  }

  /**
   Over any run: a process is only created, and the shared structures are only rebuilt, when no process of an older
   lot is left, and when nobody got past a checkpoint since a moment at which every registered participant was
   parked or in a declared blocking call.
   */
  lemma WorkInPeace(gate: G.State, configLoaded: bool, run: seq<Act>, slots: nat, a: Act)
    requires gate == G.Init && IsRun(Start(gate, configLoaded), run, slots) && (a.Create? || a.Rebuild?)
    requires Enabled(Final(Start(gate, configLoaded), run, slots), a, slots)
    ensures var s := Final(Start(gate, configLoaded), run, slots);
            && s.driver.children == {}
            && G.AllQuiescent(s.quietAt) && G.ValidRun(s.quietAt, s.since) && G.After(s.quietAt, s.since) == s.gate
            && G.PassCount(s.quietAt, s.since) == 0
  {
    var start := Start(gate, configLoaded);
    var s := Final(start, run, slots);
    StartInv(gate, configLoaded, slots);
    RunInv(start, run, slots);
    G.NoPassWhileHeld(s.quietAt, s.since);
  }

  /** A refused quiescence creates nothing and rebuilds nothing: it costs the slot one failure, or the configuration. */
  lemma RefusalDoesNothing(s: System, slots: nat)
    requires Inv(s, slots) && Enabled(s, Look, slots) && Step(s, Look, slots).phase == Idle
    ensures var t := Step(s, Look, slots);
            && s.gate.req == G.TimedOut && !G.AllQuiescent(s.gate) && !t.gate.flag && t.driver == s.driver
            && (s.driver.at == L.Spawning ==> t.tries == s.tries + [Failure] && Filled(t.tries, |t.tries|) <= Filled(s.tries, |s.tries|))
            && (s.driver.at == L.Reconfiguring ==> t.applied == Refused)
  {
    G.CancelWakesAll(s.gate, G.Recheck);
    FilledPrefix(s.tries, Failure, |s.tries|);
  }

  lemma {:induction false} FilledPrefix(tries: seq<Try>, t: Try, n: nat)
    requires n <= |tries|
    ensures Filled(tries + [t], n) == Filled(tries, n)
  {
    if n > 0 {
      SamePrefix(tries, t, n - 1);
      FilledPrefix(tries, t, n - 1);
    }
  }

  // ------------------------------------------------------------------
  // The lot is the one the creation loop leaves
  // ------------------------------------------------------------------

  /** Turn `k` settles slot `c` with a process. */
  predicate Fills(tries: seq<Try>, k: nat, n: nat, c: nat)
    requires k < n <= |tries|
  {
    Settles(tries, k, n) && SlotOf(tries, k) == c && Outcome(tries[k]) > 0
  }

  lemma {:induction false} FilledSettled(tries: seq<Try>, n: nat, c: nat)
    requires n <= |tries|
    ensures c in Filled(tries, n) <==> exists k :: 0 <= k < n && Fills(tries, k, n, c)
  {
    if n > 0 {
      FilledSettled(tries, n - 1, c);
      var last := n - 1;
      if SlotOf(tries, last) == c {
        forall k | 0 <= k < last ensures !Fills(tries, k, n, c) {
          if !tries[k].Stillborn? {
            SlotOfGrows(tries, k + 1, last);
          }
        }
        assert c in Filled(tries, n) <==> Fills(tries, last, n, c);
      } else {
        assert !Fills(tries, last, n, c);
        forall k | 0 <= k < last ensures Fills(tries, k, n, c) <==> Fills(tries, k, last, c) {}
        assert c in Filled(tries, n) <==> c in Filled(tries, last);
      }
    }
  }

  /** What the creation loop leaves in free slots is exactly what the steps of the lot filled. */
  lemma LotMatches(tries: seq<Try>, used: nat, before: seq<int>, pids: seq<int>)
    requires used <= |tries| && |pids| == |before| && Touched(tries, used) <= |pids| && AllFree(before)
    requires AllHold(tries, used, pids) && RestKept(tries, used, before, pids)
    ensures Live(pids) == Filled(tries, used)
  {
    forall c: nat ensures c in Live(pids) <==> c in Filled(tries, used) {
      FilledSettled(tries, used, c);
      if c < Touched(tries, used) {
        var k := SettledOnce(tries, used, c);
        assert Holds(tries, k, used, pids);
        assert c in Live(pids) <==> Fills(tries, k, used, c);
      } else {
        forall k | 0 <= k < used ensures !Fills(tries, k, used, c) {
          SlotOfGrows(tries, k, used - 1);
        }
      }
    }
  }

  // ------------------------------------------------------------------
  // No attempt is stuck
  // ------------------------------------------------------------------

  /** The steps of a gate run, as steps of the whole. */
  function Lifted(ls: seq<G.Label>): (acts: seq<Act>)
    ensures |acts| == |ls| && forall a :: a in acts ==> a.Others? || a.Look?
  {
    if ls == [] then [] else [if ls[0] == G.Recheck then Look else Others(ls[0])] + Lifted(ls[1..])
  }

  lemma {:induction false} LiftedRun(s: System, ls: seq<G.Label>, slots: nat)
    requires Inv(s, slots) && s.phase == Asked && G.ValidRun(s.gate, ls) && G.After(s.gate, ls).req == G.Quiesced
    requires forall l :: l in ls ==> l.Return? || l.FastRead? || l.Lock? || l.Recheck?
    requires forall i :: 0 <= i < |ls| - 1 ==> ls[i] != G.Recheck
    requires ls != [] && ls[|ls| - 1] == G.Recheck
    ensures IsRun(s, Lifted(ls), slots)
    ensures var t := Final(s, Lifted(ls), slots); t.phase == Holding && t.driver == s.driver && t.tries == s.tries
    decreases |ls|
  {
    var a := if ls[0] == G.Recheck then Look else Others(ls[0]);
    assert ls[0] in ls && Lifted(ls)[0] == a && Lifted(ls)[1..] == Lifted(ls[1..]);
    var t := Step(s, a, slots);
    StepInv(s, a, slots);
    if |ls| == 1 {
      assert ls[1..] == [] && Lifted(ls[1..]) == [] && t.gate == G.After(s.gate, ls);
      assert IsRun(t, [], slots) && Final(t, [], slots) == t;
    } else {
      assert ls[0] != G.Recheck && t.gate == G.Step(s.gate, ls[0]);
      assert forall i :: 0 <= i < |ls[1..]| ==> ls[1..][i] == ls[i + 1];
      LiftedRun(t, ls[1..], slots);
    }
  }

  /** From any attempt that still has time, a run of participants alone grants the quiescence: none is stuck. */
  lemma AttemptCanSucceed(s: System, slots: nat) returns (acts: seq<Act>)
    requires Inv(s, slots) && s.phase == Asked && s.gate.req != G.TimedOut
    ensures IsRun(s, acts, slots) && Final(s, acts, slots).phase == Holding
    ensures forall a :: a in acts ==> a.Others? || a.Look?
  {
    var ls := G.RequestCanSucceed(s.gate, 0);
    LiftedRun(s, ls, slots);
    acts := Lifted(ls);
  }
}
