/**
 The parts of the process life cycle that update state in place (`src/app/fork_orchestrator.c`): the shared state
 that events move, the clean-up of dead processes, and the stop sequence with its escalation per process.
 */
module Orchestrator {
  import opened OrchestratorModel

  const SIGTERM_MS: int := 5000
  const SIGKILL_MS: int := 10000

  datatype Escalation = Wait | Term | Kill

  function EscalationNext(elapsed: int): Escalation {
    if elapsed >= SIGKILL_MS then Kill else if elapsed >= SIGTERM_MS then Term else Wait
  }

  /** Since when a process has been silent, in seconds: its last report, or the start of the stop if it never reported. */
  function Baseline(lastActivity: int, start: int): int { if lastActivity > 0 then lastActivity else start }

  function ChildIdleMs(lastActivity: int, start: int, now: int): (ms: int)
    ensures ms >= 0
  {
    var base := Baseline(lastActivity, start);
    if now <= base then 0 else (now - base) * 1000
  }

  /**
   A process is terminated from five seconds of silence on, and killed from ten on, whatever the others do: silence
   since its last report or, if it never reported, since the start of the stop.
   */
  lemma EscalationExact(lastActivity: int, start: int, now: int)
    ensures var action := EscalationNext(ChildIdleMs(lastActivity, start, now));
            && (lastActivity > 0 ==> (action == Kill <==> now - lastActivity >= 10) && (action == Term <==> 5 <= now - lastActivity < 10))
            && (lastActivity <= 0 ==> (action == Kill <==> now - start >= 10) && (action == Term <==> 5 <= now - start < 10))
  {
  }

  /** A targeted wait found the process dead: reaped by this call, or already reaped elsewhere. */
  predicate IsReaped(result: int, pid: int, noChild: bool) { result == pid || (result == -1 && noChild) }

  /** One look at the processes: the time, what the wait for each slot returned, and when each last reported. */
  datatype Round = Round(now: int, results: seq<int>, noChild: seq<bool>, seen: seq<int>)

  predicate Covers(r: Round, n: nat) { |r.results| == n && |r.noChild| == n && |r.seen| == n }

  /** The process of slot `c` was silent for `s` seconds: it last reported that long ago, or never since the stop began. */
  predicate SilentFor(r: Round, c: nat, start: int, s: int) {
    c < |r.seen| && (r.seen[c] > 0 ==> r.now - r.seen[c] >= s) && (r.seen[c] <= 0 ==> r.now - start >= s)
  }

  /** The step of the escalation a process is at: nothing for five seconds, then a termination, from ten on a kill. */
  predicate AtStep(r: Round, c: nat, start: int, kind: Escalation) {
    && (kind == Kill <==> SilentFor(r, c, start, 10))
    && (kind == Wait <==> !SilentFor(r, c, start, 5))
  }

  lemma ActionIs(r: Round, c: nat, start: int)
    requires c < |r.seen|
    ensures AtStep(r, c, start, EscalationNext(ChildIdleMs(r.seen[c], start, r.now)))
  {
    EscalationExact(r.seen[c], start, r.now);
  }

  datatype Signal = Signal(round: nat, slot: nat, pid: int, kind: Escalation)

  /** In this round the process is still there and has come to the step this signal stands for. */
  predicate Called(s: Signal, rounds: seq<Round>, pids: seq<int>, start: int) {
    && s.round < |rounds| && s.slot < |pids| && s.pid == pids[s.slot] > 0
    && !ReapedBy(rounds, s.round + 1, s.slot, s.pid)
    && s.kind != Wait && AtStep(rounds[s.round], s.slot, start, s.kind)
    && (s.round > 0 ==> !AtStep(rounds[s.round - 1], s.slot, start, s.kind))
  }

  /** The signals sent are exactly those called for in the first `k` rounds. */
  ghost predicate SentExactly(sent: seq<Signal>, rounds: seq<Round>, k: nat, pids: seq<int>, start: int) {
    forall s :: s in sent <==> s.round < k && Called(s, rounds, pids, start)
  }

  /** Before: in an earlier round, or for an earlier slot of the same round. */
  predicate Precedes(s: Signal, t: Signal) { s.round < t.round || (s.round == t.round && s.slot < t.slot) }

  predicate InOrder(sent: seq<Signal>) { forall i, j :: 0 <= i < j < |sent| ==> Precedes(sent[i], sent[j]) }

  /** Some round found the process of slot `c` reaped. */
  predicate ReapedBy(rounds: seq<Round>, n: nat, c: nat, pid: int) {
    exists k :: 0 <= k < n && ReapedIn(rounds, k, c, pid)
  }

  predicate ReapedIn(rounds: seq<Round>, k: nat, c: nat, pid: int) {
    && k < |rounds| && c < |rounds[k].results| && c < |rounds[k].noChild|
    && (rounds[k].results[c] == pid || (rounds[k].results[c] == -1 && rounds[k].noChild[c]))
  }

  /**
   One turn of the creation loop: a stop was requested first, the creation was refused or failed, it made a process,
   or it made one found dead at once, in which case the same slot is tried again.
   */
  datatype Try = StopRequested | Failure | Made(pid: int) | Stillborn(pid: int)

  predicate TryOk(t: Try) { t.Made? || t.Stillborn? ==> t.pid > 0 }

  const MAX_FAILURES: nat := 10

  function Failures(tries: seq<Try>, n: nat): nat
    requires n <= |tries|
  {
    if n == 0 then 0 else Failures(tries, n - 1) + if tries[n - 1].Failure? then 1 else 0
  }

  /** The slot turn `n` is about: one further for every earlier turn that was not stillborn. */
  function SlotOf(tries: seq<Try>, n: nat): nat
    requires n <= |tries|
  {
    if n == 0 then 0 else SlotOf(tries, n - 1) + if tries[n - 1].Stillborn? then 0 else 1
  }

  /** Turn `k` is taken: a slot is left, fewer than ten attempts failed, and no stop was requested. */
  predicate Goes(tries: seq<Try>, k: nat, slots: nat)
    requires k < |tries|
  {
    SlotOf(tries, k) < slots && Failures(tries, k) < MAX_FAILURES && !tries[k].StopRequested?
  }

  /** The loop takes exactly the first `used` turns. */
  predicate Uses(tries: seq<Try>, used: nat, slots: nat) {
    && used <= |tries| && (forall k :: 0 <= k < used ==> Goes(tries, k, slots))
    && (used < |tries| ==> !Goes(tries, used, slots))
  }

  /** The last turn about its slot among the first `used`. */
  predicate Settles(tries: seq<Try>, k: nat, used: nat)
    requires k < used <= |tries|
  {
    k + 1 == used || !tries[k].Stillborn?
  }

  function Outcome(t: Try): int { if t.Made? || t.Stillborn? then t.pid else -1 }

  /** The number of slots the first `used` turns were about. */
  function Touched(tries: seq<Try>, used: nat): nat
    requires used <= |tries|
  {
    if used == 0 then 0 else SlotOf(tries, used - 1) + 1
  }

  /** The slots that hold a process. */
  ghost function Live(pids: seq<int>): set<nat> { set c: nat | c < |pids| && pids[c] > 0 }

  /** A slot either keeps its process or was freed. */
  predicate KeptOrFreed(before: int, after: int) { after == before || (before > 0 && after == -1) }

  predicate AllKeptOrFreed(before: seq<int>, after: seq<int>) {
    |before| == |after| && forall c :: 0 <= c < |before| ==> KeptOrFreed(before[c], after[c])
  }

  predicate AllFree(pids: seq<int>) { forall c :: 0 <= c < |pids| ==> pids[c] <= 0 }

  /** `last` is the step of the escalation each process still there is at. */
  predicate AtSteps(r: Round, pids: seq<int>, last: seq<Escalation>, start: int) {
    Covers(r, |pids|) && |last| == |pids| && forall c :: 0 <= c < |pids| && pids[c] > 0 ==> AtStep(r, c, start, last[c])
  }

  /** The slots after the first `n` were looked at: dead processes freed, the step of the others remembered. */
  predicate LookedAt(r: Round, n: nat, before: seq<int>, pids: seq<int>, was: seq<Escalation>, last: seq<Escalation>, start: int) {
    && Covers(r, |pids|) && n <= |pids| == |before| == |was| == |last|
    && (forall j :: 0 <= j < n ==> pids[j] == if before[j] > 0 && IsReaped(r.results[j], before[j], r.noChild[j]) then -1 else before[j])
    && (forall j :: 0 <= j < n && pids[j] > 0 ==> AtStep(r, j, start, last[j]))
    && (forall j :: n <= j < |pids| ==> pids[j] == before[j] && last[j] == was[j])
  }

  lemma LookedAtMore(r: Round, n: nat, before: seq<int>, pids: seq<int>, was: seq<Escalation>, last: seq<Escalation>, start: int,
                     pid: int, step: Escalation)
    requires LookedAt(r, n, before, pids, was, last, start) && n < |pids|
    requires pid == if before[n] > 0 && IsReaped(r.results[n], before[n], r.noChild[n]) then -1 else before[n]
    requires pid > 0 ==> AtStep(r, n, start, step)
    ensures LookedAt(r, n + 1, before, pids[n := pid], was, last[n := step], start)
  {
  }

  lemma FreeMore(before: seq<int>, pids: seq<int>, n: nat)
    requires n < |pids| == |before| && pids[..n] == before[..n]
    ensures AllFree(pids[..n + 1]) <==> AllFree(before[..n]) && pids[n] <= 0
  {
    assert pids[..n + 1] == before[..n] + [pids[n]];
    assert (before[..n] + [pids[n]])[n] == pids[n];
    assert AllFree(pids[..n + 1]) ==> forall c :: 0 <= c < n ==> pids[..n + 1][c] == before[..n][c];
  }

  /** The signals of round `k` to the first `n` slots: to each process still there that is at another step than before. */
  ghost predicate RoundSent(sent: seq<Signal>, r: Round, k: nat, n: nat, pids: seq<int>, was: seq<Escalation>, start: int)
    requires n <= |pids| == |was|
  {
    && (forall s :: s in sent <==>
         && s.round == k && s.slot < n && s.pid == pids[s.slot] > 0 && s.kind != Wait
         && AtStep(r, s.slot, start, s.kind) && s.kind != was[s.slot])
    && InOrder(sent)
  }

  /** One more slot: a signal if it calls for one, or none. */
  lemma RoundSentMore(sent: seq<Signal>, r: Round, k: nat, n: nat, before: seq<int>, pids: seq<int>, was: seq<Escalation>,
                      start: int, action: Escalation, more: seq<Signal>)
    requires n < |pids| == |was| == |before| && RoundSent(sent, r, k, n, before, was, start)
    requires forall c :: 0 <= c < n ==> pids[c] == before[c]
    requires pids[n] > 0 ==> AtStep(r, n, start, action)
    requires more == if pids[n] > 0 && action != was[n] && action != Wait then [Signal(k, n, pids[n], action)] else []
    ensures RoundSent(sent + more, r, k, n + 1, pids, was, start)
  {
    forall i, j | 0 <= i < j < |sent + more| ensures Precedes((sent + more)[i], (sent + more)[j]) {
      assert sent[i] in sent;
    }
  }

  lemma {:induction false} SlotOfGrows(tries: seq<Try>, m: nat, n: nat)
    requires m <= n <= |tries|
    ensures SlotOf(tries, m) <= SlotOf(tries, n)
    decreases n
  {
    if m < n {
      SlotOfGrows(tries, m, n - 1);
    }
  }

  /** Every slot touched has exactly one settling turn: the outcomes of a lot are a function of its turns. */
  lemma {:induction false} SettledOnce(tries: seq<Try>, used: nat, c: nat) returns (k: nat)
    requires used <= |tries| && c < Touched(tries, used)
    ensures k < used && Settles(tries, k, used) && SlotOf(tries, k) == c
    ensures forall j :: 0 <= j < used && Settles(tries, j, used) && SlotOf(tries, j) == c ==> j == k
  {
    k := used - 1;
    if SlotOf(tries, k) != c {
      k := SettledOnce(tries, used - 1, c);
    } else {
      forall j | 0 <= j < used - 1 && Settles(tries, j, used) ensures SlotOf(tries, j) != c {
        SlotOfGrows(tries, j + 1, used - 1);
      }
    }
  }

  /** If turn `k` settles its slot, the slot holds the process that turn made, or none. */
  predicate Holds(tries: seq<Try>, k: nat, used: nat, pids: seq<int>)
    requires k < used <= |tries|
  {
    Settles(tries, k, used) ==>
      && SlotOf(tries, k) < |pids|
      && (tries[k].Made? || tries[k].Stillborn? ==> pids[SlotOf(tries, k)] == tries[k].pid)
      && (tries[k].Failure? || tries[k].StopRequested? ==> pids[SlotOf(tries, k)] == -1)
  }

  lemma HoldsStep(tries: seq<Try>, j: nat, k: nat, pids: seq<int>)
    requires j <= k < |tries| && SlotOf(tries, k) < |pids| && (j < k ==> Holds(tries, j, k, pids))
    ensures Holds(tries, j, k + 1, pids[SlotOf(tries, k) := Outcome(tries[k])])
  {
    if j < k {
      SlotOfGrows(tries, j + 1, k);
    }
  }

  ghost predicate AllHold(tries: seq<Try>, used: nat, pids: seq<int>)
    requires used <= |tries|
  {
    forall k :: 0 <= k < used ==> Holds(tries, k, used, pids)
  }

  lemma AllHoldStep(tries: seq<Try>, k: nat, used: nat, pids: seq<int>, c: nat, pid: int)
    requires used == k + 1 <= |tries| && AllHold(tries, k, pids) && c == SlotOf(tries, k) < |pids| && pid == Outcome(tries[k])
    ensures AllHold(tries, used, pids[c := pid])
  {
    var after := pids[c := pid];
    forall j | 0 <= j < used ensures Holds(tries, j, used, after) {
      HoldsStep(tries, j, k, pids);
    }
  }

  /** The slots no turn was about are as before. */
  predicate RestKept(tries: seq<Try>, used: nat, before: seq<int>, pids: seq<int>)
    requires used <= |tries| && |pids| == |before|
  {
    forall c :: Touched(tries, used) <= c < |pids| ==> pids[c] == before[c]
  }

  lemma RestKeptStep(tries: seq<Try>, k: nat, before: seq<int>, pids: seq<int>, c: nat, pid: int)
    requires k < |tries| && |pids| == |before| && RestKept(tries, k, before, pids) && c == SlotOf(tries, k) < |pids|
    ensures RestKept(tries, k + 1, before, pids[c := pid])
  {
    assert Touched(tries, k) <= Touched(tries, k + 1) == c + 1;
  }

  lemma LiveNone(pids: seq<int>)
    ensures Live(pids) == {} <==> AllFree(pids)
  {
    if Live(pids) == {} {
      forall c | 0 <= c < |pids| ensures pids[c] <= 0 {
        assert c !in Live(pids);
      }
    }
  }

  lemma LiveStep(pids: seq<int>, pid: int)
    ensures |Live(pids + [pid])| == |Live(pids)| + if pid > 0 then 1 else 0
  {
    var c: nat := |pids|;
    assert Live(pids + [pid]) == if pid > 0 then Live(pids) + {c} else Live(pids);
  }

  class Slots {
    var pids: array<int>

    constructor (n: nat)
      ensures fresh(pids) && pids.Length == n && forall c :: 0 <= c < n ==> pids[c] == -1
    {
      pids := new int[n](c => -1);
    }

    /**
     Create the processes of a lot, one slot after the other, and return how many slots hold one. The turns stand
     for what the system answers; the lot is over when a turn is refused or no slot is left.
     */
    method SpawnForks(tries: seq<Try>) returns (created: nat, ghost used: nat, done: bool)
      requires forall k :: 0 <= k < |tries| ==> TryOk(tries[k])
      modifies pids
      ensures Uses(tries, used, pids.Length)
      ensures done <==> used < |tries| || SlotOf(tries, used) >= pids.Length || Failures(tries, used) >= MAX_FAILURES
      ensures AllHold(tries, used, pids[..]) && RestKept(tries, used, old(pids[..]), pids[..])
      ensures created == |Live(pids[..])|
    {
      var k, c, failed := 0, 0, 0;
      while k < |tries| && c < pids.Length && !tries[k].StopRequested? && failed < MAX_FAILURES
        invariant k <= |tries| && c == SlotOf(tries, k) <= pids.Length && failed == Failures(tries, k)
        invariant forall j :: 0 <= j < k ==> Goes(tries, j, pids.Length)
        invariant AllHold(tries, k, pids[..]) && RestKept(tries, k, old(pids[..]), pids[..])
      {
        AllHoldStep(tries, k, k + 1, pids[..], c, Outcome(tries[k]));
        RestKeptStep(tries, k, old(pids[..]), pids[..], c, Outcome(tries[k]));
        pids[c] := Outcome(tries[k]);
        if tries[k].Failure? {
          failed := failed + 1;
        }
        if !tries[k].Stillborn? {
          c := c + 1;
        }
        k := k + 1;
      }
      used := k;
      done := k < |tries| || c >= pids.Length || failed >= MAX_FAILURES;
      created := CountCreated();
    }

    method CountCreated() returns (created: nat)
      ensures created == |Live(pids[..])|
    {
      created := 0;
      assert Live(pids[..0]) == {};
      for c := 0 to pids.Length
        invariant created == |Live(pids[..c])|
      {
        LiveStep(pids[..c], pids[c]);
        assert pids[..c + 1] == pids[..c] + [pids[c]];
        if pids[c] > 0 {
          created := created + 1;
        }
      }
      assert pids[..pids.Length] == pids[..];
    }

    /** Free the slots of processes found dead; returns how many. */
    method ReapDead(alive: seq<bool>) returns (cleaned: nat)
      requires |alive| == pids.Length
      modifies pids
      ensures forall c :: 0 <= c < pids.Length ==>
        pids[c] == if old(pids[c]) > 0 && !alive[c] then -1 else old(pids[c])
      ensures cleaned == 0 <==> pids[..] == old(pids[..])
    {
      cleaned := 0;
      for c := 0 to pids.Length
        invariant forall j :: 0 <= j < c ==> pids[j] == if old(pids[j]) > 0 && !alive[j] then -1 else old(pids[j])
        invariant forall j :: c <= j < pids.Length ==> pids[j] == old(pids[j])
        invariant cleaned == 0 <==> forall j :: 0 <= j < c ==> pids[j] == old(pids[j])
      {
        if pids[c] > 0 && !alive[c] {
          pids[c] := -1;
          cleaned := cleaned + 1;
        }
      }
      assert pids[..] == old(pids[..]) ==> forall j :: 0 <= j < pids.Length ==> pids[..][j] == old(pids[..])[j];
    }

    /**
     One round over the slots; `last` remembers the step of the escalation each process is at. Without memory for
     it nothing is escalated.
     */
    method StopRound(start: int, rounds: seq<Round>, k: nat, last: array<Escalation>, remembers: bool)
      returns (remaining: nat, sent: seq<Signal>)
      requires k < |rounds| && Covers(rounds[k], pids.Length) && last.Length == pids.Length && last as object != pids as object
      modifies pids, last
      ensures forall c :: 0 <= c < pids.Length ==>
        pids[c] == if old(pids[c]) > 0 && IsReaped(rounds[k].results[c], old(pids[c]), rounds[k].noChild[c]) then -1 else old(pids[c])
      ensures remaining == 0 <==> AllFree(pids[..])
      ensures AtSteps(rounds[k], pids[..], last[..], start)
      ensures remembers ==> RoundSent(sent, rounds[k], k, pids.Length, pids[..], old(last[..]), start)
      ensures !remembers ==> sent == []
    {
      var r := rounds[k];
      ghost var first, was := pids[..], last[..];
      remaining, sent := 0, [];
      for c := 0 to pids.Length
        invariant LookedAt(r, c, first, pids[..], was, last[..], start)
        invariant remaining == 0 <==> AllFree(pids[..c])
        invariant if remembers then RoundSent(sent, r, k, c, pids[..], was, start) else sent == []
      {
        ghost var before, steps := pids[..], last[..];
        var there, action, more := StopOne(start, r, k, c, last, remembers);
        LookedAtMore(r, c, first, before, was, steps, start, pids[..][c], last[..][c]);
        FreeMore(before, pids[..], c);
        if remembers {
          RoundSentMore(sent, r, k, c, before, pids[..], was, start, action, more);
        }
        sent := sent + more;
        remaining := if there then remaining + 1 else remaining;
      }
      assert pids[..pids.Length] == pids[..];
    }

    /** One slot of a round: the process is reaped, or goes on to the step its silence calls for. */
    method StopOne(start: int, r: Round, k: nat, c: nat, last: array<Escalation>, remembers: bool)
      returns (there: bool, action: Escalation, more: seq<Signal>)
      requires Covers(r, pids.Length) && last.Length == pids.Length && c < pids.Length && last as object != pids as object
      modifies pids, last
      ensures there <==> pids[c] > 0
      ensures pids[..] == old(pids[..])[c :=
        if old(pids[c]) > 0 && IsReaped(r.results[c], old(pids[c]), r.noChild[c]) then -1 else old(pids[c])]
      ensures AtStep(r, c, start, action)
      ensures last[..] == old(last[..])[c := if there then action else old(last[c])]
      ensures more == if remembers && there && action != old(last[c]) && action != Wait then [Signal(k, c, pids[c], action)] else []
    {
      action, more := EscalationNext(ChildIdleMs(r.seen[c], start, r.now)), [];
      ActionIs(r, c, start);
      there := false;
      if pids[c] > 0 {
        if IsReaped(r.results[c], pids[c], r.noChild[c]) {
          pids[c] := -1;
        } else {
          there := true;
          if remembers && action != last[c] && action != Wait {
            more := [Signal(k, c, pids[c], action)];
          }
          last[c] := action;
        }
      }
    }

    /**
     Stop every process: interrupt each live one, then look again, round after round, until none is left. The
     rounds stand for what the system answers; the sequence ends exactly when each process was found reaped in one.
     A process gets each signal in the round in which its silence comes to that step, and in no other.
     If no memory is left to remember the escalation, no process is sent more than the interruption.
     */
    method StopAll(start: int, rounds: seq<Round>, remembers: bool) returns (interrupted: seq<nat>, sent: seq<Signal>, done: bool)
      requires forall k :: 0 <= k < |rounds| ==> Covers(rounds[k], pids.Length)
      modifies pids
      ensures Ascending(interrupted) && forall c :: c in interrupted <==> 0 <= c < pids.Length && old(pids[c]) > 0
      ensures done <==> AllFree(pids[..])
      ensures AllKeptOrFreed(old(pids[..]), pids[..])
      ensures FreedExactly(rounds, |rounds|, old(pids[..]), pids[..])
      ensures remembers ==> SentExactly(sent, rounds, |rounds|, old(pids[..]), start) && InOrder(sent)
      ensures !remembers ==> sent == []
    {
      interrupted := Interrupt();
      if interrupted == [] {
        forall c | 0 <= c < pids.Length ensures pids[c] <= 0 {
          assert c !in interrupted;
        }
        forall s: Signal ensures s.slot < pids.Length ==> pids[..][s.slot] <= 0 {
          assert s.slot < pids.Length ==> s.slot !in interrupted;
        }
        return interrupted, [], true;
      }
      assert interrupted[0] in interrupted;
      var last := new Escalation[pids.Length](c => Wait);
      sent, done := StopRounds(start, rounds, last, remembers);
    }

    /** Round after round, until no process is left or no round is. */
    method StopRounds(start: int, rounds: seq<Round>, last: array<Escalation>, remembers: bool)
      returns (sent: seq<Signal>, done: bool)
      requires forall k :: 0 <= k < |rounds| ==> Covers(rounds[k], pids.Length)
      requires last.Length == pids.Length && last as object != pids as object && forall c :: 0 <= c < last.Length ==> last[c] == Wait
      requires !AllFree(pids[..])
      modifies pids, last
      ensures done <==> AllFree(pids[..])
      ensures AllKeptOrFreed(old(pids[..]), pids[..]) && FreedExactly(rounds, |rounds|, old(pids[..]), pids[..])
      ensures remembers ==> SentExactly(sent, rounds, |rounds|, old(pids[..]), start) && InOrder(sent)
      ensures !remembers ==> sent == []
    {
      ghost var first := pids[..];
      sent, done := [], false;
      var k := 0;
      while k < |rounds| && !done
        invariant 0 <= k <= |rounds| && |first| == pids.Length
        invariant done <==> AllFree(pids[..])
        invariant AllKeptOrFreed(first, pids[..]) && FreedExactly(rounds, k, first, pids[..])
        invariant if remembers then SentExactly(sent, rounds, k, first, start) && InOrder(sent) else sent == []
        invariant if k > 0 then AtSteps(rounds[k - 1], pids[..], last[..], start) else forall c :: 0 <= c < last.Length ==> last[c] == Wait
      {
        ghost var before, was, told := pids[..], last[..], sent;
        var remaining, more := StopRound(start, rounds, k, last, remembers);
        FreedMore(rounds, k, first, before, pids[..]);
        if remembers {
          SentMore(told, more, rounds, k, first, before, pids[..], was, start);
        }
        sent := sent + more;
        done := remaining == 0;
        k := k + 1;
      }
      if remembers {
        SentForGood(sent, rounds, k, first, pids[..], start);
      }
      FreedForGood(rounds, k, first, pids[..]);
    }

    method Interrupt() returns (interrupted: seq<nat>)
      ensures Ascending(interrupted) && forall c :: c in interrupted <==> 0 <= c < pids.Length && pids[c] > 0
    {
      interrupted := [];
      for c := 0 to pids.Length
        invariant Ascending(interrupted) && forall j :: j in interrupted <==> 0 <= j < c && pids[j] > 0
      {
        assert forall i :: 0 <= i < |interrupted| ==> interrupted[i] in interrupted;
        if pids[c] > 0 {
          interrupted := interrupted + [c];
        }
      }
    }
  }

  lemma ReapedMore(rounds: seq<Round>, k: nat, c: nat, pid: int)
    ensures ReapedBy(rounds, k + 1, c, pid) <==> ReapedBy(rounds, k, c, pid) || ReapedIn(rounds, k, c, pid)
  {
    if ReapedBy(rounds, k, c, pid) {
      var i :| 0 <= i < k && ReapedIn(rounds, i, c, pid);
      assert i < k + 1;
    }
  }

  /** A slot is free exactly when its process was found reaped in one of the first `k` rounds. */
  ghost predicate FreedExactly(rounds: seq<Round>, k: nat, first: seq<int>, pids: seq<int>) {
    |first| == |pids| && forall c :: 0 <= c < |pids| && first[c] > 0 ==> (pids[c] == -1 <==> ReapedBy(rounds, k, c, first[c]))
  }

  lemma FreedMore(rounds: seq<Round>, k: nat, first: seq<int>, before: seq<int>, pids: seq<int>)
    requires k < |rounds| && Covers(rounds[k], |pids|) && |before| == |pids|
    requires AllKeptOrFreed(first, before) && FreedExactly(rounds, k, first, before)
    requires forall c :: 0 <= c < |pids| ==>
      pids[c] == if before[c] > 0 && IsReaped(rounds[k].results[c], before[c], rounds[k].noChild[c]) then -1 else before[c]
    ensures AllKeptOrFreed(first, pids) && FreedExactly(rounds, k + 1, first, pids)
  {
    forall c | 0 <= c < |pids| && first[c] > 0 ensures pids[c] == -1 <==> ReapedBy(rounds, k + 1, c, first[c]) {
      ReapedMore(rounds, k, c, first[c]);
    }
  }

  lemma FreedForGood(rounds: seq<Round>, k: nat, first: seq<int>, pids: seq<int>)
    requires k <= |rounds| && FreedExactly(rounds, k, first, pids)
    requires (k == |rounds| || AllFree(pids)) && AllKeptOrFreed(first, pids)
    ensures FreedExactly(rounds, |rounds|, first, pids)
  {
    forall c | 0 <= c < |pids| && first[c] > 0 && ReapedBy(rounds, k, c, first[c]) ensures ReapedBy(rounds, |rounds|, c, first[c]) {
      var i :| 0 <= i < k && ReapedIn(rounds, i, c, first[c]);
    }
  }

  /** A process is still there after the first `k` rounds exactly when none of them found it reaped. */
  lemma StillThere(rounds: seq<Round>, k: nat, first: seq<int>, pids: seq<int>, c: nat)
    requires c < |first| && first[c] > 0 && AllKeptOrFreed(first, pids) && FreedExactly(rounds, k, first, pids)
    ensures ReapedBy(rounds, k, c, first[c]) <==> pids[c] <= 0
    ensures pids[c] > 0 ==> pids[c] == first[c]
  {
    assert KeptOrFreed(first[c], pids[c]);
  }

  lemma OneStep(r: Round, c: nat, start: int, a: Escalation, b: Escalation)
    requires AtStep(r, c, start, a)
    ensures AtStep(r, c, start, b) <==> a == b
  {
    assert SilentFor(r, c, start, 10) ==> SilentFor(r, c, start, 5);
  }

  /** What a round sends is what is called for in it. */
  lemma RoundCalled(s: Signal, rounds: seq<Round>, k: nat, first: seq<int>, before: seq<int>, pids: seq<int>,
                    was: seq<Escalation>, start: int)
    requires k < |rounds| && s.round == k && s.slot < |first| == |before| == |was|
    requires AllKeptOrFreed(first, pids) && FreedExactly(rounds, k + 1, first, pids)
    requires forall c :: 0 <= c < |pids| && pids[c] > 0 ==> before[c] > 0
    requires if k > 0 then AtSteps(rounds[k - 1], before, was, start) else forall c :: 0 <= c < |was| ==> was[c] == Wait
    ensures Called(s, rounds, first, start) <==>
      s.pid == pids[s.slot] > 0 && s.kind != Wait && AtStep(rounds[k], s.slot, start, s.kind) && s.kind != was[s.slot]
  {
    var c := s.slot;
    assert KeptOrFreed(first[c], pids[c]);
    if first[c] > 0 {
      StillThere(rounds, k + 1, first, pids, c);
      if k > 0 && before[c] > 0 {
        OneStep(rounds[k - 1], c, start, was[c], s.kind);
      }
    }
  }

  lemma SentMore(sent: seq<Signal>, more: seq<Signal>, rounds: seq<Round>, k: nat, first: seq<int>, before: seq<int>,
                 pids: seq<int>, was: seq<Escalation>, start: int)
    requires k < |rounds| && |first| == |before| == |was| == |pids|
    requires SentExactly(sent, rounds, k, first, start) && InOrder(sent)
    requires RoundSent(more, rounds[k], k, |pids|, pids, was, start)
    requires AllKeptOrFreed(first, pids) && FreedExactly(rounds, k + 1, first, pids)
    requires forall c :: 0 <= c < |pids| && pids[c] > 0 ==> before[c] > 0
    requires if k > 0 then AtSteps(rounds[k - 1], before, was, start) else forall c :: 0 <= c < |was| ==> was[c] == Wait
    ensures SentExactly(sent + more, rounds, k + 1, first, start) && InOrder(sent + more)
  {
    forall s ensures s in sent + more <==> s.round < k + 1 && Called(s, rounds, first, start) {
      if s.round == k && s.slot < |first| {
        RoundCalled(s, rounds, k, first, before, pids, was, start);
      }
    }
    forall i, j | 0 <= i < j < |sent + more| ensures Precedes((sent + more)[i], (sent + more)[j]) {
      if i < |sent| <= j {
        assert sent[i] in sent && more[j - |sent|] in more;
      }
    }
  }

  lemma SentForGood(sent: seq<Signal>, rounds: seq<Round>, k: nat, first: seq<int>, pids: seq<int>, start: int)
    requires k <= |rounds| && (k == |rounds| || AllFree(pids))
    requires AllKeptOrFreed(first, pids) && FreedExactly(rounds, k, first, pids) && SentExactly(sent, rounds, k, first, start)
    ensures SentExactly(sent, rounds, |rounds|, first, start)
  {
    if AllFree(pids) {
      forall s: Signal | k <= s.round && s.slot < |first| && s.pid == first[s.slot] > 0
        ensures ReapedBy(rounds, s.round + 1, s.slot, s.pid)
      {
        StillThere(rounds, k, first, pids, s.slot);
        var i :| 0 <= i < k && ReapedIn(rounds, i, s.slot, s.pid);
      }
    }
  }

  predicate Ascending(ns: seq<nat>) { forall i, j :: 0 <= i < j < |ns| ==> ns[i] < ns[j] }

  /** What the console and the driver share under the mutex. */
  class Shared {
    var state: OrchState
    var pending: bool
    var restart: bool

    ghost function View(children: set<nat>, at: At): Machine
      reads this
    {
      Machine(state, pending, restart, children, at)
    }

    constructor (configLoaded: bool)
      ensures View({}, Ticking) == Boot(configLoaded)
    {
      state := if configLoaded then Countdown else WaitingConfig;
      pending, restart := false, false;
    }

    /** Apply an event at once and tell the poster what became of it. */
    method PostEvent(ev: OrchEvent) returns (actions: Actions)
      modifies this
      ensures forall children, at :: View(children, at) == Post(old(View(children, at)), ev)
      ensures actions == Transition(old(state), ev).1
    {
      var (next, a) := Transition(state, ev);
      actions := a;
      state := next;
      if actions.spawn {
        pending := true;
      }
      if actions.stop && actions.error == Accepted {
        restart := ev == Restart;
      }
    }

    /** The head of a turn: take the pending spawn and a snapshot of the state. */
    method TakeTurn() returns (doSpawn: bool, snapshot: OrchState)
      modifies this
      ensures doSpawn == old(pending) && snapshot == old(state)
      ensures forall children :: View(children, Branch(old(View(children, Ticking)))) == Next(old(View(children, Ticking)), Take)
      ensures forall children :: doSpawn <==> Branch(old(View(children, Ticking))) == Spawning
    {
      doSpawn := pending;
      pending := false;
      snapshot := state;
    }

    /** What the console posts between two critical sections of the driver. */
    method Interfere(evs: seq<OrchEvent>, ghost children: set<nat>, ghost at: At, ghost m: Machine, ghost run: seq<Label>)
      returns (ghost longer: seq<Label>)
      requires Reaches(m, run, View(children, at)) && AllPosted(evs)
      modifies this
      ensures Reaches(m, longer, View(children, at)) && longer == run + Posts(evs)
      ensures pending ==> old(pending) || Start in evs
      ensures old(state) == Stopping ==> state == Stopping && restart == old(restart) && pending == old(pending)
    {
      longer := run;
      for i := 0 to |evs|
        invariant Reaches(m, longer, View(children, at)) && longer == run + Posts(evs[..i])
        invariant pending ==> old(pending) || Start in evs
        invariant old(state) == Stopping ==> state == Stopping && restart == old(restart) && pending == old(pending)
      {
        longer := ReachesStep(m, longer, View(children, at), Console(evs[i]));
        PostsStep(run, evs, i);
        var actions := PostEvent(evs[i]);
      }
      assert evs[..|evs|] == evs;
    }

    /**
     One turn of the driver, with whatever the console posts between its critical sections: it is a permitted run of
     the life cycle, and it ends where the next turn begins, unless the lot or the stop sequence is still under way.
     */
    method Turn(slots: Slots, w: World) returns (ghost dead: set<nat>, ghost run: seq<Label>, ghost end: Machine, done: bool)
      requires WorldFits(w, slots.pids.Length)
      requires Inv(View(Live(slots.pids[..]), Ticking))
      modifies this, slots.pids
      ensures Reaches(old(View(Live(slots.pids[..]), Ticking)), run, end)
      ensures dead == old(Live(slots.pids[..])) - Live(slots.pids[..])
      ensures run == TurnRun(old(View(Live(slots.pids[..]), Ticking)), w, Live(slots.pids[..]), dead, done)
      ensures done ==> end == View(Live(slots.pids[..]), Ticking)
      ensures !done ==> UnderWay(end, View(Live(slots.pids[..]), end.at))
    {
      ghost var m := View(Live(slots.pids[..]), Ticking);
      ghost var pids := slots.pids[..];
      var doSpawn, snapshot := TakeTurn();
      done := true;
      ghost var at := Branch(m);
      assert Next(m, Take) == View(Live(pids), at);
      ReachesStart(m);
      run := ReachesStep(m, [], m, Take);
      assert run == [Take];
      dead := {};
      run := Interfere(w.afterTake, Live(pids), at, m, run);
      if doSpawn {
        run, end, done := SpawnTurn(slots, w, m, run);
      } else if snapshot == Countdown {
        run := ReachesStep(m, run, View(Live(pids), at), Tick(w.elapsed));
        if w.elapsed {
          var actions := PostEvent(Start);
        }
        end := View(Live(pids), Ticking);
      } else if snapshot == Running {
        run, end := WatchTurn(slots, w, m, run);
      } else if snapshot == Stopping {
        run, end, done := StopTurn(slots, w, m, run);
      } else {
        end := View(Live(pids), Ticking);
      }
      dead := Live(pids) - Live(slots.pids[..]);
    }

    /** The branch that frees the slots of dead processes. */
    method WatchTurn(slots: Slots, w: World, ghost m: Machine, ghost run: seq<Label>)
      returns (ghost longer: seq<Label>, ghost end: Machine)
      requires WorldFits(w, slots.pids.Length)
      requires Reaches(m, run, View(Live(slots.pids[..]), Watching))
      modifies this, slots.pids
      ensures Reaches(m, longer, end) && end == View(Live(slots.pids[..]), Ticking)
      ensures longer == run + [Reap(old(Live(slots.pids[..])) - Live(slots.pids[..]))]
    {
      ghost var pids := slots.pids[..];
      var cleaned := slots.ReapDead(w.alive);
      ReapedLive(pids, slots.pids[..]);
      longer := ReachesStep(m, run, View(Live(pids), Watching), Reap(Live(pids) - Live(slots.pids[..])));
      if cleaned > 0 {
        var actions := PostEvent(ChildDied);
      }
      end := View(Live(slots.pids[..]), Ticking);
    }

    /** The branch that creates a lot; without a single process the parent waits for a new order. */
    method SpawnTurn(slots: Slots, w: World, ghost m: Machine, ghost run: seq<Label>)
      returns (ghost longer: seq<Label>, ghost end: Machine, done: bool)
      requires WorldFits(w, slots.pids.Length)
      requires Reaches(m, run, View(Live(slots.pids[..]), Spawning))
      modifies this, slots.pids
      ensures Reaches(m, longer, end) && longer == SpawnRun(run, w, Live(slots.pids[..]), done)
      ensures done ==> end == View(Live(slots.pids[..]), Ticking)
      ensures !done ==> UnderWay(end, View(Live(slots.pids[..]), end.at))
    {
      ghost var used;
      var created;
      longer, end := run, View(Live(slots.pids[..]), Spawning);
      created, used, done := slots.SpawnForks(w.tries);
      if !done {
        return;
      }
      ghost var made := Live(slots.pids[..]);
      assert {} + made == made;
      longer := ReachesStep(m, longer, end, Spawn(made));
      longer := Interfere(w.afterLot, made, if made == {} then Failed else Ticking, m, longer);
      if created == 0 {
        longer := ReachesStep(m, longer, View(made, Failed), GiveUp);
        state := WaitingConfig;
      }
      end := View(made, Ticking);
    }

    /** The branch that stops the processes, and on a restart applies the configuration before the next lot. */
    method StopTurn(slots: Slots, w: World, ghost m: Machine, ghost run: seq<Label>)
      returns (ghost longer: seq<Label>, ghost end: Machine, done: bool)
      requires WorldFits(w, slots.pids.Length)
      requires Reaches(m, run, View(Live(slots.pids[..]), Halting))
      modifies this, slots.pids
      ensures Reaches(m, longer, end) && longer == StopRun(run, w, old(restart), done)
      ensures done ==> end == View(Live(slots.pids[..]), Ticking)
      ensures !done ==> UnderWay(end, View(Live(slots.pids[..]), end.at))
    {
      ghost var pids := slots.pids[..];
      var restartAfterStop := restart;
      var interrupted, sent;
      longer := Interfere(w.whileStopping, Live(pids), Halting, m, run);
      end := View(Live(pids), Halting);
      interrupted, sent, done := slots.StopAll(w.start, w.rounds, w.remembers);
      KeptLive(pids, slots.pids[..]);
      LiveNone(slots.pids[..]);
      if !done {
        return;
      }
      longer := ReachesStep(m, longer, end, StopAll);
      longer := Interfere(w.afterStop, {}, Halted(restart), m, longer);
      longer := ReachesStep(m, longer, View({}, Halted(restart)), Resume);
      if restartAfterStop {
        state := Applying;
        longer := ApplyTurn(w, m, longer);
      } else {
        state := WaitingConfig;
      }
      end := View({}, Ticking);
    }

    /** The configuration is applied while every slot is free; then the next lot is ordered, or the parent waits. */
    method ApplyTurn(w: World, ghost m: Machine, ghost run: seq<Label>) returns (ghost longer: seq<Label>)
      requires Reaches(m, run, View({}, Reconfiguring)) && state == Applying && !pending
      requires Undisturbed(w) && AllPosted(w.whileApplying)
      modifies this
      ensures Reaches(m, longer, View({}, Ticking)) && longer == run + Posts(w.whileApplying) + [FinishApply(w.quiesced)]
    {
      longer := Interfere(w.whileApplying, {}, Reconfiguring, m, run);
      longer := ReachesStep(m, longer, View({}, Reconfiguring), FinishApply(w.quiesced));
      if w.quiesced {
        var actions := PostEvent(Start);
      } else {
        state := WaitingConfig;
      }
    }
  }

  /** A turn not over yet: the lot is being created, or the processes that remain are being stopped. */
  predicate UnderWay(reached: Machine, now: Machine) {
    || (now.at == Spawning && now == reached.(children := now.children))
    || (now.at == Halting && now == reached.(children := now.children) && now.children <= reached.children)
  }

  /** What the system answers during one turn, and what the console posts between its critical sections. */
  datatype World = World(tries: seq<Try>, elapsed: bool, alive: seq<bool>, start: int, rounds: seq<Round>,
                         remembers: bool, quiesced: bool,
                         afterTake: seq<OrchEvent>, afterLot: seq<OrchEvent>, whileStopping: seq<OrchEvent>,
                         afterStop: seq<OrchEvent>, whileApplying: seq<OrchEvent>)

  function Posts(evs: seq<OrchEvent>): (labels: seq<Label>)
    ensures |labels| == |evs| && forall i :: 0 <= i < |evs| ==> labels[i] == Console(evs[i])
  {
    seq(|evs|, i requires 0 <= i < |evs| => Console(evs[i]))
  }

  lemma PostsStep(run: seq<Label>, evs: seq<OrchEvent>, i: nat)
    requires i < |evs|
    ensures run + Posts(evs[..i]) + [Console(evs[i])] == run + Posts(evs[..i + 1])
  {
    assert evs[..i + 1] == evs[..i] + [evs[i]];
  }

  /** A run continued by the branch that creates a lot, `made` being the slots that then hold a process. */
  function SpawnRun(run: seq<Label>, w: World, made: set<nat>, done: bool): seq<Label> {
    if !done then run
    else
      var created := run + [Spawn(made)] + Posts(w.afterLot);
      if made == {} then created + [GiveUp] else created
  }

  /** A run continued by the branch that stops the processes. */
  function StopRun(run: seq<Label>, w: World, restart: bool, done: bool): seq<Label> {
    var waited := run + Posts(w.whileStopping);
    if !done then waited
    else
      var stopped := waited + [StopAll] + Posts(w.afterStop) + [Resume];
      if restart then stopped + Posts(w.whileApplying) + [FinishApply(w.quiesced)] else stopped
  }

  /** The steps of a turn: its head, what the console posts meanwhile, and the branch its snapshot chose. */
  function TurnRun(m: Machine, w: World, made: set<nat>, dead: set<nat>, done: bool): seq<Label> {
    var run := [Take] + Posts(w.afterTake);
    match Branch(m)
    case Spawning => SpawnRun(run, w, made, done)
    case Counting => run + [Tick(w.elapsed)]
    case Watching => run + [Reap(dead)]
    case Halting => StopRun(run, w, m.restart, done)
    case _ => run
  }

  ghost predicate AllPosted(evs: seq<OrchEvent>) { forall i :: 0 <= i < |evs| ==> Posted(evs[i]) }

  /** No start is accepted while a configuration is applied whose quiescence is then refused. */
  predicate Undisturbed(w: World) { w.quiesced || Start !in w.whileApplying }

  ghost predicate WorldFits(w: World, n: nat) {
    && (forall k :: 0 <= k < |w.tries| ==> TryOk(w.tries[k]))
    && |w.alive| == n && (forall k :: 0 <= k < |w.rounds| ==> Covers(w.rounds[k], n))
    && AllPosted(w.afterTake) && AllPosted(w.afterLot) && AllPosted(w.whileStopping) && AllPosted(w.afterStop)
    && AllPosted(w.whileApplying) && Undisturbed(w)
  }

  /** A permitted run leads from one sound state to another. */
  ghost predicate Reaches(m: Machine, run: seq<Label>, end: Machine) {
    IsRun(m, run, true) && Final(m, run) == end && Inv(end)
  }

  lemma ReachesStart(m: Machine)
    requires Inv(m)
    ensures Reaches(m, [], m)
  {
  }

  lemma {:induction false} RunLonger(m: Machine, run: seq<Label>, l: Label)
    requires IsRun(m, run, true) && Enabled(Final(m, run), l) && Permitted(Final(m, run), l)
    ensures IsRun(m, run + [l], true) && Final(m, run + [l]) == Next(Final(m, run), l)
    decreases |run|
  {
    if run == [] {
      assert [] + [l] == [l] && [l][1..] == [];
    } else {
      assert (run + [l])[0] == run[0] && (run + [l])[1..] == run[1..] + [l];
      RunLonger(Next(m, run[0]), run[1..], l);
    }
  }

  lemma ReachesStep(m: Machine, run: seq<Label>, at: Machine, l: Label) returns (longer: seq<Label>)
    requires Reaches(m, run, at) && Enabled(at, l) && Permitted(at, l)
    ensures Reaches(m, longer, Next(at, l)) && longer == run + [l]
  {
    RunLonger(m, run, l);
    StepInv(at, l);
    longer := run + [l];
  }

  lemma KeptLive(before: seq<int>, after: seq<int>)
    requires AllKeptOrFreed(before, after)
    ensures Live(after) <= Live(before)
  {
  }

  lemma ReapedLive(before: seq<int>, after: seq<int>)
    requires AllKeptOrFreed(before, after)
    ensures Live(before) - (Live(before) - Live(after)) == Live(after)
  {
    KeptLive(before, after);
  }
}
