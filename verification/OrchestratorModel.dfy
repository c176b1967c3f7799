/**
 The life cycle of the search processes (`src/app/fork_orchestrator.c`): the pure transition, and the driver loop
 as the sequence of its critical sections, any of which the console may come between.

 The main result is that a lot of processes is only ever spawned when no process of an earlier lot is left; the
 one exception is an operator's `start` landing while a configuration is being applied whose quiescence is then
 refused. A configuration begun stops the countdown for good, except in the turn whose snapshot it missed.
 */
module OrchestratorModel {

  datatype OrchState = WaitingConfig | Countdown | Configuring | Running | Stopping | Applying | Exiting

  datatype OrchEvent = ConfigBegun | Start | StopForks | Restart | Exit | ChildDied

  datatype OrchError = Accepted | AlreadyRunning | NotRunning

  datatype Actions = Actions(spawn: bool, stop: bool, error: OrchError)

  // ------------------------------------------------------------------
  // The pure transition
  // ------------------------------------------------------------------

  function Transition(s: OrchState, ev: OrchEvent): (OrchState, Actions) {
    match ev
    case ConfigBegun =>
      (if s == WaitingConfig || s == Countdown then Configuring else s, Actions(false, false, Accepted))
    case Start =>
      if s == Running || s == Stopping || s == Exiting then (s, Actions(false, false, AlreadyRunning))
      else (Running, Actions(true, false, Accepted))
    case StopForks =>
      if s != Running then (s, Actions(false, false, NotRunning)) else (Stopping, Actions(false, true, Accepted))
    case Restart =>
      if s != Running then (s, Actions(false, false, NotRunning)) else (Stopping, Actions(false, true, Accepted))
    case Exit => (Exiting, Actions(false, false, Accepted))
    case ChildDied => (s, Actions(false, false, Accepted))
  }

  function TransitionAll(s: OrchState, evs: seq<OrchEvent>): OrchState
    decreases |evs|
  {
    if evs == [] then s else TransitionAll(Transition(s, evs[0]).0, evs[1..])
  }

  /** Events alone never bring back the countdown (`LateCountdownStart` says what the driver can still do). */
  lemma {:induction false} CountdownNeverReturns(s: OrchState, evs: seq<OrchEvent>)
    requires s != Countdown
    ensures TransitionAll(s, evs) != Countdown
    decreases |evs|
  {
    if evs != [] {
      CountdownNeverReturns(Transition(s, evs[0]).0, evs[1..]);
    }
  }

  /** An event that is refused changes nothing and asks for nothing; a spawn or a stop is asked for exactly on entering that state. */
  lemma TransitionMeans(s: OrchState, ev: OrchEvent)
    ensures var (s', a) := Transition(s, ev);
            && (a.error != Accepted ==> s' == s && !a.spawn && !a.stop)
            && (a.spawn <==> s' == Running && s != Running)
            && (a.stop <==> s' == Stopping && s != Stopping)
  {
  }

  predicate Refused(s: OrchState, ev: OrchEvent) { Transition(s, ev).1.error != Accepted }

  /** A start is refused exactly while a lot is or after an exit, a stop or a restart exactly without one; nothing else ever is. */
  lemma TransitionAccepts(s: OrchState, ev: OrchEvent)
    ensures ev == Start ==> (Refused(s, ev) <==> s == Running || s == Stopping || s == Exiting)
    ensures ev == StopForks || ev == Restart ==> (Refused(s, ev) <==> s != Running)
    ensures ev == ConfigBegun || ev == Exit || ev == ChildDied ==> !Refused(s, ev)
    ensures Refused(s, ev) ==> Transition(s, ev).1.error == if ev == Start then AlreadyRunning else NotRunning
  {
  }

  /** Where an accepted event leads. */
  lemma TransitionLeads(s: OrchState, ev: OrchEvent)
    ensures var s' := Transition(s, ev).0;
            && (ev == Start && !Refused(s, ev) ==> s' == Running)
            && ((ev == StopForks || ev == Restart) && !Refused(s, ev) ==> s' == Stopping)
            && (ev == ConfigBegun && (s == WaitingConfig || s == Countdown) ==> s' == Configuring)
            && (ev == ConfigBegun && s != WaitingConfig && s != Countdown ==> s' == s)
            && (ev == Exit ==> s' == Exiting) && (ev == ChildDied ==> s' == s)
  {
  }

  // ------------------------------------------------------------------
  // Roles of the processes of a lot
  // ------------------------------------------------------------------

  /** How many processes of the lot check the stock; a negative request means it was not asked for. */
  function ResolvePrunerForks(requested: int, prunerMode: bool, nbForks: int): (n: int)
    ensures nbForks <= 0 ==> n == 0
    ensures nbForks > 0 ==> 0 <= n <= nbForks
    ensures 0 <= requested <= nbForks ==> n == requested
    ensures requested > nbForks > 0 ==> n == nbForks
    ensures requested < 0 < nbForks ==> n == if prunerMode then nbForks else 0
  {
    if nbForks <= 0 then 0
    else
      var n := if requested >= 0 then requested else if prunerMode then nbForks else 0;
      if n > nbForks then nbForks else n
  }

  predicate Prunes(forkSeq: int, nbForks: int, prunerForks: int) {
    if forkSeq < 0 || nbForks <= 0 || forkSeq >= nbForks then false
    else
      var p := if prunerForks < 0 then 0 else if prunerForks > nbForks then nbForks else prunerForks;
      forkSeq >= nbForks - p
  }

  function CountPruners(nbForks: int, prunerForks: int, n: nat): nat {
    if n == 0 then 0 else CountPruners(nbForks, prunerForks, n - 1) + if Prunes(n - 1, nbForks, prunerForks) then 1 else 0
  }

  lemma {:induction false} CountPrunersIs(nbForks: int, prunerForks: int, n: nat)
    requires 0 <= prunerForks <= nbForks && n <= nbForks
    ensures CountPruners(nbForks, prunerForks, n) == if n <= nbForks - prunerForks then 0 else n - (nbForks - prunerForks)
  {
    if n > 0 {
      CountPrunersIs(nbForks, prunerForks, n - 1);
    }
  }

  /** In every lot, exactly as many processes check the stock as the resolved dosage says, and they are the last ones. */
  lemma RolesMatchDosage(requested: int, prunerMode: bool, nbForks: nat)
    ensures CountPruners(nbForks, ResolvePrunerForks(requested, prunerMode, nbForks), nbForks)
         == ResolvePrunerForks(requested, prunerMode, nbForks)
    ensures var n := ResolvePrunerForks(requested, prunerMode, nbForks);
            && (forall i, j :: 0 <= i <= j < nbForks && Prunes(i, nbForks, n) ==> Prunes(j, nbForks, n))
            && forall i :: Prunes(i, nbForks, n) ==> 0 <= i < nbForks
  {
    CountPrunersIs(nbForks, ResolvePrunerForks(requested, prunerMode, nbForks), nbForks);
  }

  // ------------------------------------------------------------------
  // The driver
  // ------------------------------------------------------------------

  /** Where the driver is between two critical sections. */
  datatype At =
    | Ticking                  // about to take the pending spawn and a snapshot of the state
    | Spawning                 // a spawn was taken: the processes are about to be created
    | Failed                   // no process could be created
    | Counting                 // the countdown is running
    | Watching                 // processes run: dead ones are cleaned up
    | Halting                  // the processes are about to be stopped
    | Halted(restart: bool)    // all of them were reaped
    | Reconfiguring            // the configuration is being applied

  /** The shared state, the processes alive in the slots, and the driver. */
  datatype Machine = Machine(state: OrchState, pending: bool, restart: bool, children: set<nat>, at: At)

  datatype Label =
    | Console(ev: OrchEvent)
    | Take
    | Spawn(made: set<nat>)
    | GiveUp
    | Tick(elapsed: bool)
    | Reap(dead: set<nat>)
    | StopAll
    | Resume
    | FinishApply(quiesced: bool)

  /** What the console posts: never an exit. */
  predicate Posted(ev: OrchEvent) { ev == ConfigBegun || ev == Start || ev == StopForks || ev == Restart }

  function Post(m: Machine, ev: OrchEvent): Machine {
    var (s', a) := Transition(m.state, ev);
    m.(state := s', pending := m.pending || a.spawn,
       restart := if a.stop && a.error == Accepted then ev == Restart else m.restart)
  }

  predicate Enabled(m: Machine, l: Label) {
    match l
    case Console(ev) => Posted(ev)
    case Take => m.at == Ticking
    case Spawn(_) => m.at == Spawning
    case GiveUp => m.at == Failed
    case Tick(_) => m.at == Counting
    case Reap(dead) => m.at == Watching && dead <= m.children
    case StopAll => m.at == Halting
    case Resume => m.at.Halted?
    case FinishApply(_) => m.at == Reconfiguring
  }

  function Branch(m: Machine): At {
    if m.pending then Spawning
    else
      match m.state
      case Countdown => Counting
      case Running => Watching
      case Stopping => Halting
      case _ => Ticking
  }

  function Next(m: Machine, l: Label): Machine {
    match l
    case Console(ev) => Post(m, ev)
    case Take => m.(at := Branch(m), pending := false)
    case Spawn(made) => m.(children := m.children + made, at := if made == {} then Failed else Ticking)
    case GiveUp => m.(state := WaitingConfig, at := Ticking)
    case Tick(elapsed) => (if elapsed then Post(m, Start) else m).(at := Ticking)
    case Reap(dead) => Post(m, ChildDied).(children := m.children - dead, at := Ticking)
    case StopAll => m.(children := {}, at := Halted(m.restart))
    case Resume =>
      if m.at.Halted? && m.at.restart then m.(state := Applying, at := Reconfiguring) else m.(state := WaitingConfig, at := Ticking)
    case FinishApply(quiesced) =>
      (if quiesced then Post(m, Start) else m.(state := WaitingConfig)).(at := Ticking)
  }

  /** Refusing to apply a configuration while a start is pending is the one thing that breaks the life cycle. */
  predicate Permitted(m: Machine, l: Label) { l == FinishApply(false) ==> !m.pending }

  predicate Active(s: OrchState) { s == Running || s == Stopping }

  predicate Inv(m: Machine) {
    && m.state != Exiting
    && (m.children != {} ==> Active(m.state))
    && (m.pending ==> Active(m.state) && m.children == {})
    && (m.at == Spawning || m.at == Failed ==> Active(m.state) && m.children == {} && !m.pending)
    && (m.at == Halting ==> m.state == Stopping && !m.pending)
    && (m.at.Halted? ==> m.state == Stopping && !m.pending && m.children == {})
    && (m.at == Reconfiguring ==> m.children == {} && (m.state == Applying || (m.pending && Active(m.state))))
    && (m.at == Counting ==> m.children == {})
  }

  /** Every permitted step, of the driver or of the console, keeps the invariant. */
  lemma StepInv(m: Machine, l: Label)
    requires Inv(m) && Enabled(m, l) && Permitted(m, l)
    ensures Inv(Next(m, l))
  {
  }

  function Boot(configLoaded: bool): Machine {
    Machine(if configLoaded then Countdown else WaitingConfig, false, false, {}, Ticking)
  }

  /** A run every step of which is possible, and permitted if so asked. */
  predicate IsRun(m: Machine, run: seq<Label>, permitted: bool)
    decreases |run|
  {
    run == [] ||
    (Enabled(m, run[0]) && (permitted ==> Permitted(m, run[0])) && IsRun(Next(m, run[0]), run[1..], permitted))
  }

  function Final(m: Machine, run: seq<Label>): Machine
    decreases |run|
  {
    if run == [] then m else Final(Next(m, run[0]), run[1..])
  }

  lemma {:induction false} RunInv(m: Machine, run: seq<Label>)
    requires Inv(m) && IsRun(m, run, true)
    ensures Inv(Final(m, run))
    decreases |run|
  {
    if run != [] {
      StepInv(m, run[0]);
      RunInv(Next(m, run[0]), run[1..]);
    }
  }

  /**
   Over any permitted run of the driver and the console: when processes are about to be created every slot is
   free, and while any process lives the state says so, so that a start is refused.
   */
  lemma LotsNeverOverlap(configLoaded: bool, run: seq<Label>)
    requires IsRun(Boot(configLoaded), run, true)
    ensures var m := Final(Boot(configLoaded), run);
            && (m.at == Spawning ==> m.children == {})
            && (m.children != {} ==> Transition(m.state, Start).1.error == AlreadyRunning)
  {
    RunInv(Boot(configLoaded), run);
  }

  // ------------------------------------------------------------------
  // The countdown that was left
  // ------------------------------------------------------------------

  predicate DriverOnly(run: seq<Label>) { forall i :: 0 <= i < |run| ==> !run[i].Console? }

  /** The driver, left to itself, comes to spawn a lot. */
  ghost predicate SpawnsAlone(m: Machine) {
    exists run: seq<Label> :: IsRun(m, run, true) && DriverOnly(run) && Final(m, run).at == Spawning
  }

  /** Where a configuration was begun and nothing is left for the driver to do. */
  predicate Settled(m: Machine) { m.state == Configuring && !m.pending && (m.at == Ticking || m.at == Watching) }

  lemma {:induction false} SettledStays(m: Machine, run: seq<Label>)
    requires Settled(m) && IsRun(m, run, true) && DriverOnly(run)
    ensures Settled(Final(m, run))
    decreases |run|
  {
    if run != [] {
      assert !run[0].Console?;
      forall i | 0 <= i < |run[1..]| ensures !run[1..][i].Console? {
        assert run[1..][i] == run[i + 1];
      }
      SettledStays(Next(m, run[0]), run[1..]);
    }
  }

  /**
   Once a configuration was begun a lot starts without any further order exactly when the driver took its snapshot
   while the countdown still ran: its deadline is checked after the mutex was released.
   */
  lemma StartsAloneExact(m: Machine)
    requires Inv(m) && m.state == Configuring
    ensures SpawnsAlone(m) <==> m.at == Counting
  {
    if m.at == Counting {
      var run := [Tick(true), Take];
      Two(m, run[0], run[1], [], true);
      assert run + [] == run;
    } else {
      forall run: seq<Label> | IsRun(m, run, true) && DriverOnly(run) ensures Final(m, run).at != Spawning {
        SettledStays(m, run);
      }
    }
  }

  /** While the driver counts, the state is the countdown or what the console made of it. */
  predicate Counts(m: Machine) {
    m.at == Counting ==> m.state == Countdown || m.state == Configuring || Active(m.state)
  }

  lemma {:induction false} RunCounts(m: Machine, run: seq<Label>)
    requires Counts(m) && IsRun(m, run, true)
    ensures Counts(Final(m, run))
    decreases |run|
  {
    if run != [] {
      RunCounts(Next(m, run[0]), run[1..]);
    }
  }

  /**
   In every reachable state where the driver counts: the deadline, once reached, starts a lot exactly in the
   countdown and in the configuration that took its place, and is without effect exactly once a lot was ordered.
   */
  lemma DeadlineExact(configLoaded: bool, run: seq<Label>)
    requires IsRun(Boot(configLoaded), run, true) && Final(Boot(configLoaded), run).at == Counting
    ensures var m := Final(Boot(configLoaded), run);
            && (Next(m, Tick(true)).pending && !m.pending <==> m.state == Countdown || m.state == Configuring)
            && (Next(m, Tick(true)) == m.(at := Ticking) <==> m.state == Running || m.state == Stopping)
  {
    RunInv(Boot(configLoaded), run);
    RunCounts(Boot(configLoaded), run);
  }

  /** The countdown was left, and its deadline starts a lot all the same. */
  predicate StartsLate(m: Machine) { m.state != Countdown && Next(m, Tick(true)).pending && !m.pending }

  /** On any sound state: late exactly when the console left the countdown for anything but a lot. */
  lemma LateExact(m: Machine)
    requires Inv(m) && m.at == Counting
    ensures StartsLate(m) <==> m.state != Countdown && m.state != Running && m.state != Stopping
  {
  }

  /** A configuration begun between the snapshot and the deadline does not stop the countdown. */
  lemma LateCountdownStart()
    ensures var run := [Take, Console(ConfigBegun), Tick(true)];
            && IsRun(Boot(true), run, true) && StartsLate(Final(Boot(true), run[..2]))
            && Final(Boot(true), run).state == Running && Final(Boot(true), run).pending
  {
    var m := Boot(true);
    var begun := Machine(Configuring, false, false, {}, Counting);
    var begin, tick := [Take, Console(ConfigBegun)], [Tick(true)];
    var run := begin + tick;
    assert run == [Take, Console(ConfigBegun), Tick(true)] && run[..2] == begin == begin + [];
    Two(m, Take, Console(ConfigBegun), tick, true);
    Two(m, Take, Console(ConfigBegun), [], true);
    assert tick[1..] == [] && Next(Next(m, Take), Console(ConfigBegun)) == begun;
  }

  // ------------------------------------------------------------------
  // Orders are carried out
  // ------------------------------------------------------------------

  /** From where no lot is, a start leads to one; a lot without a single process leads back to waiting. */
  lemma StartSpawns(m: Machine, made: set<nat>)
    requires Inv(m) && m.at == Ticking && !Active(m.state)
    ensures var run := [Console(Start), Take, Spawn(made)] + [];
            && IsRun(m, run, true)
            && (made != {} ==> Final(m, run) == m.(state := Running, children := made))
            && (made == {} ==> Final(m, run) == m.(state := Running, at := Failed))
    ensures made == {} ==> Next(m.(state := Running, at := Failed), GiveUp) == m.(state := WaitingConfig)
  {
    var spawning := m.(state := Running, at := Spawning);
    Two(m, Console(Start), Take, [Spawn(made)] + [], true);
    assert [Console(Start), Take, Spawn(made)] + [] == [Console(Start), Take] + ([Spawn(made)] + []);
    assert Next(Next(m, Console(Start)), Take) == spawning;
    assert {} + made == made;
    One(spawning, Spawn(made), true);
  }

  /** Before the deadline the countdown only goes on; while a lot runs the driver looks after it, and only frees dead slots. */
  lemma DriverWatches(m: Machine, dead: set<nat>)
    ensures m.at == Counting ==> Next(m, Tick(false)) == m.(at := Ticking)
    ensures m.at == Ticking && !m.pending && m.state == Countdown ==> Next(m, Take) == m.(at := Counting)
    ensures m.at == Ticking && !m.pending && m.state == Running ==> Next(m, Take) == m.(at := Watching)
    ensures m.at == Watching ==> Next(m, Reap(dead)) == m.(children := m.children - dead, at := Ticking)
    ensures m.at == Ticking && !m.pending && !Active(m.state) && m.state != Countdown ==> Next(m, Take) == m
  {
  }

  /** An accepted stop ends in the waiting state with every slot free, and nothing starts until it is ordered. */
  lemma StopComesToRest(m: Machine)
    requires Inv(m) && m.at == Ticking && m.state == Running && !m.pending
    ensures var run := [Console(StopForks), Take] + ([StopAll, Resume] + []);
            && IsRun(m, run, true)
            && Final(m, run) == Machine(WaitingConfig, false, false, {}, Ticking)
  {
    var halting := m.(state := Stopping, restart := false, at := Halting);
    Two(m, Console(StopForks), Take, [StopAll, Resume] + [], true);
    assert Next(Next(m, Console(StopForks)), Take) == halting;
    Two(halting, StopAll, Resume, [], true);
  }

  /**
   An accepted restart stops every process, applies the configuration, and comes to a new lot by itself; if the
   quiescence is refused it comes to rest instead.
   */
  lemma RestartRunsAgain(m: Machine, quiesced: bool)
    requires Inv(m) && m.at == Ticking && m.state == Running && !m.pending
    ensures var run := [Console(Restart), Take] + ([StopAll, Resume] + ([FinishApply(quiesced), Take] + []));
            && IsRun(m, run, true)
            && (quiesced ==> Final(m, run) == Machine(Running, false, true, {}, Spawning))
            && (!quiesced ==> Final(m, run) == Machine(WaitingConfig, false, true, {}, Ticking))
  {
    var halting := m.(state := Stopping, restart := true, at := Halting);
    var applying := Machine(Applying, false, true, {}, Reconfiguring);
    var last := [FinishApply(quiesced), Take] + [];
    Two(m, Console(Restart), Take, [StopAll, Resume] + last, true);
    assert Next(Next(m, Console(Restart)), Take) == halting;
    Two(halting, StopAll, Resume, last, true);
    assert Next(Next(halting, StopAll), Resume) == applying;
    ApplicationEnds(applying, quiesced);
  }

  lemma ApplicationEnds(applying: Machine, quiesced: bool)
    requires applying == Machine(Applying, false, true, {}, Reconfiguring)
    ensures var run := [FinishApply(quiesced), Take] + [];
            && IsRun(applying, run, true)
            && (quiesced ==> Final(applying, run) == Machine(Running, false, true, {}, Spawning))
            && (!quiesced ==> Final(applying, run) == Machine(WaitingConfig, false, true, {}, Ticking))
  {
    Two(applying, FinishApply(quiesced), Take, [], true);
  }

  lemma One(m: Machine, a: Label, permitted: bool)
    requires Enabled(m, a) && (permitted ==> Permitted(m, a))
    ensures IsRun(m, [a] + [], permitted) && Final(m, [a] + []) == Next(m, a)
  {
    var run := [a] + [];
    assert run[0] == a && run[1..] == [];
  }

  // ------------------------------------------------------------------
  // The refused application
  // ------------------------------------------------------------------

  /** A further lot is about to be created over a living one. */
  predicate Overlapping(m: Machine) { m.at == Spawning && m.children != {} }

  ghost predicate CanOverlap(m: Machine) {
    exists run: seq<Label> :: IsRun(m, run, true) && Overlapping(Final(m, run))
  }

  /** From a sound state no permitted run overlaps two lots. */
  lemma SoundNeverOverlaps(m: Machine)
    requires Inv(m)
    ensures !CanOverlap(m)
  {
    forall run: seq<Label> | IsRun(m, run, true) ensures !Overlapping(Final(m, run)) {
      RunInv(m, run);
    }
  }

  /** The pending start spawns in the waiting state, where a second one is accepted. */
  lemma PendingOverlaps(m: Machine, first: set<nat>)
    requires m.at == Ticking && m.pending && m.state == WaitingConfig && first != {}
    ensures CanOverlap(m)
  {
    var spawning := m.(at := Spawning, pending := false);
    var spawned := m.(at := Ticking, pending := false, children := m.children + first);
    var front, back := [Take, Spawn(first)], [Console(Start), Take];
    Two(m, front[0], front[1], back, true);
    assert Next(spawning, Spawn(first)) == spawned;
    Two(spawned, back[0], back[1], [], true);
    assert back + [] == back && [Take, Spawn(first)] + back == front + back;
    assert Overlapping(Final(m, front + back));
  }

  /** After a refused application two lots can overlap exactly when a start was accepted meanwhile. */
  lemma RefusalExact(m: Machine)
    requires Inv(m) && m.at == Reconfiguring
    ensures CanOverlap(Next(m, FinishApply(false))) <==> m.pending
  {
    var refused := Next(m, FinishApply(false));
    if m.pending {
      PendingOverlaps(refused, {0});
    } else {
      SoundNeverOverlaps(refused);
    }
  }

  /** A lot is stopped to be restarted, a start lands while the configuration is applied, and the quiescence is refused. */
  function OverlapRun(first: set<nat>, second: set<nat>): seq<Label> {
    [Console(Start), Take, Spawn(first)] + RestartRun(second)
  }

  function RestartRun(second: set<nat>): seq<Label> {
    [Console(Restart), Take, StopAll, Resume] + RefusedRun(second)
  }

  function RefusedRun(second: set<nat>): seq<Label> {
    [Console(Start), FinishApply(false), Take] + LastRun(second)
  }

  function LastRun(second: set<nat>): seq<Label> {
    [Spawn(second), Console(Start), Take] + []
  }

  /** Otherwise two lots can overlap: the pending start spawns in the waiting state, where a second start is accepted. */
  lemma RefusedStartOverlaps(first: set<nat>, second: set<nat>)
    requires first != {} && second != {}
    ensures var m := Final(Boot(false), OverlapRun(first, second));
            IsRun(Boot(false), OverlapRun(first, second), false) && m.at == Spawning && m.children == second
  {
    var running := Machine(Running, false, false, first, Ticking);
    var applying := Machine(Applying, false, true, {}, Reconfiguring);
    var spawning := Machine(WaitingConfig, false, true, {}, Spawning);
    var end := Machine(Running, false, true, second, Spawning);
    assert {} + first == first && {} + second == second;
    Three(Boot(false), Console(Start), Take, Spawn(first), RestartRun(second), running);
    Four(running, Console(Restart), Take, StopAll, Resume, RefusedRun(second), applying);
    Three(applying, Console(Start), FinishApply(false), Take, LastRun(second), spawning);
    Three(spawning, Spawn(second), Console(Start), Take, [], end);
  }

  lemma Two(m: Machine, a: Label, b: Label, rest: seq<Label>, permitted: bool)
    requires Enabled(m, a) && Enabled(Next(m, a), b)
    requires permitted ==> Permitted(m, a) && Permitted(Next(m, a), b)
    ensures IsRun(m, [a, b] + rest, permitted) == IsRun(Next(Next(m, a), b), rest, permitted)
    ensures Final(m, [a, b] + rest) == Final(Next(Next(m, a), b), rest)
  {
    var run := [a, b] + rest;
    assert run[0] == a && run[1..] == [b] + rest && ([b] + rest)[0] == b && ([b] + rest)[1..] == rest;
  }

  lemma Three(m: Machine, a: Label, b: Label, c: Label, rest: seq<Label>, end: Machine)
    requires Enabled(m, a) && Enabled(Next(m, a), b) && Enabled(Next(Next(m, a), b), c)
    requires Next(Next(Next(m, a), b), c) == end
    ensures IsRun(m, [a, b, c] + rest, false) == IsRun(end, rest, false)
    ensures Final(m, [a, b, c] + rest) == Final(end, rest)
  {
    assert [a, b, c] + rest == [a, b] + ([c] + rest);
    Two(m, a, b, [c] + rest, false);
    assert ([c] + rest)[0] == c && ([c] + rest)[1..] == rest;
  }

  lemma Four(m: Machine, a: Label, b: Label, c: Label, d: Label, rest: seq<Label>, end: Machine)
    requires Enabled(m, a) && Enabled(Next(m, a), b) && Enabled(Next(Next(m, a), b), c) && Enabled(Next(Next(Next(m, a), b), c), d)
    requires Next(Next(Next(Next(m, a), b), c), d) == end
    ensures IsRun(m, [a, b, c, d] + rest, false) == IsRun(end, rest, false)
    ensures Final(m, [a, b, c, d] + rest) == Final(end, rest)
  {
    assert [a, b, c, d] + rest == [a, b] + ([c, d] + rest);
    Two(m, a, b, [c, d] + rest, false);
    Two(Next(Next(m, a), b), c, d, rest, false);
  }
}
