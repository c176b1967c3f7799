/**
 The register of known client machines (`src/app/known_clients_registry.c`): what each event does to the table,
 and what the cumulative totals mean over a whole run.

 Every counter of a client process restarts at zero with the process, so the totals of a machine are kept by
 growth: each report adds what the session gained since its previous report. The main result is that this equals
 the loaded totals plus, over all sessions ever tracked, the largest value each session reported (64-bit
 unsigned arithmetic included).
 */
module KnownClientsModel {

  const MAX_CONTROL_SESSIONS: nat := 64
  const MAX_KNOWN_CLIENTS: nat := 4 * MAX_CONTROL_SESSIONS
  const MAX_SESSIONS: nat := 8
  const WORD: nat := 0x1_0000_0000_0000_0000

  /** A machine or client nonce: only equality of nonces is ever used. */
  type Uid = nat

  type Word = x: nat | x < WORD

  datatype Mode = Search | Pruner | GpuPruner

  datatype Session = Session(inUse: bool, client: Uid, mode: Mode, connectTime: int, checked: Word, removed: Word)

  datatype Machine = Machine(
    inUse: bool, uid: Uid, mode: Mode,
    active: int, search: int, prune: int, connections: int,
    firstSeen: int, lastSeen: int,
    checked: Word, removed: Word, best: Word, uptime: Word,
    sessions: seq<Session>)

  datatype Identity = Identity(machine: Uid, client: Uid, mode: Mode)

  datatype Stats = Stats(checked: Word, removed: Word, maxResult: Word)

  datatype Record = Record(uid: Uid, mode: Mode, connections: int, firstSeen: int, lastSeen: int,
                           checked: Word, removed: Word, best: Word, uptime: Word)

  function NoSession(): Session { Session(false, 0, Search, 0, 0, 0) }

  function NoSessions(): (ss: seq<Session>)
    ensures |ss| == MAX_SESSIONS && forall k :: 0 <= k < |ss| ==> ss[k] == NoSession()
  {
    var s := NoSession();
    [s, s, s, s, s, s, s, s]
  }

  /** A zeroed table entry. */
  function Blank(): Machine {
    Machine(false, 0, Search, 0, 0, 0, 0, 0, 0, 0, 0, 0, 0, NoSessions())
  }

  type Table = seq<Machine>

  function Empty(): (t: Table)
    ensures |t| == MAX_KNOWN_CLIENTS && forall i :: 0 <= i < |t| ==> t[i] == Blank()
  {
    seq(MAX_KNOWN_CLIENTS, i => Blank())
  }

  // ------------------------------------------------------------------
  // Searching the table
  // ------------------------------------------------------------------

  predicate Is(mc: Machine, m: Uid) { mc.inUse && mc.uid == m }

  predicate Live(s: Session, c: Uid) { s.inUse && s.client == c }

  /** The first entry from `i` on for a machine, or the table's length. */
  function Find(t: Table, m: Uid, i: nat): (k: nat)
    requires i <= |t|
    ensures i <= k <= |t| && (k < |t| ==> Is(t[k], m))
    ensures forall j :: i <= j < k ==> !Is(t[j], m)
    decreases |t| - i
  {
    if i == |t| || Is(t[i], m) then i else Find(t, m, i + 1)
  }

  function FirstFree(t: Table, i: nat): (k: nat)
    requires i <= |t|
    ensures i <= k <= |t| && (k < |t| ==> !t[k].inUse)
    ensures forall j :: i <= j < k ==> t[j].inUse
    decreases |t| - i
  {
    if i == |t| || !t[i].inUse then i else FirstFree(t, i + 1)
  }

  /** Among the first `n` entries: the idle one seen least recently, the earliest such; -1 when none is idle. */
  function Victim(t: Table, n: nat): (v: int)
    requires n <= |t|
    ensures -1 <= v < n
    ensures v == -1 ==> forall j :: 0 <= j < n ==> t[j].active != 0
    ensures v != -1 ==> t[v].active == 0 && forall j :: 0 <= j < n && t[j].active == 0 ==> t[v].lastSeen <= t[j].lastSeen
    ensures v != -1 ==> forall j :: 0 <= j < v && t[j].active == 0 ==> t[v].lastSeen < t[j].lastSeen
  {
    if n == 0 then -1
    else
      var v := Victim(t, n - 1);
      if t[n - 1].active == 0 && (v == -1 || t[n - 1].lastSeen < t[v].lastSeen) then n - 1 else v
  }

  function FindSession(ss: seq<Session>, c: Uid, i: nat): (k: nat)
    requires i <= |ss|
    ensures i <= k <= |ss| && (k < |ss| ==> Live(ss[k], c))
    ensures forall j :: i <= j < k ==> !Live(ss[j], c)
    decreases |ss| - i
  {
    if i == |ss| || Live(ss[i], c) then i else FindSession(ss, c, i + 1)
  }

  function FreeSession(ss: seq<Session>, i: nat): (k: nat)
    requires i <= |ss|
    ensures i <= k <= |ss| && (k < |ss| ==> !ss[k].inUse)
    ensures forall j :: i <= j < k ==> ss[j].inUse
    decreases |ss| - i
  {
    if i == |ss| || !ss[i].inUse then i else FreeSession(ss, i + 1)
  }

  // ------------------------------------------------------------------
  // One machine
  // ------------------------------------------------------------------

  function Greeted(mc: Machine, mode: Mode, now: int): Machine {
    mc.(mode := mode, lastSeen := now, connections := mc.connections + 1)
  }

  predicate Tracks(mc: Machine, c: Uid) { FindSession(mc.sessions, c, 0) < |mc.sessions| }

  predicate HasRoom(mc: Machine) { FreeSession(mc.sessions, 0) < |mc.sessions| }

  function Opened(mc: Machine, id: Identity, k: nat, now: int): Machine
    requires k < |mc.sessions|
  {
    mc.(sessions := mc.sessions[k := Session(true, id.client, id.mode, now, 0, 0)],
        active := mc.active + 1,
        search := if id.mode == Search then mc.search + 1 else mc.search,
        prune := if id.mode == Search then mc.prune else mc.prune + 1)
  }

  function Refreshed(mc: Machine, k: nat, now: int): Machine
    requires k < |mc.sessions|
  {
    mc.(sessions := mc.sessions[k := mc.sessions[k].(connectTime := now)])
  }

  /** A hello: refresh the session if it is already tracked, else open one, else (no room) only note the visit. */
  function Hello(mc: Machine, id: Identity, now: int): Machine {
    var g := Greeted(mc, id.mode, now);
    var k := FindSession(mc.sessions, id.client, 0);
    if k < |mc.sessions| then Refreshed(g, k, now)
    else if HasRoom(mc) then Opened(g, id, FreeSession(mc.sessions, 0), now)
    else g
  }

  function Add64(a: Word, b: Word): Word { (a + b) % WORD }

  function Gain(last: Word, value: Word): Word { if value >= last then value - last else 0 }

  function Raise(last: Word, value: Word): Word { if value >= last then value else last }

  function Counted(mc: Machine, k: nat, st: Stats): Machine
    requires k < |mc.sessions|
  {
    var s := mc.sessions[k];
    mc.(checked := Add64(mc.checked, Gain(s.checked, st.checked)),
        removed := Add64(mc.removed, Gain(s.removed, st.removed)),
        sessions := mc.sessions[k := s.(checked := Raise(s.checked, st.checked), removed := Raise(s.removed, st.removed))])
  }

  /** A report: the growth since the session's previous report, the best result, the last sign of life. */
  function Reported(mc: Machine, c: Uid, st: Stats, now: int): Machine {
    var k := FindSession(mc.sessions, c, 0);
    var counted := if k < |mc.sessions| then Counted(mc, k, st) else mc;
    counted.(best := Raise(mc.best, st.maxResult), lastSeen := now)
  }

  function Closed(mc: Machine, k: nat, now: int): Machine
    requires k < |mc.sessions|
  {
    var s := mc.sessions[k];
    mc.(uptime := if now > s.connectTime then Add64(mc.uptime, (now - s.connectTime) % WORD) else mc.uptime,
        sessions := mc.sessions[k := s.(inUse := false)],
        active := mc.active - 1,
        search := if s.mode == Search then mc.search - 1 else mc.search,
        prune := if s.mode == Search then mc.prune else mc.prune - 1)
  }

  function Bye(mc: Machine, c: Uid, now: int): Machine {
    var k := FindSession(mc.sessions, c, 0);
    (if k < |mc.sessions| then Closed(mc, k, now) else mc).(lastSeen := now)
  }

  /** A record read back for a machine already present is added to it. */
  function Merged(mc: Machine, rec: Record): Machine {
    mc.(connections := mc.connections + rec.connections,
        firstSeen := if mc.firstSeen == 0 || rec.firstSeen < mc.firstSeen then rec.firstSeen else mc.firstSeen,
        lastSeen := if rec.lastSeen > mc.lastSeen then rec.lastSeen else mc.lastSeen,
        checked := Add64(mc.checked, rec.checked),
        removed := Add64(mc.removed, rec.removed),
        best := Raise(mc.best, rec.best),
        uptime := Add64(mc.uptime, rec.uptime))
  }

  /** A machine seen for the first time. */
  function Arrived(m: Uid, now: int): Machine { Blank().(inUse := true, uid := m, firstSeen := now) }

  function Restored(rec: Record): Machine {
    Blank().(inUse := true, uid := rec.uid, mode := rec.mode, connections := rec.connections,
           firstSeen := rec.firstSeen, lastSeen := rec.lastSeen,
           checked := rec.checked, removed := rec.removed, best := rec.best, uptime := rec.uptime)
  }

  function RecordOf(mc: Machine): Record {
    Record(mc.uid, mc.mode, mc.connections, mc.firstSeen, mc.lastSeen, mc.checked, mc.removed, mc.best, mc.uptime)
  }

  // ------------------------------------------------------------------
  // The table
  // ------------------------------------------------------------------

  datatype Event =
    | EvHello(id: Identity, now: int)
    | EvStats(machine: Uid, client: Uid, stats: Stats, now: int)
    | EvBye(machine: Uid, client: Uid, now: int)
    | EvLoad(rec: Record)

  function About(e: Event): Uid {
    match e
    case EvHello(id, _) => id.machine
    case EvStats(m, _, _, _) => m
    case EvBye(m, _, _) => m
    case EvLoad(rec) => rec.uid
  }

  /** Where a machine without an entry goes: a free entry, else the victim; -1 when every entry is connected. */
  function Slot(t: Table): (k: int)
    ensures -1 <= k < |t|
  {
    var free := FirstFree(t, 0);
    if free < |t| then free else Victim(t, |t|)
  }

  function OnKnown(mc: Machine, e: Event): Machine {
    match e
    case EvHello(id, now) => Hello(mc, id, now)
    case EvStats(_, c, st, now) => Reported(mc, c, st, now)
    case EvBye(_, c, now) => Bye(mc, c, now)
    case EvLoad(rec) => Merged(mc, rec)
  }

  function Newcomer(e: Event): Machine
    requires e.EvHello? || e.EvLoad?
  {
    match e
    case EvHello(id, now) => Hello(Arrived(id.machine, now), id, now)
    case EvLoad(rec) => Restored(rec)
  }

  /** The table after one event. */
  function Step(t: Table, e: Event): Table {
    var k := Find(t, About(e), 0);
    if k < |t| then t[k := OnKnown(t[k], e)]
    else if (e.EvHello? || e.EvLoad?) && Slot(t) != -1 then t[Slot(t) := Newcomer(e)]
    else t
  }

  /** Whether the event raises the mutation counter. */
  predicate Noted(t: Table, e: Event) {
    var k := Find(t, About(e), 0);
    match e
    case EvHello(id, _) => if k < |t| then Tracks(t[k], id.client) || HasRoom(t[k]) else Slot(t) != -1
    case EvLoad(_) => false
    case _ => k < |t|
  }

  function After(events: seq<Event>): Table {
    if events == [] then Empty() else Step(After(events[..|events| - 1]), events[|events| - 1])
  }

  // ------------------------------------------------------------------
  // What every state keeps
  // ------------------------------------------------------------------

  function InUse(ss: seq<Session>, n: nat): nat
    requires n <= |ss|
  {
    if n == 0 then 0 else InUse(ss, n - 1) + if ss[n - 1].inUse then 1 else 0
  }

  function InMode(ss: seq<Session>, n: nat): nat
    requires n <= |ss|
  {
    if n == 0 then 0 else InMode(ss, n - 1) + if ss[n - 1].inUse && ss[n - 1].mode == Search then 1 else 0
  }

  predicate UniqueClients(ss: seq<Session>) {
    forall i, j :: 0 <= i < j < |ss| && ss[i].inUse && ss[j].inUse ==> ss[i].client != ss[j].client
  }

  /** The counters are the numbers of sessions in use, by role, and no client has two sessions. */
  predicate MachineOk(mc: Machine) {
    && |mc.sessions| == MAX_SESSIONS
    && UniqueClients(mc.sessions)
    && mc.active == InUse(mc.sessions, MAX_SESSIONS)
    && mc.search == InMode(mc.sessions, MAX_SESSIONS)
    && mc.search + mc.prune == mc.active
  }

  predicate TableOk(t: Table) {
    && |t| == MAX_KNOWN_CLIENTS
    && (forall i :: 0 <= i < |t| ==> MachineOk(t[i]) && (!t[i].inUse ==> t[i] == Blank()))
    && (forall i, j :: 0 <= i < j < |t| && t[i].inUse && t[j].inUse ==> t[i].uid != t[j].uid)
  }

  lemma {:induction false} InUseUpdate(ss: seq<Session>, k: nat, s: Session, n: nat)
    requires k < |ss| && n <= |ss|
    ensures InUse(ss[k := s], n) == InUse(ss, n) + if k < n then (if s.inUse then 1 else 0) - (if ss[k].inUse then 1 else 0) else 0
    ensures InMode(ss[k := s], n) == InMode(ss, n) +
      if k < n then (if s.inUse && s.mode == Search then 1 else 0) - (if ss[k].inUse && ss[k].mode == Search then 1 else 0) else 0
  {
    if n > 0 {
      InUseUpdate(ss, k, s, n - 1);
    }
  }

  lemma {:induction false} NoneInUse(ss: seq<Session>, n: nat)
    requires n <= |ss| && InUse(ss, n) == 0
    ensures forall i :: 0 <= i < n ==> !ss[i].inUse
  {
    if n > 0 {
      NoneInUse(ss, n - 1);
    }
  }

  lemma {:induction false} NoneCounted(ss: seq<Session>, n: nat)
    requires n <= |ss| && forall k :: 0 <= k < |ss| ==> !ss[k].inUse
    ensures InUse(ss, n) == 0 && InMode(ss, n) == 0
  {
    if n > 0 {
      NoneCounted(ss, n - 1);
    }
  }

  lemma UnusedOk(mc: Machine)
    requires mc.sessions == NoSessions() && mc.active == 0 && mc.search == 0 && mc.prune == 0
    ensures MachineOk(mc)
  {
    var ss := mc.sessions;
    assert forall k :: 0 <= k < |ss| ==> !ss[k].inUse;
    NoneCounted(ss, MAX_SESSIONS);
  }

  lemma HelloOk(mc: Machine, id: Identity, now: int)
    requires MachineOk(mc)
    ensures MachineOk(Hello(mc, id, now))
  {
    var k := FindSession(mc.sessions, id.client, 0);
    if k < |mc.sessions| {
      InUseUpdate(mc.sessions, k, mc.sessions[k].(connectTime := now), MAX_SESSIONS);
    } else if HasRoom(mc) {
      InUseUpdate(mc.sessions, FreeSession(mc.sessions, 0), Session(true, id.client, id.mode, now, 0, 0), MAX_SESSIONS);
    }
  }

  lemma ReportedOk(mc: Machine, c: Uid, st: Stats, now: int)
    requires MachineOk(mc)
    ensures MachineOk(Reported(mc, c, st, now))
  {
    var k := FindSession(mc.sessions, c, 0);
    if k < |mc.sessions| {
      var s := mc.sessions[k];
      InUseUpdate(mc.sessions, k, s.(checked := Raise(s.checked, st.checked), removed := Raise(s.removed, st.removed)), MAX_SESSIONS);
    }
  }

  lemma ByeOk(mc: Machine, c: Uid, now: int)
    requires MachineOk(mc)
    ensures MachineOk(Bye(mc, c, now))
  {
    var k := FindSession(mc.sessions, c, 0);
    if k < |mc.sessions| {
      InUseUpdate(mc.sessions, k, mc.sessions[k].(inUse := false), MAX_SESSIONS);
    }
  }

  lemma KnownOk(mc: Machine, e: Event)
    requires MachineOk(mc)
    ensures MachineOk(OnKnown(mc, e)) && OnKnown(mc, e).inUse == mc.inUse && OnKnown(mc, e).uid == mc.uid
  {
    match e
    case EvHello(id, now) => HelloOk(mc, id, now);
    case EvStats(_, c, st, now) => ReportedOk(mc, c, st, now);
    case EvBye(_, c, now) => ByeOk(mc, c, now);
    case EvLoad(rec) =>
  }

  lemma NewcomerOk(e: Event)
    requires e.EvHello? || e.EvLoad?
    ensures MachineOk(Newcomer(e)) && Newcomer(e).inUse && Newcomer(e).uid == About(e)
  {
    match e
    case EvHello(id, now) =>
      UnusedOk(Arrived(id.machine, now));
      HelloOk(Arrived(id.machine, now), id, now);
    case EvLoad(rec) =>
      UnusedOk(Restored(rec));
  }

  lemma Placed(t: Table, k: nat, mc: Machine)
    requires TableOk(t) && k < |t| && MachineOk(mc) && mc.inUse
    requires forall j :: 0 <= j < |t| && j != k && t[j].inUse ==> t[j].uid != mc.uid
    ensures TableOk(t[k := mc])
  {
  }

  /** One event keeps the table well formed. */
  lemma StepOk(t: Table, e: Event)
    requires TableOk(t)
    ensures TableOk(Step(t, e))
  {
    var k := Find(t, About(e), 0);
    if k < |t| {
      KnownOk(t[k], e);
      Placed(t, k, OnKnown(t[k], e));
    } else if (e.EvHello? || e.EvLoad?) && Slot(t) != -1 {
      NewcomerOk(e);
      Placed(t, Slot(t), Newcomer(e));
    }
  }

  lemma BlankOk(mc: Machine)
    requires mc == Blank()
    ensures MachineOk(mc) && !mc.inUse
  {
    UnusedOk(mc);
  }

  lemma AllUnusedOk(t: Table, mc: Machine)
    requires |t| == MAX_KNOWN_CLIENTS && (forall i :: 0 <= i < |t| ==> t[i] == mc) && mc == Blank() && MachineOk(mc) && !mc.inUse
    ensures TableOk(t)
  {
  }

  /** A table of blank entries, however it was made. */
  lemma EmptyOk(t: Table, mc: Machine)
    requires |t| == MAX_KNOWN_CLIENTS && (forall i :: 0 <= i < |t| ==> t[i] == mc) && mc == Blank()
    ensures TableOk(t)
  {
    BlankOk(mc);
    AllUnusedOk(t, mc);
  }

  /** In every reachable state the table is well formed. */
  lemma {:induction false} RunOk(events: seq<Event>)
    ensures TableOk(After(events))
    decreases |events|
  {
    if events == [] {
      EmptyOk(After(events), Blank());
    } else {
      RunOk(events[..|events| - 1]);
      StepOk(After(events[..|events| - 1]), events[|events| - 1]);
    }
  }

  predicate Known(t: Table, m: Uid) { Find(t, m, 0) < |t| }

  function Entry(t: Table, m: Uid): Machine
    requires Known(t, m)
  {
    t[Find(t, m, 0)]
  }

  lemma FoundAt(t: Table, m: Uid, at: nat)
    requires TableOk(t) && at < |t| && Is(t[at], m)
    ensures Find(t, m, 0) == at
  {
  }

  lemma NotAt(t: Table, m: Uid, at: nat)
    requires TableOk(t) && at < |t| && at != Find(t, m, 0)
    ensures !Is(t[at], m)
  {
    if Is(t[at], m) {
      FoundAt(t, m, at);
    }
  }

  predicate Evicts(t: Table, e: Event, m: Uid) {
    (e.EvHello? || e.EvLoad?) && !Known(t, About(e)) && Slot(t) != -1 && Slot(t) == Find(t, m, 0)
  }

  lemma StillKnown(t: Table, e: Event, m: Uid)
    requires TableOk(t) && Known(t, m) && !Evicts(t, e, m)
    ensures Known(Step(t, e), m) && Find(Step(t, e), m, 0) == Find(t, m, 0)
  {
    StepOk(t, e);
    var k, at := Find(t, About(e), 0), Find(t, m, 0);
    var after := Step(t, e);
    if k < |t| {
      KnownOk(t[k], e);
    }
    assert Is(after[at], m);
    FoundAt(after, m, at);
  }

  /**
   A machine leaves the table only to make room in a full table, and only if it has no session in use;
   it is then the idle machine seen least recently.
   */
  lemma OnlyIdleEvicted(t: Table, e: Event, m: Uid)
    requires TableOk(t) && Known(t, m) && !Known(Step(t, e), m)
    ensures (e.EvHello? || e.EvLoad?) && !Known(t, About(e))
    ensures forall i :: 0 <= i < |t| ==> t[i].inUse
    ensures forall k :: 0 <= k < MAX_SESSIONS ==> !Entry(t, m).sessions[k].inUse
    ensures forall i :: 0 <= i < |t| && t[i].active == 0 ==> Entry(t, m).lastSeen <= t[i].lastSeen
  {
    if !Evicts(t, e, m) {
      StillKnown(t, e, m);
    }
    NoneInUse(Entry(t, m).sessions, MAX_SESSIONS);
  }

  /** A machine that says hello or is loaded is in the table afterwards unless every entry is connected; others do not enter it. */
  lemma AdmittedExact(t: Table, e: Event)
    requires TableOk(t)
    ensures Known(Step(t, e), About(e)) <==>
      Known(t, About(e)) || ((e.EvHello? || e.EvLoad?) && exists i :: 0 <= i < |t| && (!t[i].inUse || t[i].active == 0))
  {
    var m, after := About(e), Step(t, e);
    if Known(t, m) {
      StillKnown(t, e, m);
    } else if e.EvHello? || e.EvLoad? {
      NewcomerOk(e);
      if Slot(t) != -1 {
        StepOk(t, e);
        assert Is(after[Slot(t)], m);
        FoundAt(after, m, Slot(t));
        assert !t[Slot(t)].inUse || t[Slot(t)].active == 0;
      }
    }
  }

  /**
   The counter of mutations misses exactly one kind of change: a hello from a known machine whose sessions are
   all taken by other clients still counts the connection and moves the last sign of life.
   */
  lemma UnnotedChange(t: Table, e: Event)
    requires TableOk(t) && !e.EvLoad?
    ensures Step(t, e) != t && !Noted(t, e) <==>
            e.EvHello? && Known(t, About(e)) && !Tracks(Entry(t, About(e)), e.id.client) && !HasRoom(Entry(t, About(e)))
  {
    var k := Find(t, About(e), 0);
    if e.EvHello? && k < |t| && !Tracks(t[k], e.id.client) && !HasRoom(t[k]) {
      assert Step(t, e)[k].connections == t[k].connections + 1;
    }
  }

  /** It counts nothing but hellos that leave their client tracked, and reports and ends of known machines. */
  lemma NotedMeans(t: Table, e: Event)
    requires TableOk(t) && Noted(t, e)
    ensures !e.EvLoad? && Known(Step(t, e), About(e))
    ensures if e.EvHello? then Tracks(Entry(Step(t, e), About(e)), e.id.client) else Known(t, About(e))
  {
    if Known(t, About(e)) {
      StillKnown(t, e, About(e));
      if e.EvHello? {
        HelloTracks(Entry(t, About(e)), e.id, e.now);
      }
    } else {
      NewcomerOk(e);
      StepOk(t, e);
      FoundAt(Step(t, e), About(e), Slot(t));
      HelloTracks(Arrived(About(e), e.now), e.id, e.now);
      assert !Arrived(About(e), e.now).sessions[0].inUse;
    }
  }

  lemma HelloTracks(mc: Machine, id: Identity, now: int)
    requires Tracks(mc, id.client) || HasRoom(mc)
    ensures Tracks(Hello(mc, id, now), id.client)
  {
    var k := if Tracks(mc, id.client) then FindSession(mc.sessions, id.client, 0) else FreeSession(mc.sessions, 0);
    assert Live(Hello(mc, id, now).sessions[k], id.client);
  }

  /** Client after client of one machine says hello. */
  function Visit(m: Uid, n: nat): Event { EvHello(Identity(m, n, Search), 0) }

  function Visits(m: Uid, n: nat): seq<Event> {
    if n == 0 then [] else Visits(m, n - 1) + [Visit(m, n)]
  }

  /** The first `n` places are taken by the clients 1 to `n`, the others are free. */
  predicate Seated(ss: seq<Session>, n: nat) {
    && |ss| == MAX_SESSIONS && n <= MAX_SESSIONS
    && forall k :: 0 <= k < MAX_SESSIONS ==> ss[k].inUse == (k < n) && (k < n ==> ss[k].client == k + 1)
  }

  lemma SeatedNext(mc: Machine, m: Uid, n: nat)
    requires Seated(mc.sessions, n) && n < MAX_SESSIONS
    ensures Seated(Hello(mc, Identity(m, n + 1, Search), 0).sessions, n + 1)
  {
    assert FindSession(mc.sessions, n + 1, 0) == MAX_SESSIONS;
    assert !mc.sessions[n].inUse;
    assert FreeSession(mc.sessions, 0) == n;
  }

  lemma FirstVisit(t: Table, m: Uid, mc: Machine)
    requires TableOk(t) && mc == Arrived(m, 0) && forall i :: 0 <= i < |t| ==> !t[i].inUse
    ensures var after := Step(t, Visit(m, 1)); Known(after, m) && Seated(Entry(after, m).sessions, 1)
  {
    var e := Visit(m, 1);
    assert Slot(t) == 0;
    assert Seated(mc.sessions, 0);
    SeatedNext(mc, m, 0);
    StepOk(t, e);
    NewcomerOk(e);
    FoundAt(Step(t, e), m, 0);
  }

  lemma NextVisit(t: Table, m: Uid, n: nat)
    requires TableOk(t) && Known(t, m) && Seated(Entry(t, m).sessions, n) && n < MAX_SESSIONS
    ensures var after := Step(t, Visit(m, n + 1)); Known(after, m) && Seated(Entry(after, m).sessions, n + 1)
  {
    StillKnown(t, Visit(m, n + 1), m);
    SeatedNext(Entry(t, m), m, n);
  }

  lemma EmptyUnused(t: Table, mc: Machine)
    requires t == Empty() && mc == Blank()
    ensures forall i :: 0 <= i < |t| ==> !t[i].inUse
  {
    assert !mc.inUse;
  }

  lemma FirstSeats(m: Uid, t: Table)
    requires t == Empty() && TableOk(t)
    ensures var after := Step(t, Visit(m, 1)); Known(after, m) && Seated(Entry(after, m).sessions, 1)
  {
    EmptyUnused(t, Blank());
    FirstVisit(t, m, Arrived(m, 0));
  }

  lemma {:induction false} VisitsSeat(m: Uid, events: seq<Event>, n: nat)
    requires events == Visits(m, n) && 0 < n <= MAX_SESSIONS
    ensures Known(After(events), m) && Seated(Entry(After(events), m).sessions, n)
    decreases n
  {
    var before := Visits(m, n - 1);
    assert events[..|events| - 1] == before && events[|events| - 1] == Visit(m, n);
    RunOk(before);
    if n == 1 {
      FirstSeats(m, After(before));
    } else {
      VisitsSeat(m, before, n - 1);
      NextVisit(After(before), m, n - 1);
    }
  }

  /** A reachable register in which a change goes unnoted: the ninth client of a machine says hello. */
  lemma UnnotedReached(m: Uid, events: seq<Event>)
    requires events == Visits(m, MAX_SESSIONS)
    ensures var t, e := After(events), Visit(m, MAX_SESSIONS + 1); Step(t, e) != t && !Noted(t, e)
  {
    VisitsSeat(m, events, MAX_SESSIONS);
    RunOk(events);
    UnnotedWhenSeated(After(events), m);
  }

  lemma UnnotedWhenSeated(t: Table, m: Uid)
    requires TableOk(t) && Known(t, m) && Seated(Entry(t, m).sessions, MAX_SESSIONS)
    ensures var e := Visit(m, MAX_SESSIONS + 1); Step(t, e) != t && !Noted(t, e)
  {
    assert FindSession(Entry(t, m).sessions, MAX_SESSIONS + 1, 0) == MAX_SESSIONS;
    UnnotedChange(t, Visit(m, MAX_SESSIONS + 1));
  }

  /** A report from a client that is not tracked adds to no total, but still counts as activity of its machine. */
  lemma UntrackedReport(t: Table, m: Uid, c: Uid, st: Stats, now: int)
    requires TableOk(t) && Known(t, m) && !Tracks(Entry(t, m), c)
    ensures var e := EvStats(m, c, st, now);
            && Noted(t, e) && Known(Step(t, e), m)
            && Entry(Step(t, e), m) == Entry(t, m).(best := Raise(Entry(t, m).best, st.maxResult), lastSeen := now)
  {
    StillKnown(t, EvStats(m, c, st, now), m);
  }

  /** A report that finds no session leaves the register alone, as documented, exactly when it finds no machine either. */
  lemma UntrackedReportExact(t: Table, m: Uid, c: Uid, st: Stats, now: int)
    requires TableOk(t) && (Known(t, m) ==> !Tracks(Entry(t, m), c))
    ensures var e := EvStats(m, c, st, now); (Step(t, e) == t && !Noted(t, e)) <==> !Known(t, m)
  {
    if Known(t, m) {
      UntrackedReport(t, m, c, st, now);
    }
  }

  /** A reachable register in which such a report is not a no-op: one client said hello, another one reports. */
  lemma UntrackedReached(m: Uid, events: seq<Event>, st: Stats, now: int)
    requires events == Visits(m, 1)
    ensures var t, e := After(events), EvStats(m, 2, st, now);
            && TableOk(t) && Known(t, m) && !Tracks(Entry(t, m), 2) && Noted(t, e)
            && Known(Step(t, e), m) && Entry(Step(t, e), m).lastSeen == now
  {
    VisitsSeat(m, events, 1);
    RunOk(events);
    var t := After(events);
    assert FindSession(Entry(t, m).sessions, 2, 0) == MAX_SESSIONS;
    UntrackedReport(t, m, 2, st, now);
  }

  /** Only the connection time of the client's own session moved; counts and totals are as they were. */
  predicate OnlyRefreshed(before: Machine, after: Machine, c: Uid, now: int) {
    && after.active == before.active && after.checked == before.checked && after.removed == before.removed
    && |after.sessions| == |before.sessions|
    && forall k :: 0 <= k < |after.sessions| ==>
         after.sessions[k] == if Live(before.sessions[k], c) then before.sessions[k].(connectTime := now) else before.sessions[k]
  }

  lemma HelloRefreshes(mc: Machine, id: Identity, now: int)
    requires MachineOk(mc) && Tracks(mc, id.client)
    ensures OnlyRefreshed(mc, Hello(mc, id, now), id.client, now)
  {
    var k := FindSession(mc.sessions, id.client, 0);
    forall j | 0 <= j < |mc.sessions| && Live(mc.sessions[j], id.client) ensures j == k {}
  }

  /** A replayed hello opens no second session and leaves every counting base and total as it was. */
  lemma ReplayedHello(t: Table, id: Identity, now: int)
    requires TableOk(t) && Known(t, id.machine) && Tracks(Entry(t, id.machine), id.client)
    ensures Known(Step(t, EvHello(id, now)), id.machine)
    ensures OnlyRefreshed(Entry(t, id.machine), Entry(Step(t, EvHello(id, now)), id.machine), id.client, now)
  {
    StillKnown(t, EvHello(id, now), id.machine);
    HelloRefreshes(Entry(t, id.machine), id, now);
  }
}
