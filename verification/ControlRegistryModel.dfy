/**
 The register of live control sessions (`src/app/control_registry.c`): a bounded ring of pending commands per
 session, session numbers, the pause state wanted for the fleet, and the dosage wanted per machine.
 This module says what each operation does; `ControlRegistryRuns` follows whole runs.
 */
module ControlRegistryModel {
  import opened Decimals

  const MAX_SESSIONS: nat := 64
  const MAX_ROLES: nat := 4 * MAX_SESSIONS
  const QUEUE_CAP: nat := 16
  const LINE_MAX: nat := 256
  const CTRL_COMMAND: nat := 5

  type Uid = nat

  datatype Pending = Pending(cmd: nat, line: string)

  datatype Session = Session(inUse: bool, no: nat, machine: Uid, client: Uid, name: string,
                             queue: seq<Pending>, head: nat, count: nat)

  datatype Role = Role(inUse: bool, machine: Uid, forks: int)

  datatype State = State(sessions: seq<Session>, nextNo: nat, paused: bool, roles: seq<Role>)

  /** What an operator may write to designate a session; -1 when the text cannot be read as a number or nonce. */
  datatype Target = Target(no: int, client: int, name: string)

  // ------------------------------------------------------------------
  // Command lines
  // ------------------------------------------------------------------

  /** A line as stored: at most 255 characters. */
  function Bounded(line: string): (b: string)
    ensures b <= line && (|line| < LINE_MAX ==> b == line) && (|line| >= LINE_MAX ==> |b| == 255)
  {
    if |line| >= LINE_MAX then line[..LINE_MAX - 1] else line
  }

  predicate FirstWordIs(line: string, word: string) {
    |word| <= |line| && line[..|word|] == word && (|line| == |word| || line[|word|] == ' ')
  }

  /** The word alone, or the word, a blank and anything: a longer word that begins alike does not count. */
  lemma FirstWordExact(line: string, word: string)
    ensures FirstWordIs(line, word) <==> line == word || exists rest: string :: line == word + " " + rest
  {
    if FirstWordIs(line, word) && line != word {
      assert line == line[..|word|] + line[|word|..] && line[|word|..] == " " + line[|word| + 1..];
      assert line == word + " " + line[|word| + 1..];
    }
  }

  predicate Pauses(p: Pending) { p.cmd == CTRL_COMMAND && FirstWordIs(p.line, "pause") }

  predicate Resumes(p: Pending) { p.cmd == CTRL_COMMAND && FirstWordIs(p.line, "resume") }

  predicate Switches(p: Pending) { Pauses(p) || Resumes(p) }

  function Stored(p: Pending): (q: Pending)
    ensures q.cmd == p.cmd && q.line <= p.line && (|p.line| <= 255 ==> q == p) && (|p.line| > 255 ==> |q.line| == 255)
  {
    p.(line := Bounded(p.line))
  }

  /** Truncation never hides a pause or a resume. */
  lemma StoredSwitches(p: Pending)
    ensures Pauses(Stored(p)) == Pauses(p) && Resumes(Stored(p)) == Resumes(p)
  {
    if |p.line| >= LINE_MAX {
      assert Bounded(p.line)[..5] == p.line[..5] && Bounded(p.line)[..6] == p.line[..6];
    }
  }

  function Command(line: string): Pending { Pending(CTRL_COMMAND, line) }

  function ConfigLine(forks: int): string { "config pruner_forks " + Show(forks) }

  function Dosage(forks: int): (ps: seq<Pending>)
    ensures |ps| == 2
  {
    [Command(ConfigLine(forks)), Command("configApply")]
  }

  lemma DosageNoSwitch(forks: int)
    ensures !Switches(Dosage(forks)[0]) && !Switches(Dosage(forks)[1])
    ensures !Switches(Stored(Dosage(forks)[0])) && !Switches(Stored(Dosage(forks)[1]))
  {
    StoredSwitches(Dosage(forks)[0]);
    StoredSwitches(Dosage(forks)[1]);
    var line := ConfigLine(forks);
    assert line[0] == 'c' && "configApply"[0] == 'c';
    assert line[..5][0] == 'c' && line[..6][0] == 'c';
    assert "configApply"[..5][0] == 'c' && "configApply"[..6][0] == 'c';
  }

  // ------------------------------------------------------------------
  // The ring
  // ------------------------------------------------------------------

  predicate RingOk(s: Session) {
    |s.queue| == QUEUE_CAP && s.head < QUEUE_CAP && s.count <= QUEUE_CAP && (!s.inUse ==> s.count == 0)
  }

  /** The commands waiting, in the order they were posted. */
  function Waiting(s: Session): (w: seq<Pending>)
    requires RingOk(s)
    ensures |w| == s.count
  {
    seq(s.count, i requires 0 <= i < s.count => s.queue[(s.head + i) % QUEUE_CAP])
  }

  predicate Accepts(s: Session) { s.inUse && s.count < QUEUE_CAP }

  function Push(s: Session, p: Pending): Session
    requires RingOk(s)
  {
    if Accepts(s) then s.(queue := s.queue[(s.head + s.count) % QUEUE_CAP := Stored(p)], count := s.count + 1) else s
  }

  function Pop(s: Session): Session
    requires RingOk(s) && s.count > 0
  {
    s.(head := (s.head + 1) % QUEUE_CAP, count := s.count - 1)
  }

  lemma OtherSlot(head: nat, i: nat, count: nat)
    requires head < QUEUE_CAP && i < count < QUEUE_CAP
    ensures (head + i) % QUEUE_CAP != (head + count) % QUEUE_CAP
  {
  }

  /** Posting appends at the end, and is refused exactly when the session is gone or 16 commands wait. */
  lemma PushIsAppend(s: Session, p: Pending)
    requires RingOk(s)
    ensures RingOk(Push(s, p))
    ensures Waiting(Push(s, p)) == Waiting(s) + if Accepts(s) then [Stored(p)] else []
  {
    if Accepts(s) {
      var t := Push(s, p);
      forall i | 0 <= i < s.count ensures Waiting(t)[i] == Waiting(s)[i] {
        OtherSlot(s.head, i, s.count);
      }
      assert Waiting(t)[s.count] == Stored(p);
    }
  }

  /** Taking a command takes the oldest one and leaves the rest in order. */
  lemma PopIsTail(s: Session)
    requires RingOk(s) && s.count > 0
    ensures RingOk(Pop(s)) && Waiting(s) == [s.queue[s.head]] + Waiting(Pop(s))
  {
    forall i | 0 <= i < Pop(s).count ensures Waiting(Pop(s))[i] == Waiting(s)[i + 1] {
      PopAt(s, i);
    }
    assert Waiting(s)[0] == s.queue[s.head];
  }

  lemma PopAt(s: Session, i: nat)
    requires RingOk(s) && i + 1 < s.count
    ensures RingOk(Pop(s)) && Waiting(Pop(s))[i] == Waiting(s)[i + 1]
  {
    NextSlot(s.head, i);
  }

  lemma NextSlot(head: nat, i: nat)
    requires head < QUEUE_CAP && i < QUEUE_CAP
    ensures ((head + 1) % QUEUE_CAP + i) % QUEUE_CAP == (head + (i + 1)) % QUEUE_CAP
  {
  }

  function PushAll(s: Session, ps: seq<Pending>): (t: Session)
    requires RingOk(s)
    ensures RingOk(t)
    decreases |ps|
  {
    if ps == [] then s
    else
      assert RingOk(Push(s, ps[0]));
      PushAll(Push(s, ps[0]), ps[1..])
  }

  // ------------------------------------------------------------------
  // Tables
  // ------------------------------------------------------------------

  function FreeSession(ss: seq<Session>, i: nat): (k: nat)
    requires i <= |ss|
    ensures i <= k <= |ss| && (k < |ss| ==> !ss[k].inUse)
    ensures forall j :: i <= j < k ==> ss[j].inUse
    decreases |ss| - i
  {
    if i == |ss| || !ss[i].inUse then i else FreeSession(ss, i + 1)
  }

  predicate Hit(s: Session, tg: Target) {
    s.inUse && (tg.no == s.no || tg.client == s.client || tg.name == s.name)
  }

  function Hits(ss: seq<Session>, tg: Target, n: nat): nat
    requires n <= |ss|
  {
    if n == 0 then 0 else Hits(ss, tg, n - 1) + if Hit(ss[n - 1], tg) then 1 else 0
  }

  function FirstHit(ss: seq<Session>, tg: Target, i: nat): (k: nat)
    requires i <= |ss|
    ensures i <= k <= |ss| && (k < |ss| ==> Hit(ss[k], tg))
    ensures forall j :: i <= j < k ==> !Hit(ss[j], tg)
    decreases |ss| - i
  {
    if i == |ss| || Hit(ss[i], tg) then i else FirstHit(ss, tg, i + 1)
  }

  lemma {:induction false} SomeHit(ss: seq<Session>, tg: Target, n: nat)
    requires n <= |ss| && Hits(ss, tg, n) > 0
    ensures FirstHit(ss, tg, 0) < n
  {
    if !Hit(ss[n - 1], tg) {
      SomeHit(ss, tg, n - 1);
    }
  }

  /** The session designated, or -1 when none or several answer. */
  function Matched(ss: seq<Session>, tg: Target): (k: int)
    ensures -1 <= k < |ss|
  {
    if Hits(ss, tg, |ss|) == 1 then
      SomeHit(ss, tg, |ss|);
      FirstHit(ss, tg, 0)
    else -1
  }

  lemma {:induction false} HitsBounds(ss: seq<Session>, tg: Target, n: nat, k: nat)
    requires k < n <= |ss| && Hit(ss[k], tg)
    ensures Hits(ss, tg, n) >= 1
    ensures Hits(ss, tg, n) == 1 ==> forall j :: 0 <= j < n && Hit(ss[j], tg) ==> j == k
    decreases n
  {
    if k == n - 1 {
      forall j | 0 <= j < n - 1 && Hit(ss[j], tg) ensures Hits(ss, tg, n - 1) >= 1 {
        HitsBounds(ss, tg, n - 1, j);
      }
    } else {
      HitsBounds(ss, tg, n - 1, k);
    }
  }

  lemma {:induction false} OneHit(ss: seq<Session>, tg: Target, n: nat, k: nat)
    requires k < |ss| && n <= |ss| && forall j :: 0 <= j < |ss| ==> (Hit(ss[j], tg) <==> j == k)
    ensures Hits(ss, tg, n) == if k < n then 1 else 0
  {
    if n > 0 {
      OneHit(ss, tg, n - 1, k);
    }
  }

  ghost predicate OnlyHit(ss: seq<Session>, tg: Target, k: nat)
    requires k < |ss|
  {
    forall j :: 0 <= j < |ss| ==> (Hit(ss[j], tg) <==> j == k)
  }

  /** A target designates a session exactly when that session is the only one it can mean. */
  lemma MatchedExact(ss: seq<Session>, tg: Target, k: nat)
    requires k < |ss|
    ensures Matched(ss, tg) == k <==> OnlyHit(ss, tg, k)
  {
    if Matched(ss, tg) == k {
      HitsBounds(ss, tg, |ss|, k);
    }
    if OnlyHit(ss, tg, k) {
      OneHit(ss, tg, |ss|, k);
      assert Hit(ss[k], tg);
    }
  }

  function FindRole(rs: seq<Role>, m: Uid, i: nat): (k: nat)
    requires i <= |rs|
    ensures i <= k <= |rs| && (k < |rs| ==> rs[k].inUse && rs[k].machine == m)
    ensures forall j :: i <= j < k ==> !(rs[j].inUse && rs[j].machine == m)
    decreases |rs| - i
  {
    if i == |rs| || (rs[i].inUse && rs[i].machine == m) then i else FindRole(rs, m, i + 1)
  }

  function FreeRole(rs: seq<Role>, i: nat): (k: nat)
    requires i <= |rs|
    ensures i <= k <= |rs| && (k < |rs| ==> !rs[k].inUse)
    ensures forall j :: i <= j < k ==> rs[j].inUse
    decreases |rs| - i
  {
    if i == |rs| || !rs[i].inUse then i else FreeRole(rs, i + 1)
  }

  predicate HasRole(rs: seq<Role>, m: Uid) { FindRole(rs, m, 0) < |rs| }

  function Forks(rs: seq<Role>, m: Uid): int
    requires HasRole(rs, m)
  {
    rs[FindRole(rs, m, 0)].forks
  }

  /** Remember a machine's dosage; a full table silently forgets a machine it does not know. */
  function SetRole(rs: seq<Role>, m: Uid, forks: int): (r: seq<Role>)
    ensures |r| == |rs|
  {
    var k := if HasRole(rs, m) then FindRole(rs, m, 0) else FreeRole(rs, 0);
    if k < |rs| then rs[k := Role(true, m, forks)] else rs
  }

  predicate RolesFull(rs: seq<Role>) { forall i :: 0 <= i < |rs| ==> rs[i].inUse }

  /**
   A machine's dosage is the one set last, unless the table has no entry for it and none free; the dosages of other
   machines stay.
   */
  lemma SetRoleExact(rs: seq<Role>, m: Uid, forks: int, other: Uid)
    ensures HasRole(rs, m) || !RolesFull(rs) ==> HasRole(SetRole(rs, m, forks), m) && Forks(SetRole(rs, m, forks), m) == forks
    ensures !HasRole(rs, m) && RolesFull(rs) ==> SetRole(rs, m, forks) == rs
    ensures other != m ==>
      && (HasRole(SetRole(rs, m, forks), other) <==> HasRole(rs, other))
      && (HasRole(rs, other) ==> Forks(SetRole(rs, m, forks), other) == Forks(rs, other))
    ensures RolesFull(rs) ==> RolesFull(SetRole(rs, m, forks))
  {
    var after := SetRole(rs, m, forks);
    var k := if HasRole(rs, m) then FindRole(rs, m, 0) else FreeRole(rs, 0);
    assert k < |rs| ==> after[k] == Role(true, m, forks);
    if other != m && HasRole(rs, other) {
      assert after[FindRole(rs, other, 0)] == rs[FindRole(rs, other, 0)];
    }
    if other != m && HasRole(after, other) {
      assert after[FindRole(after, other, 0)] == rs[FindRole(after, other, 0)];
    }
  }

  /** The remembered dosages after the sessions before `n` took (or refused) a dosage command pair. */
  function SetRoles(ss: seq<Session>, rs: seq<Role>, forks: int, n: nat): (r: seq<Role>)
    requires n <= |ss|
    ensures |r| == |rs|
  {
    if n == 0 then rs
    else
      var before := SetRoles(ss, rs, forks, n - 1);
      if TakesPair(ss[n - 1]) then SetRole(before, ss[n - 1].machine, forks) else before
  }

  predicate TakesPair(s: Session) { s.inUse && s.count + 2 <= QUEUE_CAP }

  // ------------------------------------------------------------------
  // Operations
  // ------------------------------------------------------------------

  datatype Event =
    | EvRegister(machine: Uid, client: Uid, name: string)
    | EvUnregister(slot: nat)
    | EvBroadcast(p: Pending)
    | EvSend(tg: Target, p: Pending)
    | EvDosageAll(forks: int)
    | EvDosageOne(tg: Target, forks: int)
    | EvTake(slot: nat)

  /** What a new session finds in its queue: the pause if one is wanted, then the dosage wanted for its machine. */
  function Welcome(t: State, m: Uid): seq<Pending> {
    (if t.paused then [Command("pause")] else []) + (if HasRole(t.roles, m) then Dosage(Forks(t.roles, m)) else [])
  }

  function NewSession(t: State, e: Event, slot: Session): Session
    requires e.EvRegister? && |slot.queue| == QUEUE_CAP
  {
    PushAll(Session(true, t.nextNo, e.machine, e.client, e.name, slot.queue, 0, 0), Welcome(t, e.machine))
  }

  /** The commands an event offers to the session in slot `i`. */
  function Offers(t: State, e: Event, i: nat): seq<Pending> {
    match e
    case EvBroadcast(p) => [p]
    case EvSend(tg, p) => if Matched(t.sessions, tg) == i then [p] else []
    case EvDosageAll(forks) => Dosage(forks)
    case EvDosageOne(tg, forks) => if Matched(t.sessions, tg) == i then Dosage(forks) else []
    case _ => []
  }

  predicate SessionsOk(ss: seq<Session>) { |ss| == MAX_SESSIONS && forall i :: 0 <= i < |ss| ==> RingOk(ss[i]) }

  function Offered(t: State, e: Event): (ss: seq<Session>)
    requires SessionsOk(t.sessions)
    ensures SessionsOk(ss) && forall i :: 0 <= i < |ss| ==> ss[i] == PushAll(t.sessions[i], Offers(t, e, i))
  {
    seq(|t.sessions|, i requires 0 <= i < |t.sessions| => PushAll(t.sessions[i], Offers(t, e, i)))
  }

  function Gone(s: Session): Session { s.(inUse := false, head := 0, count := 0) }

  function Wanted(paused: bool, p: Pending): bool { if Pauses(p) then true else if Resumes(p) then false else paused }

  function Step(t: State, e: Event): State
    requires SessionsOk(t.sessions)
  {
    match e
    case EvRegister(_, _, _) =>
      var k := FreeSession(t.sessions, 0);
      if k < |t.sessions| then t.(sessions := t.sessions[k := NewSession(t, e, t.sessions[k])], nextNo := t.nextNo + 1) else t
    case EvUnregister(i) =>
      if i < |t.sessions| then t.(sessions := t.sessions[i := Gone(t.sessions[i])]) else t
    case EvTake(i) =>
      if i < |t.sessions| && t.sessions[i].count > 0 then t.(sessions := t.sessions[i := Pop(t.sessions[i])]) else t
    case EvBroadcast(p) => t.(sessions := Offered(t, e), paused := Wanted(t.paused, p))
    case EvSend(_, _) => t.(sessions := Offered(t, e))
    case EvDosageAll(forks) =>
      t.(sessions := Offered(t, e), roles := SetRoles(t.sessions, t.roles, forks, |t.sessions|))
    case EvDosageOne(tg, forks) =>
      var k := Matched(t.sessions, tg);
      t.(sessions := Offered(t, e),
         roles := if 0 <= k < |t.sessions| && TakesPair(t.sessions[k]) then SetRole(t.roles, t.sessions[k].machine, forks) else t.roles)
  }
}
