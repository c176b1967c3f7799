/**
 The control-session register in place: an array of session slots with their rings, an array of remembered
 dosages, and the operations that update them (`src/app/control_registry.c`).
 */
module ControlRegistry {
  import opened ControlRegistryModel
  import opened ControlRegistryRuns

  function Accepting(ss: seq<Session>, n: nat): nat
    requires n <= |ss|
  {
    if n == 0 then 0 else Accepting(ss, n - 1) + if Accepts(ss[n - 1]) then 1 else 0
  }

  function TakingPair(ss: seq<Session>, n: nat): nat
    requires n <= |ss|
  {
    if n == 0 then 0 else TakingPair(ss, n - 1) + if TakesPair(ss[n - 1]) then 1 else 0
  }

  lemma PushTwo(s: Session, p: Pending, q: Pending)
    requires RingOk(s)
    ensures RingOk(Push(s, p)) && PushAll(s, [p, q]) == Push(Push(s, p), q)
  {
    PushIsAppend(s, p);
    assert [p, q][1..] == [q];
    PushAllOne(Push(s, p), q);
  }

  lemma PushThree(s: Session, p: Pending, q: Pending, r: Pending)
    requires RingOk(s)
    ensures RingOk(Push(s, p)) && PushAll(s, [p, q, r]) == PushAll(Push(s, p), [q, r])
  {
    PushIsAppend(s, p);
    assert [p, q, r][1..] == [q, r];
  }

  /** The ring writes a registration makes, one after the other, are those of posting the welcome. */
  lemma WelcomePushes(t: State, m: Uid, s: Session)
    requires RingOk(s)
    ensures var first := if t.paused then Push(s, Command("pause")) else s;
            RingOk(first) &&
            PushAll(s, Welcome(t, m)) == if HasRole(t.roles, m) then PushAll(first, Dosage(Forks(t.roles, m))) else first
  {
    PushIsAppend(s, Command("pause"));
    if HasRole(t.roles, m) {
      var d := Dosage(Forks(t.roles, m));
      if t.paused {
        assert Welcome(t, m) == [Command("pause"), d[0], d[1]];
        PushThree(s, Command("pause"), d[0], d[1]);
      } else {
        assert Welcome(t, m) == d;
      }
    } else if t.paused {
      assert Welcome(t, m) == [Command("pause")];
      PushAllOne(s, Command("pause"));
    }
  }

  /** Why a session waiting for a command holds the mutex. */
  datatype Wake = Entered | Signalled | RanOut | WaitFailed

  /** The wait may go on: it neither ran out nor failed. */
  predicate Awaits(wake: Wake) { wake == Entered || wake == Signalled }

  predicate Idles(s: Session) { s.inUse && s.count == 0 }

  /** The first `n` sessions were offered the commands, the others are as before. */
  ghost predicate PushedUpto(ss: seq<Session>, now: seq<Session>, ps: seq<Pending>, n: nat) {
    && SessionsOk(ss) && |now| == |ss|
    && (forall j :: 0 <= j < n && j < |ss| ==> now[j] == PushAll(ss[j], ps))
    && forall j :: n <= j < |ss| ==> now[j] == ss[j]
  }

  lemma PushedNext(ss: seq<Session>, now: seq<Session>, ps: seq<Pending>, i: nat)
    requires i < |ss| && PushedUpto(ss, now, ps, i)
    ensures now[i] == ss[i] && RingOk(ss[i])
    ensures PushedUpto(ss, now[i := PushAll(ss[i], ps)], ps, i + 1)
    ensures PushAll(ss[i], ps) == ss[i] ==> PushedUpto(ss, now, ps, i + 1)
  {
    var next := now[i := PushAll(ss[i], ps)];
    forall j | 0 <= j < i + 1 ensures next[j] == PushAll(ss[j], ps) {}
    assert PushAll(ss[i], ps) == ss[i] ==> next == now;
  }

  class Registry {
    var sessions: array<Session>
    var nextNo: nat
    var paused: bool
    var roles: array<Role>

    ghost function Now(): State
      reads this, sessions, roles
    {
      State(sessions[..], nextNo, paused, roles[..])
    }

    ghost predicate Valid()
      reads this, sessions, roles
    {
      sessions.Length == MAX_SESSIONS && roles.Length == MAX_ROLES && StateOk(Now())
    }

    constructor ()
      ensures Valid() && Initial(Now()) && fresh(sessions) && fresh(roles)
    {
      sessions := new Session[MAX_SESSIONS](i => Session(false, 0, 0, 0, "", seq(QUEUE_CAP, k => Command("")), 0, 0));
      roles := new Role[MAX_ROLES](i => Role(false, 0, 0));
      nextNo := 1;
      paused := false;
    }

    method FindDesiredRole(m: Uid) returns (idx: int)
      ensures idx == if HasRole(roles[..], m) then FindRole(roles[..], m, 0) else -1
    {
      for i := 0 to roles.Length
        invariant forall j :: 0 <= j < i ==> !(roles[j].inUse && roles[j].machine == m)
      {
        if roles[i].inUse && roles[i].machine == m {
          return i;
        }
      }
      return -1;
    }

    /** Remember a machine's dosage, in its entry, else in a free one, else not at all. */
    method SetDesiredRole(m: Uid, forks: int)
      modifies roles
      ensures roles[..] == SetRole(old(roles[..]), m, forks)
    {
      var idx := FindDesiredRole(m);
      if idx < 0 {
        for i := 0 to roles.Length
          invariant idx == -1 ==> forall j :: 0 <= j < i ==> roles[j].inUse
          invariant idx != -1 ==> idx == FreeRole(roles[..], 0) < roles.Length
        {
          if idx == -1 && !roles[i].inUse {
            idx := i;
          }
        }
        if idx < 0 {
          return;
        }
      }
      roles[idx] := Role(true, m, forks);
    }

    /** Append one command to a session's ring; refused when the index or the session is not live, or the ring full. */
    method PostCommand(index: int, p: Pending) returns (ok: bool)
      requires SessionsOk(sessions[..])
      modifies sessions
      ensures ok == (0 <= index < MAX_SESSIONS && Accepts(old(sessions[..])[index]))
      ensures sessions[..] ==
        if 0 <= index < MAX_SESSIONS then old(sessions[..])[index := Push(old(sessions[..])[index], p)] else old(sessions[..])
    {
      if index < 0 || index >= MAX_SESSIONS {
        return false;
      }
      var s := sessions[index];
      assert s == sessions[..][index];
      ok := false;
      if s.inUse && s.count < QUEUE_CAP {
        var tail := (s.head + s.count) % QUEUE_CAP;
        s := s.(queue := s.queue[tail := Stored(p)], count := s.count + 1);
        ok := true;
      }
      sessions[index] := s;
    }

    method Register(machine: Uid, client: Uid, name: string) returns (idx: int)
      requires Valid()
      modifies this`nextNo, sessions
      ensures Valid() && Now() == Step(old(Now()), EvRegister(machine, client, name))
      ensures idx == -1 <==> forall i :: 0 <= i < MAX_SESSIONS ==> old(sessions[i]).inUse
      ensures idx != -1 ==> 0 <= idx < MAX_SESSIONS && LiveAs(sessions[idx], old(nextNo)) && !old(sessions[idx]).inUse
      ensures idx != -1 ==> sessions[idx].machine == machine && sessions[idx].client == client && sessions[idx].name == name
    {
      ghost var t := Now();
      StepOk(t, EvRegister(machine, client, name));
      idx := 0;
      while idx < sessions.Length && sessions[idx].inUse
        invariant 0 <= idx <= sessions.Length
        invariant forall j :: 0 <= j < idx ==> sessions[j].inUse
      {
        idx := idx + 1;
      }
      if idx == sessions.Length {
        assert FreeSession(t.sessions, 0) == |t.sessions|;
        return -1;
      }
      assert FreeSession(t.sessions, 0) == idx;
      assert RingOk(t.sessions[idx]);
      NewSessionIs(t, EvRegister(machine, client, name), t.sessions[idx]);
      var s := PutWelcome(Session(true, nextNo, machine, client, name, sessions[idx].queue, 0, 0));
      nextNo := nextNo + 1;
      sessions[idx] := s;
      assert Now().sessions == t.sessions[idx := s];
    }

    /** The ring writes of a registration: the pause if one is wanted, then the dosage wanted for the machine. */
    method PutWelcome(blank: Session) returns (s: Session)
      requires RingOk(blank) && blank.inUse && blank.count == 0 && blank.head == 0
      ensures s == PushAll(blank, Welcome(Now(), blank.machine))
    {
      WelcomePushes(Now(), blank.machine, blank);
      s := blank;
      if paused {
        s := s.(queue := s.queue[0 := Stored(Command("pause"))], count := 1);
      }
      var desired := FindDesiredRole(blank.machine);
      if desired >= 0 && s.count + 2 <= QUEUE_CAP {
        var line := ConfigLine(roles[desired].forks);
        PushTwo(s, Command(line), Command("configApply"));
        var tail := (s.head + s.count) % QUEUE_CAP;
        s := s.(queue := s.queue[tail := Stored(Command(line))], count := s.count + 1);
        tail := (s.head + s.count) % QUEUE_CAP;
        s := s.(queue := s.queue[tail := Stored(Command("configApply"))], count := s.count + 1);
      }
    }

    method Unregister(index: int)
      requires Valid()
      modifies sessions
      ensures Valid()
      ensures Now() == if index < 0 then old(Now()) else Step(old(Now()), EvUnregister(index))
    {
      if index < 0 || index >= MAX_SESSIONS {
        return;
      }
      StepOk(Now(), EvUnregister(index));
      sessions[index] := sessions[index].(inUse := false, head := 0, count := 0);
    }

    /**
     One turn of the wait of a session for its next command, each time the mutex is held: on entering, after a
     signal, when the wait ran out, or when it failed. The result is 0 and the oldest command, 1 when the wait ran
     out, -1 when it failed or the session is not live, 2 to sleep (again).
     */
    method TakeCommand(index: int, room: nat, wake: Wake) returns (rc: int, cmd: nat, line: string)
      requires Valid() && (wake != Entered ==> 0 <= index < MAX_SESSIONS)
      modifies sessions
      ensures Valid()
      ensures rc == 0 || rc == 1 || rc == 2 || rc == -1
      ensures rc == 0 <==> 0 <= index < MAX_SESSIONS && Awaits(wake) && old(sessions[..])[index].count > 0
      ensures rc == 1 <==> 0 <= index < MAX_SESSIONS && wake == RanOut
      ensures rc == 2 <==> 0 <= index < MAX_SESSIONS && Awaits(wake) && Idles(old(sessions[..])[index])
      ensures Now() == if rc == 0 then Step(old(Now()), EvTake(index)) else old(Now())
      ensures rc == 0 ==> cmd == Waiting(old(sessions[..])[index])[0].cmd
      ensures rc == 0 ==> line <= Waiting(old(sessions[..])[index])[0].line
      ensures rc == 0 ==> |line| < room || line == ""
      ensures rc == 0 && |Waiting(old(sessions[..])[index])[0].line| < room ==> line == Waiting(old(sessions[..])[index])[0].line
      ensures rc == 0 && |Waiting(old(sessions[..])[index])[0].line| >= room > 0 ==> |line| == room - 1
    {
      cmd, line := 0, "";
      if index < 0 || index >= MAX_SESSIONS {
        return -1, cmd, line;
      }
      if wake == RanOut {
        return 1, cmd, line;
      }
      if wake == WaitFailed {
        return -1, cmd, line;
      }
      var s := sessions[index];
      assert s == sessions[..][index] && RingOk(s);
      if !s.inUse {
        return -1, cmd, line;
      }
      if s.count == 0 {
        return 2, cmd, line;
      }
      StepOk(Now(), EvTake(index));
      PopIsTail(s);
      var front := s.queue[s.head];
      cmd := front.cmd;
      if room > 0 {
        line := if |front.line| > room - 1 then front.line[..room - 1] else front.line;
      }
      sessions[index] := s.(head := (s.head + 1) % QUEUE_CAP, count := s.count - 1);
      rc := 0;
    }

    method PostToAll(p: Pending) returns (n: nat)
      requires SessionsOk(sessions[..])
      modifies sessions
      ensures |sessions[..]| == MAX_SESSIONS
      ensures forall i :: 0 <= i < MAX_SESSIONS ==> sessions[i] == PushAll(old(sessions[..])[i], [p])
      ensures n == Accepting(old(sessions[..]), MAX_SESSIONS)
    {
      ghost var ss := sessions[..];
      n := 0;
      for i := 0 to MAX_SESSIONS
        invariant SessionsOk(sessions[..])
        invariant n == Accepting(ss, i)
        invariant forall j :: 0 <= j < i ==> sessions[j] == PushAll(ss[j], [p])
        invariant forall j :: i <= j < MAX_SESSIONS ==> sessions[j] == ss[j]
      {
        assert RingOk(ss[i]) && sessions[i] == ss[i];
        PushAllOne(ss[i], p);
        PushIsAppend(ss[i], p);
        if sessions[i].inUse {
          var ok := PostCommand(i, p);
          if ok {
            n := n + 1;
          }
        }
      }
    }

    /** Post to every live session and, for a pause or a resume, remember the state wanted; returns how many took it. */
    method Broadcast(p: Pending) returns (n: nat)
      requires Valid()
      modifies this`paused, sessions
      ensures Valid() && Now() == Step(old(Now()), EvBroadcast(p))
      ensures n == Accepting(old(sessions[..]), MAX_SESSIONS)
    {
      ghost var t := Now();
      StepOk(t, EvBroadcast(p));
      if p.cmd == CTRL_COMMAND {
        if FirstWordIs(p.line, "pause") {
          paused := true;
        } else if FirstWordIs(p.line, "resume") {
          paused := false;
        }
      }
      n := PostToAll(p);
      assert Now().sessions == Step(t, EvBroadcast(p)).sessions;
    }

    method MatchTarget(tg: Target) returns (idx: int)
      requires SessionsOk(sessions[..])
      ensures idx == Matched(sessions[..], tg)
    {
      ghost var ss := sessions[..];
      var matches := 0;
      idx := -1;
      for i := 0 to MAX_SESSIONS
        invariant matches == Hits(ss, tg, i)
        invariant matches == 0 ==> forall j :: 0 <= j < i ==> !Hit(ss[j], tg)
        invariant matches > 0 ==> idx == FirstHit(ss, tg, 0) < i
      {
        var s := sessions[i];
        if s.inUse && (tg.no == s.no || tg.client == s.client || tg.name == s.name) {
          matches := matches + 1;
          if matches == 1 {
            idx := i;
          }
        }
      }
      if matches != 1 {
        idx := -1;
      }
    }

    /** Post to the one session the target can only mean; nothing when none or several answer. */
    method SendTo(tg: Target, p: Pending) returns (posted: bool)
      requires Valid()
      modifies sessions
      ensures Valid() && Now() == Step(old(Now()), EvSend(tg, p))
      ensures posted == (Matched(old(sessions[..]), tg) >= 0 && Accepts(old(sessions[..])[Matched(old(sessions[..]), tg)]))
    {
      ghost var t := Now();
      StepOk(t, EvSend(tg, p));
      var k := MatchTarget(tg);
      posted := false;
      if k >= 0 {
        PushAllOne(t.sessions[k], p);
        posted := PostCommand(k, p);
      }
      assert Now().sessions == Step(t, EvSend(tg, p)).sessions;
    }

    /** The two commands of a dosage for one slot; the dosage is remembered only if both were taken. */
    method PostDosage(i: nat, forks: int) returns (both: bool)
      requires SessionsOk(sessions[..]) && i < MAX_SESSIONS
      modifies sessions, roles
      ensures both == TakesPair(old(sessions[..])[i])
      ensures SessionsOk(sessions[..])
      ensures sessions[..] == old(sessions[..])[i := PushAll(old(sessions[..])[i], Dosage(forks))]
      ensures roles[..] == if both then SetRole(old(roles[..]), old(sessions[..])[i].machine, forks) else old(roles[..])
    {
      ghost var s := sessions[..][i];
      assert RingOk(s);
      PushTwo(s, Dosage(forks)[0], Dosage(forks)[1]);
      PushAllTaken(s, Dosage(forks));
      assert [Dosage(forks)[0], Dosage(forks)[1]] == Dosage(forks);
      PushIsAppend(s, Dosage(forks)[0]);
      both := PostCommand(i, Dosage(forks)[0]);
      if both {
        both := PostCommand(i, Dosage(forks)[1]);
        if both {
          SetDesiredRole(sessions[i].machine, forks);
        }
      }
    }

    method PostDosageToAll(forks: int) returns (n: nat)
      requires SessionsOk(sessions[..])
      modifies sessions, roles
      ensures |sessions[..]| == MAX_SESSIONS
      ensures forall i :: 0 <= i < MAX_SESSIONS ==> sessions[i] == PushAll(old(sessions[..])[i], Dosage(forks))
      ensures roles[..] == SetRoles(old(sessions[..]), old(roles[..]), forks, MAX_SESSIONS)
      ensures n == TakingPair(old(sessions[..]), MAX_SESSIONS)
    {
      ghost var ss, rs := sessions[..], roles[..];
      n := 0;
      for i := 0 to MAX_SESSIONS
        invariant SessionsOk(sessions[..]) && n == TakingPair(ss, i) && roles[..] == SetRoles(ss, rs, forks, i)
        invariant PushedUpto(ss, sessions[..], Dosage(forks), i)
      {
        PushedNext(ss, sessions[..], Dosage(forks), i);
        if sessions[i].inUse {
          var both := PostDosage(i, forks);
          if both {
            n := n + 1;
          }
        } else {
          NotLive(ss[i], forks);
        }
      }
    }

    /** A dosage order for every live session; returns how many took both commands. */
    method DosageAll(forks: int) returns (n: nat)
      requires Valid()
      modifies sessions, roles
      ensures Valid() && Now() == Step(old(Now()), EvDosageAll(forks))
      ensures n == TakingPair(old(sessions[..]), MAX_SESSIONS)
    {
      ghost var t := Now();
      StepOk(t, EvDosageAll(forks));
      n := PostDosageToAll(forks);
      assert Now().sessions == Step(t, EvDosageAll(forks)).sessions;
    }

    /** A dosage order for the one session the target can only mean. */
    method DosageOne(tg: Target, forks: int) returns (touched: bool)
      requires Valid()
      modifies sessions, roles
      ensures Valid() && Now() == Step(old(Now()), EvDosageOne(tg, forks))
      ensures touched == (Matched(old(sessions[..]), tg) >= 0 && TakesPair(old(sessions[..])[Matched(old(sessions[..]), tg)]))
    {
      ghost var t := Now();
      StepOk(t, EvDosageOne(tg, forks));
      var k := MatchTarget(tg);
      touched := false;
      if k >= 0 {
        touched := PostDosage(k, forks);
      }
      assert Now().sessions == Step(t, EvDosageOne(tg, forks)).sessions;
    }
  }

  lemma NotLive(s: Session, forks: int)
    requires RingOk(s) && !s.inUse
    ensures PushAll(s, Dosage(forks)) == s
  {
    PushTwo(s, Dosage(forks)[0], Dosage(forks)[1]);
    assert [Dosage(forks)[0], Dosage(forks)[1]] == Dosage(forks);
  }
}
