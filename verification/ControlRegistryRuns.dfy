/**
 Whole runs of the control-session register: session numbers are never reused, each ring is a first-in first-out
 queue over the life of its session, and a session that missed no broadcast pause or resume, and was sent none
 of its own, has been told exactly the pause state wanted for the fleet, whenever it registered.
 */
module ControlRegistryRuns {
  import opened ControlRegistryModel
  import opened Decimals

  predicate LiveAs(s: Session, no: nat) { s.inUse && s.no == no }

  function SlotOf(ss: seq<Session>, no: nat, i: nat): (k: nat)
    requires i <= |ss|
    ensures i <= k <= |ss| && (k < |ss| ==> LiveAs(ss[k], no))
    ensures forall j :: i <= j < k ==> !LiveAs(ss[j], no)
    decreases |ss| - i
  {
    if i == |ss| || LiveAs(ss[i], no) then i else SlotOf(ss, no, i + 1)
  }

  predicate Live(t: State, no: nat) { SlotOf(t.sessions, no, 0) < |t.sessions| }

  predicate Initial(t: State) {
    && SessionsOk(t.sessions) && (forall i :: 0 <= i < |t.sessions| ==> !t.sessions[i].inUse)
    && t.nextNo == 1 && !t.paused
    && |t.roles| == MAX_ROLES && (forall i :: 0 <= i < |t.roles| ==> !t.roles[i].inUse)
  }

  predicate StateOk(t: State) {
    && SessionsOk(t.sessions) && 1 <= t.nextNo
    && (forall i :: 0 <= i < |t.sessions| && t.sessions[i].inUse ==> 1 <= t.sessions[i].no < t.nextNo)
    && (forall i, j :: 0 <= i < j < |t.sessions| && t.sessions[i].inUse && t.sessions[j].inUse ==>
         t.sessions[i].no != t.sessions[j].no)
  }

  function After(start: State, events: seq<Event>): (t: State)
    requires SessionsOk(start.sessions)
    ensures SessionsOk(t.sessions)
    decreases |events|
  {
    if events == [] then start
    else
      var before := After(start, events[..|events| - 1]);
      StepSessions(before, events[|events| - 1]);
      Step(before, events[|events| - 1])
  }

  lemma StepSessions(t: State, e: Event)
    requires SessionsOk(t.sessions)
    ensures SessionsOk(Step(t, e).sessions)
  {
    if e.EvTake? && e.slot < |t.sessions| && t.sessions[e.slot].count > 0 {
      PopIsTail(t.sessions[e.slot]);
    }
  }

  // ------------------------------------------------------------------
  // Posting several commands
  // ------------------------------------------------------------------

  /** What a session takes of the commands offered, as it stores them. */
  function Taken(s: Session, ps: seq<Pending>): seq<Pending>
    requires RingOk(s)
    decreases |ps|
  {
    if ps == [] then []
    else
      PushIsAppend(s, ps[0]);
      (if Accepts(s) then [Stored(ps[0])] else []) + Taken(Push(s, ps[0]), ps[1..])
  }

  /** Whether a pause or a resume is among the commands refused. */
  predicate LosesSwitch(s: Session, ps: seq<Pending>)
    requires RingOk(s)
    decreases |ps|
  {
    ps != [] && (PushIsAppend(s, ps[0]); (!Accepts(s) && Switches(ps[0])) || LosesSwitch(Push(s, ps[0]), ps[1..]))
  }

  predicate Same(s: Session, t: Session) {
    s.inUse == t.inUse && s.no == t.no && s.machine == t.machine && s.client == t.client && s.name == t.name
  }

  /** Offered commands are appended in order; the session stays who it was. */
  lemma {:induction false} PushAllTaken(s: Session, ps: seq<Pending>)
    requires RingOk(s)
    ensures Waiting(PushAll(s, ps)) == Waiting(s) + Taken(s, ps) && Same(s, PushAll(s, ps))
    decreases |ps|
  {
    if ps == [] {
      assert Waiting(s) + [] == Waiting(s);
    } else {
      PushIsAppend(s, ps[0]);
      PushAllTaken(Push(s, ps[0]), ps[1..]);
    }
  }

  /** A live session takes as many of the offered commands as it has room for, from the front. */
  lemma {:induction false} TakenFits(s: Session, ps: seq<Pending>)
    requires RingOk(s) && s.inUse
    ensures |Taken(s, ps)| == if |ps| <= QUEUE_CAP - s.count then |ps| else QUEUE_CAP - s.count
    ensures forall i :: 0 <= i < |Taken(s, ps)| ==> Taken(s, ps)[i] == Stored(ps[i])
    decreases |ps|
  {
    if ps != [] {
      PushIsAppend(s, ps[0]);
      TakenFits(Push(s, ps[0]), ps[1..]);
    }
  }

  // ------------------------------------------------------------------
  // Session numbers
  // ------------------------------------------------------------------

  lemma NewSessionIs(t: State, e: Event, slot: Session)
    requires e.EvRegister? && RingOk(slot)
    ensures var s := NewSession(t, e, slot);
            && RingOk(s) && s.inUse && s.no == t.nextNo && s.machine == e.machine && s.client == e.client && s.name == e.name
            && Waiting(s) == Taken(Session(true, t.nextNo, e.machine, e.client, e.name, slot.queue, 0, 0), Welcome(t, e.machine))
  {
    var blank := Session(true, t.nextNo, e.machine, e.client, e.name, slot.queue, 0, 0);
    PushAllTaken(blank, Welcome(t, e.machine));
    assert Waiting(blank) == [];
  }

  /** What one event does to slot `i`, apart from a registration or an end of session there. */
  lemma SlotStep(t: State, e: Event, i: nat)
    requires SessionsOk(t.sessions) && i < MAX_SESSIONS
    requires !(e.EvRegister? && FreeSession(t.sessions, 0) == i) && !(e.EvUnregister? && e.slot == i)
    ensures var s, s' := t.sessions[i], Step(t, e).sessions[i];
            && Same(s, s')
            && (e.EvTake? && e.slot == i && s.count > 0 ==> s' == Pop(s))
            && (!(e.EvTake? && e.slot == i) ==> s' == PushAll(s, Offers(t, e, i)))
  {
    PushAllTaken(t.sessions[i], Offers(t, e, i));
  }

  lemma StepOk(t: State, e: Event)
    requires StateOk(t)
    ensures StateOk(Step(t, e)) && t.nextNo <= Step(t, e).nextNo
  {
    StepSessions(t, e);
    var ss' := Step(t, e).sessions;
    var k := FreeSession(t.sessions, 0);
    forall i | 0 <= i < MAX_SESSIONS ensures Descends(t, e, t.sessions[i], ss'[i]) {
      if e.EvRegister? && k == i {
        NewSessionIs(t, e, t.sessions[k]);
      } else if !(e.EvUnregister? && e.slot == i) {
        SlotStep(t, e, i);
      }
    }
    if e.EvRegister? {
      forall i | 0 <= i < MAX_SESSIONS && i != k ensures ss'[i] == t.sessions[i] {}
    }
  }

  /** A live session after the event is the one before it, or the one just registered. */
  predicate Descends(t: State, e: Event, s: Session, s': Session) {
    s'.inUse ==>
      || (s.inUse && s'.no == s.no)
      || (e.EvRegister? && FreeSession(t.sessions, 0) < |t.sessions| && !s.inUse && s'.no == t.nextNo)
  }

  lemma {:induction false} RunOk(start: State, events: seq<Event>)
    requires Initial(start)
    ensures StateOk(After(start, events))
    decreases |events|
  {
    if events != [] {
      RunOk(start, events[..|events| - 1]);
      StepOk(After(start, events[..|events| - 1]), events[|events| - 1]);
    }
  }

  lemma {:induction false} NumbersGrow(start: State, events: seq<Event>, i: nat)
    requires Initial(start) && i <= |events|
    ensures After(start, events[..i]).nextNo <= After(start, events).nextNo
    decreases |events|
  {
    if i == |events| {
      assert events[..i] == events;
    } else {
      var before := events[..|events| - 1];
      assert before[..i] == events[..i];
      NumbersGrow(start, before, i);
      RunOk(start, before);
      StepOk(After(start, before), events[|events| - 1]);
    }
  }

  /** The number a registration hands out was never carried by a session at any earlier moment of the run. */
  lemma NumbersNeverReused(start: State, events: seq<Event>, e: Event, i: nat, no: nat)
    requires Initial(start) && i <= |events| && e.EvRegister?
    requires Live(After(start, events + [e]), no) && !Live(After(start, events), no)
    ensures no == After(start, events).nextNo && !Live(After(start, events[..i]), no)
  {
    var t := After(start, events);
    assert (events + [e])[..|events|] == events;
    RunOk(start, events);
    Newborn(t, e, no);
    NumbersGrow(start, events, i);
    RunOk(start, events[..i]);
  }

  lemma Newborn(t: State, e: Event, no: nat)
    requires StateOk(t) && Live(Step(t, e), no) && !Live(t, no)
    ensures e.EvRegister? && no == t.nextNo && FreeSession(t.sessions, 0) < |t.sessions|
  {
    StepSessions(t, e);
    var i := SlotOf(Step(t, e).sessions, no, 0);
    assert !LiveAs(t.sessions[i], no);
    if e.EvRegister? && FreeSession(t.sessions, 0) == i {
      NewSessionIs(t, e, t.sessions[i]);
    } else if !e.EvUnregister? {
      SlotStep(t, e, i);
    }
  }

  // ------------------------------------------------------------------
  // One session's history
  // ------------------------------------------------------------------

  /**
   What was ever accepted into a session's queue and taken out of it; whether it is faithful (no broadcast pause or
   resume was refused, and none was sent to this session alone); and whether it agrees with the wanted pause state,
   reckoned from what was accepted and refused and not from the commands themselves.
   */
  datatype History = History(accepted: seq<Pending>, delivered: seq<Pending>, faithful: bool, agrees: bool)

  /** The pause state a client is in after obeying these commands; before any of them it runs. */
  function Told(ps: seq<Pending>): bool {
    if ps == [] then false else Wanted(Told(ps[..|ps| - 1]), ps[|ps| - 1])
  }

  predicate Misdirected(e: Event, offers: seq<Pending>) { e.EvSend? && offers != [] && Switches(offers[0]) }

  /**
   Whether a session agrees after an event that offers it commands: an accepted broadcast switch settles it, a
   refused one turns it round exactly when it flips the wanted state, and a switch of its own must be the wanted one.
   */
  predicate StillAgrees(t: State, s: Session, e: Event, offers: seq<Pending>, agreed: bool) {
    match e
    case EvBroadcast(p) =>
      if !Switches(p) then agreed else if Accepts(s) then true else agreed == (Wanted(t.paused, p) == t.paused)
    case EvSend(_, p) =>
      if offers != [] && Switches(p) && Accepts(s) then Wanted(t.paused, p) == t.paused else agreed
    case _ => agreed
  }

  function Noted(t: State, h: History, e: Event, no: nat): History
    requires SessionsOk(t.sessions)
  {
    match e
    case EvRegister(m, c, name) =>
      var k := FreeSession(t.sessions, 0);
      if k < |t.sessions| && no == t.nextNo then
        History(Taken(Session(true, no, m, c, name, t.sessions[k].queue, 0, 0), Welcome(t, m)), [], true, true)
      else h
    case EvTake(i) =>
      if i < |t.sessions| && LiveAs(t.sessions[i], no) && t.sessions[i].count > 0 then
        h.(delivered := h.delivered + [t.sessions[i].queue[t.sessions[i].head]])
      else h
    case _ =>
      var i := SlotOf(t.sessions, no, 0);
      if i == |t.sessions| then h
      else
        var offers := Offers(t, e, i);
        h.(accepted := h.accepted + Taken(t.sessions[i], offers),
           faithful := h.faithful && !LosesSwitch(t.sessions[i], offers) && !Misdirected(e, offers),
           agrees := StillAgrees(t, t.sessions[i], e, offers, h.agrees))
  }

  function HistoryAfter(start: State, events: seq<Event>, no: nat): History
    requires SessionsOk(start.sessions)
    decreases |events|
  {
    if events == [] then History([], [], true, true)
    else
      var before := events[..|events| - 1];
      Noted(After(start, before), HistoryAfter(start, before, no), events[|events| - 1], no)
  }

  /** First in, first out: what was accepted is what was delivered followed by what waits. */
  predicate Fifo(s: Session, h: History)
    requires RingOk(s)
  {
    h.accepted == h.delivered + Waiting(s)
  }

  predicate Follows(t: State, h: History, no: nat)
    requires SessionsOk(t.sessions) && Live(t, no)
  {
    && Fifo(t.sessions[SlotOf(t.sessions, no, 0)], h)
    && (Told(h.accepted) == t.paused <==> h.agrees)
    && (h.faithful ==> h.agrees)
  }

  lemma ToldMore(a: seq<Pending>, p: Pending)
    ensures Told(a + [p]) == Wanted(Told(a), p)
  {
    assert (a + [p])[..|a|] == a;
  }

  lemma {:induction false} ToldQuiet(a: seq<Pending>, ps: seq<Pending>)
    requires forall p :: p in ps ==> !Switches(p)
    ensures Told(a + ps) == Told(a)
    decreases |ps|
  {
    if ps == [] {
      assert a + ps == a;
    } else {
      var init, p := ps[..|ps| - 1], ps[|ps| - 1];
      assert ps == init + [p] && p in ps;
      ToldQuiet(a, init);
      assert a + ps == (a + init) + [p];
      ToldMore(a + init, p);
    }
  }

  lemma {:induction false} TakenQuiet(s: Session, ps: seq<Pending>)
    requires RingOk(s) && forall i :: 0 <= i < |ps| ==> !Switches(ps[i])
    ensures forall p :: p in Taken(s, ps) ==> !Switches(p)
    decreases |ps|
  {
    if ps != [] {
      PushIsAppend(s, ps[0]);
      StoredSwitches(ps[0]);
      TakenQuiet(Push(s, ps[0]), ps[1..]);
    }
  }

  lemma TakenOne(s: Session, p: Pending)
    requires RingOk(s)
    ensures Taken(s, [p]) == if Accepts(s) then [Stored(p)] else []
    ensures LosesSwitch(s, [p]) == (!Accepts(s) && Switches(p))
  {
    PushIsAppend(s, p);
    assert [p][1..] == [];
  }

  /** One offered command tells a session what it says if accepted, nothing if refused. */
  lemma ToldOne(s: Session, a: seq<Pending>, p: Pending)
    requires RingOk(s)
    ensures Told(a + Taken(s, [p])) == if Accepts(s) then Wanted(Told(a), p) else Told(a)
  {
    TakenOne(s, p);
    StoredSwitches(p);
    if Accepts(s) {
      ToldMore(a, Stored(p));
    } else {
      assert a + [] == a;
    }
  }

  lemma DosageQuiet(s: Session, forks: int)
    requires RingOk(s)
    ensures forall p :: p in Taken(s, Dosage(forks)) ==> !Switches(p)
  {
    DosageNoSwitch(forks);
    TakenQuiet(s, Dosage(forks));
  }

  /** What a new session finds waiting: the pause if one is wanted, then the dosage wanted for its machine. */
  lemma WelcomeTaken(t: State, m: Uid, s: Session)
    requires RingOk(s) && s.inUse && s.count == 0
    ensures Taken(s, Welcome(t, m)) ==
      (if t.paused then [Stored(Command("pause"))] else []) +
      (if HasRole(t.roles, m) then [Stored(Dosage(Forks(t.roles, m))[0]), Stored(Dosage(Forks(t.roles, m))[1])] else [])
  {
    TakenFits(s, Welcome(t, m));
  }

  lemma ToldWelcome(paused: bool, rest: seq<Pending>)
    requires forall p :: p in rest ==> !Switches(p)
    ensures Told((if paused then [Stored(Command("pause"))] else []) + rest) == paused
  {
    var pause := Stored(Command("pause"));
    PauseIsSwitch();
    ToldQuiet([pause], rest);
    ToldQuiet([], rest);
    ToldMore([], pause);
    assert [] + [pause] == [pause];
  }

  /** A new session is told to pause exactly when the fleet should be paused, then its machine's dosage. */
  lemma WelcomeTells(t: State, m: Uid, s: Session)
    requires RingOk(s) && s.inUse && s.count == 0
    ensures Told(Taken(s, Welcome(t, m))) == t.paused
    ensures HasRole(t.roles, m) ==>
      var w := Taken(s, Welcome(t, m));
      |w| >= 2 && w[|w| - 2] == Stored(Command(ConfigLine(Forks(t.roles, m)))) && w[|w| - 1] == Stored(Command("configApply"))
  {
    WelcomeTaken(t, m, s);
    if HasRole(t.roles, m) {
      var d := Dosage(Forks(t.roles, m));
      DosageNoSwitch(Forks(t.roles, m));
      ToldWelcome(t.paused, [Stored(d[0]), Stored(d[1])]);
    } else {
      ToldWelcome(t.paused, []);
    }
  }

  lemma PauseIsSwitch()
    ensures Pauses(Stored(Command("pause")))
  {
    assert "pause"[..5] == "pause";
  }

  lemma Bystander(t: State, e: Event, no: nat)
    requires StateOk(t) && Live(t, no) && Live(Step(t, e), no)
    ensures SlotOf(Step(t, e).sessions, no, 0) == SlotOf(t.sessions, no, 0)
    ensures !(e.EvRegister? && FreeSession(t.sessions, 0) == SlotOf(t.sessions, no, 0))
    ensures !(e.EvUnregister? && e.slot == SlotOf(t.sessions, no, 0))
  {
    StepOk(t, e);
    var i, j := SlotOf(t.sessions, no, 0), SlotOf(Step(t, e).sessions, no, 0);
    assert Descends(t, e, t.sessions[j], Step(t, e).sessions[j]) by {
      if e.EvRegister? && FreeSession(t.sessions, 0) == j {
        NewSessionIs(t, e, t.sessions[j]);
      } else if !(e.EvUnregister? && e.slot == j) {
        SlotStep(t, e, j);
      }
    }
    assert LiveAs(t.sessions[j], no);
  }

  lemma NothingTold(s: Session, a: seq<Pending>)
    requires RingOk(s)
    ensures a + Taken(s, []) == a
  {
  }

  lemma DosageTold(s: Session, a: seq<Pending>, forks: int)
    requires RingOk(s)
    ensures Told(a + Taken(s, Dosage(forks))) == Told(a)
  {
    DosageQuiet(s, forks);
    ToldQuiet(a, Taken(s, Dosage(forks)));
  }

  predicate Posts(e: Event) { !e.EvRegister? && !e.EvTake? && !e.EvUnregister? }

  lemma BroadcastAgrees(t: State, p: Pending, i: nat, a: seq<Pending>)
    requires SessionsOk(t.sessions) && i < MAX_SESSIONS
    ensures Told(a + Taken(t.sessions[i], [p])) == Wanted(t.paused, p)
       <==> StillAgrees(t, t.sessions[i], EvBroadcast(p), [p], Told(a) == t.paused)
  {
    ToldOne(t.sessions[i], a, p);
  }

  lemma SendAgrees(t: State, tg: Target, p: Pending, i: nat, a: seq<Pending>)
    requires SessionsOk(t.sessions) && i < MAX_SESSIONS
    ensures var offers := Offers(t, EvSend(tg, p), i);
            Told(a + Taken(t.sessions[i], offers)) == t.paused
            <==> StillAgrees(t, t.sessions[i], EvSend(tg, p), offers, Told(a) == t.paused)
  {
    NothingTold(t.sessions[i], a);
    ToldOne(t.sessions[i], a, p);
  }

  /** After any posting event a session agrees with the wanted state exactly when the reckoning says so. */
  lemma OffersAgree(t: State, e: Event, i: nat, a: seq<Pending>)
    requires SessionsOk(t.sessions) && i < MAX_SESSIONS && Posts(e)
    ensures Told(a + Taken(t.sessions[i], Offers(t, e, i))) == Step(t, e).paused
       <==> StillAgrees(t, t.sessions[i], e, Offers(t, e, i), Told(a) == t.paused)
  {
    var s := t.sessions[i];
    match e
    case EvBroadcast(p) => BroadcastAgrees(t, p, i, a);
    case EvSend(tg, p) => SendAgrees(t, tg, p, i, a);
    case EvDosageAll(forks) => DosageTold(s, a, forks);
    case EvDosageOne(_, forks) =>
      NothingTold(s, a);
      DosageTold(s, a, forks);
    case _ =>
  }

  /** A faithful step never ends an agreement. */
  lemma FaithfulAgrees(t: State, e: Event, i: nat)
    requires SessionsOk(t.sessions) && i < MAX_SESSIONS && Posts(e)
    requires !LosesSwitch(t.sessions[i], Offers(t, e, i)) && !Misdirected(e, Offers(t, e, i))
    ensures StillAgrees(t, t.sessions[i], e, Offers(t, e, i), true)
  {
    match e
    case EvBroadcast(p) => TakenOne(t.sessions[i], p);
    case _ =>
  }

  lemma OffersFifo(s: Session, h: History, ps: seq<Pending>)
    requires RingOk(s) && Fifo(s, h)
    ensures Fifo(PushAll(s, ps), h.(accepted := h.accepted + Taken(s, ps)))
  {
    PushAllTaken(s, ps);
    assert h.accepted + Taken(s, ps) == h.delivered + (Waiting(s) + Taken(s, ps));
  }

  lemma OffersFollow(t: State, h: History, e: Event, no: nat)
    requires StateOk(t) && Live(t, no) && Follows(t, h, no) && Posts(e) && Live(Step(t, e), no)
    ensures SessionsOk(Step(t, e).sessions) && Follows(Step(t, e), Noted(t, h, e, no), no)
  {
    Bystander(t, e, no);
    StepOk(t, e);
    var i := SlotOf(t.sessions, no, 0);
    var offers := Offers(t, e, i);
    SlotStep(t, e, i);
    OffersFifo(t.sessions[i], h, offers);
    OffersAgree(t, e, i, h.accepted);
    if !LosesSwitch(t.sessions[i], offers) && !Misdirected(e, offers) {
      FaithfulAgrees(t, e, i);
    }
  }

  lemma NewbornFollows(t: State, h: History, e: Event, no: nat)
    requires StateOk(t) && !Live(t, no) && Live(Step(t, e), no)
    ensures SessionsOk(Step(t, e).sessions) && Follows(Step(t, e), Noted(t, h, e, no), no)
  {
    StepOk(t, e);
    Newborn(t, e, no);
    var k := FreeSession(t.sessions, 0);
    var s := Step(t, e).sessions[k];
    NewSessionIs(t, e, t.sessions[k]);
    WelcomeTells(t, e.machine, Session(true, no, e.machine, e.client, e.name, t.sessions[k].queue, 0, 0));
    assert LiveAs(s, no) && [] + Waiting(s) == Waiting(s);
  }

  lemma TakeFollows(t: State, h: History, e: Event, no: nat)
    requires StateOk(t) && Live(t, no) && Follows(t, h, no) && Live(Step(t, e), no)
    requires e.EvTake? && e.slot == SlotOf(t.sessions, no, 0) && t.sessions[e.slot].count > 0
    ensures SessionsOk(Step(t, e).sessions) && Follows(Step(t, e), Noted(t, h, e, no), no)
  {
    StepOk(t, e);
    Bystander(t, e, no);
    PopIsTail(t.sessions[e.slot]);
  }

  lemma StepFollows(t: State, h: History, e: Event, no: nat)
    requires StateOk(t) && (Live(t, no) ==> Follows(t, h, no)) && Live(Step(t, e), no)
    ensures SessionsOk(Step(t, e).sessions) && Follows(Step(t, e), Noted(t, h, e, no), no)
  {
    StepOk(t, e);
    if !Live(t, no) {
      NewbornFollows(t, h, e, no);
    } else {
      Bystander(t, e, no);
      var i := SlotOf(t.sessions, no, 0);
      if e.EvRegister? || e.EvUnregister? || (e.EvTake? && (e.slot != i || t.sessions[i].count == 0)) {
        assert Step(t, e).sessions[i] == t.sessions[i];
      } else if e.EvTake? {
        TakeFollows(t, h, e, no);
      } else {
        OffersFollow(t, h, e, no);
      }
    }
  }

  /**
   Over any run, for every live session: the commands accepted are those delivered followed by those waiting, in
   order; the last pause or resume among them (none meaning running) is the pause state now wanted exactly when the
   reckoning says so; and it does say so for a faithful session, even one registered after the state was asked for.
   */
  lemma {:induction false} SessionsFollow(start: State, events: seq<Event>, no: nat)
    requires Initial(start) && Live(After(start, events), no)
    ensures Follows(After(start, events), HistoryAfter(start, events, no), no)
    decreases |events|
  {
    if events != [] {
      var before := events[..|events| - 1];
      RunOk(start, before);
      if Live(After(start, before), no) {
        SessionsFollow(start, before, no);
      }
      StepFollows(After(start, before), HistoryAfter(start, before, no), events[|events| - 1], no);
    }
  }

  // ------------------------------------------------------------------
  // What an event puts into a queue
  // ------------------------------------------------------------------

  /** A broadcast reaches every live session that has room. */
  lemma BroadcastReaches(t: State, p: Pending, i: nat)
    requires SessionsOk(t.sessions) && i < MAX_SESSIONS
    ensures var s, s' := t.sessions[i], Step(t, EvBroadcast(p)).sessions[i];
            Waiting(s') == Waiting(s) + if s.inUse && s.count < 16 then [Stored(p)] else []
  {
    PushAllOne(t.sessions[i], p);
    PushIsAppend(t.sessions[i], p);
  }

  /** A command sent to a target reaches the one session the target can only mean, if it has room, and no other. */
  lemma SendReaches(t: State, tg: Target, p: Pending, i: nat)
    requires SessionsOk(t.sessions) && i < MAX_SESSIONS
    ensures var s, s' := t.sessions[i], Step(t, EvSend(tg, p)).sessions[i];
            Waiting(s') == Waiting(s) + if OnlyHit(t.sessions, tg, i) && s.count < 16 then [Stored(p)] else []
  {
    MatchedExact(t.sessions, tg, i);
    assert Hit(t.sessions[i], tg) ==> t.sessions[i].inUse;
    PushAllOne(t.sessions[i], p);
    PushIsAppend(t.sessions[i], p);
    assert Waiting(t.sessions[i]) + [] == Waiting(t.sessions[i]);
  }

  /** The command that sets the number of checking processes, and the one that applies it. */
  function Order(forks: int): seq<Pending> {
    [Stored(Pending(CTRL_COMMAND, "config pruner_forks " + Show(forks))), Stored(Pending(CTRL_COMMAND, "configApply"))]
  }

  ghost predicate Addresses(t: State, e: Event, i: nat)
    requires i < |t.sessions|
  {
    t.sessions[i].inUse && (e.EvDosageAll? || (e.EvDosageOne? && OnlyHit(t.sessions, e.tg, i)))
  }

  /** A dosage order puts its two commands, as far as there is room, into every live session or the one designated. */
  lemma DosageReaches(t: State, e: Event, i: nat)
    requires SessionsOk(t.sessions) && i < MAX_SESSIONS && (e.EvDosageAll? || e.EvDosageOne?)
    ensures var s, s' := t.sessions[i], Step(t, e).sessions[i];
            Waiting(s') == Waiting(s) +
              if !Addresses(t, e, i) || s.count >= 16 then [] else if s.count == 15 then Order(e.forks)[..1] else Order(e.forks)
  {
    var s := t.sessions[i];
    if e.EvDosageOne? {
      MatchedExact(t.sessions, e.tg, i);
    }
    assert Dosage(e.forks) == [Dosage(e.forks)[0], Dosage(e.forks)[1]];
    PairWaiting(s, Dosage(e.forks)[0], Dosage(e.forks)[1]);
    assert Waiting(s) + [] == Waiting(s);
    assert Waiting(s) + [Order(e.forks)[0]] + [Order(e.forks)[1]] == Waiting(s) + Order(e.forks);
  }

  /** Command `i` is a pause and no resume follows. */
  predicate PausesForGood(ps: seq<Pending>, i: nat) { i < |ps| && Pauses(ps[i]) && forall j :: i < j < |ps| ==> !Resumes(ps[j]) }

  lemma PausesOn(init: seq<Pending>, last: Pending, ps: seq<Pending>, i: nat)
    requires ps == init + [last] && i < |init|
    ensures PausesForGood(ps, i) <==> PausesForGood(init, i) && !Resumes(last)
  {
    assert PausesForGood(ps, i) ==> forall j :: i < j < |init| ==> init[j] == ps[j];
    assert ps[|init|] == last;
  }

  /** What clients are to do after these commands: the last pause or resume among them decides. */
  lemma {:induction false} ToldLast(ps: seq<Pending>)
    ensures Told(ps) <==> exists i :: 0 <= i < |ps| && PausesForGood(ps, i)
    decreases |ps|
  {
    if ps != [] {
      var init, last := ps[..|ps| - 1], ps[|ps| - 1];
      ToldLast(init);
      NotBoth(last);
      forall i | 0 <= i < |init| ensures PausesForGood(ps, i) <==> PausesForGood(init, i) && !Resumes(last) {
        PausesOn(init, last, ps, i);
      }
      assert PausesForGood(ps, |ps| - 1) <==> Pauses(last);
    }
  }

  lemma NotBoth(p: Pending)
    ensures !(Pauses(p) && Resumes(p))
  {
    assert Pauses(p) ==> p.line[..5][0] == 'p';
    assert Resumes(p) ==> p.line[..6][0] == 'r';
  }

  /** The commands broadcast over a run, in order. */
  function Broadcasts(events: seq<Event>): seq<Pending> {
    if events == [] then []
    else Broadcasts(events[..|events| - 1]) + if events[|events| - 1].EvBroadcast? then [events[|events| - 1].p] else []
  }

  lemma PausedStep(t: State, e: Event)
    requires SessionsOk(t.sessions)
    ensures Step(t, e).paused == if e.EvBroadcast? then Wanted(t.paused, e.p) else t.paused
  {
  }

  lemma PausedNext(t: State, e: Event, told: seq<Pending>)
    requires SessionsOk(t.sessions) && t.paused == Told(told)
    ensures Step(t, e).paused == Told(told + if e.EvBroadcast? then [e.p] else [])
  {
    PausedStep(t, e);
    if e.EvBroadcast? {
      ToldMore(told, e.p);
    } else {
      assert told + [] == told;
    }
  }

  /** Over any run the pause state wanted for the fleet is what the broadcasts so far say. */
  lemma {:induction false} PausedIsTold(start: State, events: seq<Event>)
    requires Initial(start)
    ensures After(start, events).paused == Told(Broadcasts(events))
    decreases |events|
  {
    if events != [] {
      var init := events[..|events| - 1];
      PausedIsTold(start, init);
      PausedNext(After(start, init), events[|events| - 1], Broadcasts(init));
    }
  }

  // ------------------------------------------------------------------
  // Remembered dosages
  // ------------------------------------------------------------------

  datatype Ordered = Never | Ordered(forks: int)

  /** Some session of the machine was addressed and had room for both commands. */
  ghost predicate TookOrder(t: State, e: Event, m: Uid, n: nat) {
    exists i :: 0 <= i < n && i < |t.sessions| && t.sessions[i].machine == m && Addresses(t, e, i) && t.sessions[i].count <= 14
  }

  /** The last dosage order both of whose commands a session of the machine took. */
  ghost function LastOrder(start: State, events: seq<Event>, m: Uid): Ordered
    requires SessionsOk(start.sessions)
    decreases |events|
  {
    if events == [] then Never
    else
      var before, e := events[..|events| - 1], events[|events| - 1];
      if (e.EvDosageAll? || e.EvDosageOne?) && TookOrder(After(start, before), e, m, MAX_SESSIONS) then Ordered(e.forks)
      else LastOrder(start, before, m)
  }

  /** The table remembers this order for the machine; if it does not, there was none or no entry was left. */
  predicate Remembers(rs: seq<Role>, m: Uid, order: Ordered) {
    && (HasRole(rs, m) ==> order == Ordered(Forks(rs, m)))
    && (!HasRole(rs, m) ==> order == Never || RolesFull(rs))
  }

  lemma RememberOne(rs: seq<Role>, m: Uid, forks: int, machine: Uid, order: Ordered)
    requires Remembers(rs, machine, order)
    ensures Remembers(SetRole(rs, m, forks), machine, if m == machine then Ordered(forks) else order)
  {
    SetRoleExact(rs, m, forks, machine);
  }

  lemma {:induction false} RememberAll(t: State, e: Event, m: Uid, order: Ordered, n: nat)
    requires e.EvDosageAll? && n <= |t.sessions| && Remembers(t.roles, m, order)
    ensures Remembers(SetRoles(t.sessions, t.roles, e.forks, n), m, if TookOrder(t, e, m, n) then Ordered(e.forks) else order)
    decreases n
  {
    if n > 0 {
      var i := n - 1;
      RememberAll(t, e, m, order, i);
      var before := SetRoles(t.sessions, t.roles, e.forks, i);
      var s := t.sessions[i];
      if TakesPair(s) {
        RememberOne(before, s.machine, e.forks, m, if TookOrder(t, e, m, i) then Ordered(e.forks) else order);
        assert Addresses(t, e, i);
      }
      TookMore(t, e, m, i, n);
    }
  }

  lemma TookMore(t: State, e: Event, m: Uid, i: nat, n: nat)
    requires n == i + 1 && i < |t.sessions|
    ensures TookOrder(t, e, m, n) <==>
      TookOrder(t, e, m, i) || (t.sessions[i].machine == m && Addresses(t, e, i) && t.sessions[i].count <= 14)
  {
    if TookOrder(t, e, m, i) {
      var j :| 0 <= j < i && j < |t.sessions| && t.sessions[j].machine == m && Addresses(t, e, j) && t.sessions[j].count <= 14;
      assert j < n;
    }
  }

  lemma RememberStep(t: State, e: Event, m: Uid, order: Ordered)
    requires SessionsOk(t.sessions) && Remembers(t.roles, m, order)
    ensures var took := (e.EvDosageAll? || e.EvDosageOne?) && TookOrder(t, e, m, MAX_SESSIONS);
            Remembers(Step(t, e).roles, m, if took then Ordered(e.forks) else order)
  {
    if e.EvDosageAll? {
      RememberAll(t, e, m, order, MAX_SESSIONS);
    } else if e.EvDosageOne? {
      RememberDesignated(t, e, m, order);
    }
  }

  lemma RememberDesignated(t: State, e: Event, m: Uid, order: Ordered)
    requires e.EvDosageOne? && SessionsOk(t.sessions) && Remembers(t.roles, m, order)
    ensures Remembers(Step(t, e).roles, m, if TookOrder(t, e, m, MAX_SESSIONS) then Ordered(e.forks) else order)
  {
    var k := Matched(t.sessions, e.tg);
    forall i | 0 <= i < MAX_SESSIONS ensures OnlyHit(t.sessions, e.tg, i) <==> k == i {
      MatchedExact(t.sessions, e.tg, i);
    }
    if 0 <= k && TakesPair(t.sessions[k]) {
      RememberOne(t.roles, t.sessions[k].machine, e.forks, m, order);
      assert t.sessions[k].machine == m ==> Addresses(t, e, k);
    }
  }

  /**
   Over any run the dosage remembered for a machine is that of the last order both of whose commands one of its
   sessions took; an order is only forgotten when the table was full of other machines.
   */
  lemma {:induction false} DosageRemembered(start: State, events: seq<Event>, m: Uid)
    requires Initial(start)
    ensures Remembers(After(start, events).roles, m, LastOrder(start, events, m))
    decreases |events|
  {
    if events != [] {
      var before := events[..|events| - 1];
      DosageRemembered(start, before, m);
      RememberStep(After(start, before), events[|events| - 1], m, LastOrder(start, before, m));
    }
  }

  /**
   What a registration finds waiting, after any run: a pause exactly if the broadcasts so far say so, then the last
   order its machine took, if the table still knows the machine.
   */
  lemma RegistrationFinds(start: State, events: seq<Event>, e: Event)
    requires Initial(start) && e.EvRegister?
    requires var t := After(start, events); FreeSession(t.sessions, 0) < |t.sessions|
    ensures var t, order := After(start, events), LastOrder(start, events, e.machine);
            && (HasRole(t.roles, e.machine) ==> order.Ordered?)
            && Waiting(Step(t, e).sessions[FreeSession(t.sessions, 0)]) ==
                 (if Told(Broadcasts(events)) then [Stored(Pending(CTRL_COMMAND, "pause"))] else []) +
                 if HasRole(t.roles, e.machine) then Order(order.forks) else []
  {
    var t := After(start, events);
    var k := FreeSession(t.sessions, 0);
    PausedIsTold(start, events);
    DosageRemembered(start, events, e.machine);
    NewSessionIs(t, e, t.sessions[k]);
    var blank := Session(true, t.nextNo, e.machine, e.client, e.name, t.sessions[k].queue, 0, 0);
    WelcomeTaken(t, e.machine, blank);
  }

  // ------------------------------------------------------------------
  // Where it stops holding
  // ------------------------------------------------------------------

  function ToldAfter(t: State, h: History, e: Event, no: nat): bool
    requires SessionsOk(t.sessions)
  {
    Told(Noted(t, h, e, no).accepted)
  }

  /** After a broadcast a session that agreed still does exactly when it had room, or the wanted state did not flip. */
  lemma BroadcastExact(t: State, h: History, p: Pending, no: nat)
    requires StateOk(t) && Live(t, no) && Told(h.accepted) == t.paused
    ensures ToldAfter(t, h, EvBroadcast(p), no) == Step(t, EvBroadcast(p)).paused
       <==> Accepts(t.sessions[SlotOf(t.sessions, no, 0)]) || Wanted(t.paused, p) == t.paused
  {
    OffersAgree(t, EvBroadcast(p), SlotOf(t.sessions, no, 0), h.accepted);
  }

  /** After a command sent to one session, a session that agreed still does exactly when, if it took it, it says what is wanted. */
  lemma SendExact(t: State, h: History, tg: Target, p: Pending, no: nat)
    requires StateOk(t) && Live(t, no) && Told(h.accepted) == t.paused
    ensures ToldAfter(t, h, EvSend(tg, p), no) == Step(t, EvSend(tg, p)).paused
       <==> Matched(t.sessions, tg) == SlotOf(t.sessions, no, 0) && Accepts(t.sessions[SlotOf(t.sessions, no, 0)])
            ==> Wanted(t.paused, p) == t.paused
  {
    OffersAgree(t, EvSend(tg, p), SlotOf(t.sessions, no, 0), h.accepted);
  }

  /** A dosage order seen as one step leaves a `config` without its `configApply` exactly when one place was left. */
  lemma HalfDosage(s: Session, forks: int)
    requires RingOk(s) && s.inUse
    ensures |Taken(s, Dosage(forks))| == 1 <==> s.count == QUEUE_CAP - 1
    ensures |Taken(s, Dosage(forks))| == 2 <==> TakesPair(s)
  {
    TakenFits(s, Dosage(forks));
  }

  // ------------------------------------------------------------------
  // Takes between the two posts of a dosage
  // ------------------------------------------------------------------

  function PopMany(s: Session, k: nat): (t: Session)
    requires RingOk(s) && k <= s.count
    ensures RingOk(t) && t.count == s.count - k && t.inUse == s.inUse
    decreases k
  {
    if k == 0 then s
    else
      PopIsTail(s);
      PopMany(Pop(s), k - 1)
  }

  /** The posts of a pair lock the session one by one: in between its client may take `k` commands. */
  function Interleaved(s: Session, p: Pending, q: Pending, k: nat): Session
    requires RingOk(s) && RingOk(Push(s, p)) && k <= Push(s, p).count
  {
    if Accepts(s) then Push(PopMany(Push(s, p), k), q) else PopMany(s, k)
  }

  /** It does so exactly when one place was left and the client took nothing between the two posts. */
  lemma HalfDosageExact(s: Session, p: Pending, q: Pending, k: nat)
    requires RingOk(s) && s.inUse && RingOk(Push(s, p)) && k <= Push(s, p).count
    ensures Accepts(s) && !Accepts(PopMany(Push(s, p), k)) <==> s.count == QUEUE_CAP - 1 && k == 0
  {
  }

  lemma PopPush(s: Session, p: Pending)
    requires RingOk(s) && Accepts(s) && s.count > 0
    ensures RingOk(Pop(s)) && RingOk(Push(s, p)) && Push(s, p).count > 0
    ensures Pop(Push(s, p)) == Push(Pop(s), p)
  {
    PopIsTail(s);
    PushIsAppend(s, p);
    NextSlot(s.head, s.count - 1);
  }

  lemma {:induction false} PopManyPush(s: Session, p: Pending, k: nat)
    requires RingOk(s) && Accepts(s) && k <= s.count
    ensures RingOk(Push(s, p)) && k <= Push(s, p).count && PopMany(Push(s, p), k) == Push(PopMany(s, k), p)
    decreases k
  {
    PushIsAppend(s, p);
    if k > 0 {
      PopPush(s, p);
      PopIsTail(s);
      PopManyPush(Pop(s), p, k - 1);
    }
  }

  lemma {:induction false} PopManyWaiting(s: Session, k: nat)
    requires RingOk(s) && k <= s.count
    ensures Waiting(s) == Waiting(s)[..k] + Waiting(PopMany(s, k))
    decreases k
  {
    if k > 0 {
      PopIsTail(s);
      PopManyWaiting(Pop(s), k - 1);
      assert Waiting(s)[..k] == [s.queue[s.head]] + Waiting(Pop(s))[..k - 1];
    }
  }

  lemma PushPair(s: Session, p: Pending, q: Pending)
    requires RingOk(s)
    ensures RingOk(Push(s, p)) && PushAll(s, [p, q]) == Push(Push(s, p), q)
  {
    PushIsAppend(s, p);
    assert [p, q][1..] == [q];
    PushAllOne(Push(s, p), q);
  }

  /** How many of the takes come first when the pair is seen as one step: one if only it made room for the second post. */
  function Earlier(s: Session, k: nat): nat { if Accepts(s) && s.count == QUEUE_CAP - 1 && k > 0 then 1 else 0 }

  /**
   Seeing the pair as one step loses nothing: whatever is taken between its posts, the session ends as if some of
   the takes had come before the pair and the others after it, and both posts were accepted exactly when they are then.
   */
  lemma DosageLinearizes(s: Session, p: Pending, q: Pending, k: nat)
    requires RingOk(s) && s.inUse && RingOk(Push(s, p)) && k <= Push(s, p).count
    ensures Earlier(s, k) <= s.count
    ensures var first, j := PopMany(s, Earlier(s, k)), k - Earlier(s, k);
            && j <= PushAll(first, [p, q]).count && Interleaved(s, p, q, k) == PopMany(PushAll(first, [p, q]), j)
            && (Accepts(s) && Accepts(PopMany(Push(s, p), k)) <==> TakesPair(first))
  {
    if Earlier(s, k) == 1 {
      TakeMakesRoom(s, p, q, k);
    } else {
      TakesComeAfter(s, p, q, k);
    }
  }

  lemma TakeMakesRoom(s: Session, p: Pending, q: Pending, k: nat)
    requires RingOk(s) && s.inUse && RingOk(Push(s, p)) && 0 < k <= Push(s, p).count && s.count == QUEUE_CAP - 1
    ensures var first := PopMany(s, 1);
            && k - 1 <= PushAll(first, [p, q]).count && Interleaved(s, p, q, k) == PopMany(PushAll(first, [p, q]), k - 1)
            && Accepts(PopMany(Push(s, p), k)) && TakesPair(first)
  {
    var first, full := PopMany(s, 1), Push(s, p);
    PopPush(s, p);
    assert PopMany(full, k) == PopMany(Pop(full), k - 1) && Pop(full) == Push(first, p);
    PushPair(first, p, q);
    PopManyPush(Pop(full), q, k - 1);
  }

  lemma TakesComeAfter(s: Session, p: Pending, q: Pending, k: nat)
    requires RingOk(s) && s.inUse && RingOk(Push(s, p)) && k <= Push(s, p).count
    requires s.count == QUEUE_CAP - 1 ==> k == 0
    ensures k <= PushAll(s, [p, q]).count && Interleaved(s, p, q, k) == PopMany(PushAll(s, [p, q]), k)
    ensures Accepts(s) && Accepts(PopMany(Push(s, p), k)) <==> TakesPair(s)
  {
    PushPair(s, p, q);
    if Accepts(Push(s, p)) {
      PopManyPush(Push(s, p), q, k);
    }
  }

  /** And the client took the same commands in the same order. */
  lemma DosageTakesSame(s: Session, p: Pending, q: Pending, k: nat)
    requires RingOk(s) && s.inUse && RingOk(Push(s, p)) && k <= Push(s, p).count
    ensures var j := Earlier(s, k);
            && j <= s.count && k - j <= PushAll(PopMany(s, j), [p, q]).count
            && Waiting(Push(s, p))[..k] == Waiting(s)[..j] + Waiting(PushAll(PopMany(s, j), [p, q]))[..k - j]
  {
    if Earlier(s, k) == 1 {
      TookFirst(s, p, q, k);
    } else {
      TookAfter(s, p, q, k);
    }
  }

  lemma TookFirst(s: Session, p: Pending, q: Pending, k: nat)
    requires RingOk(s) && s.inUse && RingOk(Push(s, p)) && 0 < k <= Push(s, p).count && s.count == QUEUE_CAP - 1
    ensures var both := PushAll(PopMany(s, 1), [p, q]);
            k - 1 <= both.count && Waiting(Push(s, p))[..k] == Waiting(s)[..1] + Waiting(both)[..k - 1]
  {
    var first := PopMany(s, 1);
    PairWaiting(s, p, q);
    PairWaiting(first, p, q);
    PopManyWaiting(s, 1);
    assert Waiting(s)[..1] == [Waiting(s)[0]];
    SplitTakes(Waiting(s)[0], Waiting(first), [Stored(p)], [Stored(q)], k);
  }

  lemma TookAfter(s: Session, p: Pending, q: Pending, k: nat)
    requires RingOk(s) && s.inUse && RingOk(Push(s, p)) && k <= Push(s, p).count
    ensures k <= PushAll(s, [p, q]).count && Waiting(Push(s, p))[..k] == Waiting(s)[..0] + Waiting(PushAll(s, [p, q]))[..k]
  {
    PairWaiting(s, p, q);
  }

  lemma PairWaiting(s: Session, p: Pending, q: Pending)
    requires RingOk(s)
    ensures RingOk(Push(s, p)) && Waiting(Push(s, p)) == Waiting(s) + if Accepts(s) then [Stored(p)] else []
    ensures Waiting(PushAll(s, [p, q])) == Waiting(Push(s, p)) + if Accepts(Push(s, p)) then [Stored(q)] else []
  {
    PushPair(s, p, q);
    PushIsAppend(s, p);
    PushIsAppend(Push(s, p), q);
  }

  lemma SplitTakes(front: Pending, rest: seq<Pending>, ps: seq<Pending>, qs: seq<Pending>, k: nat)
    requires 0 < k <= 1 + |rest| + |ps|
    ensures ([front] + rest + ps)[..k] == [front] + (rest + ps + qs)[..k - 1]
  {
  }

  // ------------------------------------------------------------------
  // Runs that get there
  // ------------------------------------------------------------------

  /** One session registers, and `n` commands that are no switches are broadcast to it. */
  function Crowd(n: nat): seq<Event> {
    if n == 0 then [EvRegister(7, 7, "")] else Crowd(n - 1) + [EvBroadcast(Command(""))]
  }

  lemma OneMore(start: State, before: seq<Event>, e: Event, no: nat)
    requires SessionsOk(start.sessions)
    ensures After(start, before + [e]) == Step(After(start, before), e)
    ensures HistoryAfter(start, before + [e], no) == Noted(After(start, before), HistoryAfter(start, before, no), e, no)
  {
    var run := before + [e];
    assert run[..|run| - 1] == before && run[|run| - 1] == e;
  }

  /** The one session is live in the first slot with `n` commands waiting, and the fleet runs. */
  predicate Crowded(t: State, h: History, n: nat) {
    StateOk(t) && !t.paused && LiveAs(t.sessions[0], 1) && t.sessions[0].count == n && h.agrees
  }

  lemma FirstRegisters(start: State)
    requires Initial(start)
    ensures Crowded(After(start, Crowd(0)), HistoryAfter(start, Crowd(0), 1), 0)
  {
    var e := EvRegister(7, 7, "");
    assert Crowd(0)[..0] == [] && Crowd(0)[0] == e;
    RunOk(start, []);
    StepOk(start, e);
    NewSessionIs(start, e, start.sessions[0]);
    assert Welcome(start, 7) == [];
  }

  lemma CrowdGrows(t: State, h: History, n: nat)
    requires Crowded(t, h, n) && n < QUEUE_CAP
    ensures var e := EvBroadcast(Command(""));
            Crowded(Step(t, e), Noted(t, h, e, 1), n + 1)
  {
    var e := EvBroadcast(Command(""));
    StepOk(t, e);
    SlotStep(t, e, 0);
    PushAllOne(t.sessions[0], Command(""));
    assert SlotOf(t.sessions, 1, 0) == 0;
  }

  lemma CrowdMore(start: State, before: seq<Event>, n: nat)
    requires SessionsOk(start.sessions) && n < QUEUE_CAP
    requires Crowded(After(start, before), HistoryAfter(start, before, 1), n)
    ensures var run := before + [EvBroadcast(Command(""))];
            Crowded(After(start, run), HistoryAfter(start, run, 1), n + 1)
  {
    CrowdGrows(After(start, before), HistoryAfter(start, before, 1), n);
    OneMore(start, before, EvBroadcast(Command("")), 1);
  }

  lemma {:induction false} CrowdFills(start: State, run: seq<Event>, n: nat)
    requires Initial(start) && n <= QUEUE_CAP && run == Crowd(n)
    ensures Crowded(After(start, run), HistoryAfter(start, run, 1), n)
    decreases n
  {
    if n == 0 {
      FirstRegisters(start);
    } else {
      var before := Crowd(n - 1);
      CrowdFills(start, before, n - 1);
      CrowdMore(start, before, n - 1);
    }
  }

  lemma PushAllOne(s: Session, p: Pending)
    requires RingOk(s)
    ensures PushAll(s, [p]) == Push(s, p)
  {
    PushIsAppend(s, p);
    assert [p][1..] == [];
  }

  /** A reachable register in which a broadcast pause leaves the one live session disagreeing. */
  lemma FullQueueMissesSwitch(start: State)
    requires Initial(start)
    ensures var run := Crowd(QUEUE_CAP) + [EvBroadcast(Command("pause"))];
            After(start, run).paused && Live(After(start, run), 1) && !Told(HistoryAfter(start, run, 1).accepted)
  {
    var before, e := Crowd(QUEUE_CAP), EvBroadcast(Command("pause"));
    OneMore(start, before, e, 1);
    CrowdFills(start, before, QUEUE_CAP);
    RunOk(start, before);
    SessionsFollow(start, before, 1);
    assert "pause"[..5] == "pause";
    BroadcastExact(After(start, before), HistoryAfter(start, before, 1), Command("pause"), 1);
    SlotStep(After(start, before), e, 0);
  }

  /** A reachable session that takes only the first of the two commands of a dosage. */
  lemma HalfDosageReached(start: State, forks: int)
    requires Initial(start)
    ensures var s := After(start, Crowd(QUEUE_CAP - 1)).sessions[0];
            RingOk(s) && s.inUse && Taken(s, Dosage(forks)) == [Stored(Command(ConfigLine(forks)))]
  {
    CrowdFills(start, Crowd(QUEUE_CAP - 1), QUEUE_CAP - 1);
    var s := After(start, Crowd(QUEUE_CAP - 1)).sessions[0];
    HalfDosage(s, forks);
    TakenFits(s, Dosage(forks));
  }

  /** A reachable session that stops agreeing after a command to it alone: it is told to pause, the fleet is not. */
  lemma SendMissesFleet(start: State)
    requires Initial(start)
    ensures var run := Crowd(0) + [EvSend(Target(1, -1, ""), Command("pause"))];
            !After(start, run).paused && Live(After(start, run), 1) && Told(HistoryAfter(start, run, 1).accepted)
  {
    var before, e := Crowd(0), EvSend(Target(1, -1, ""), Command("pause"));
    OneMore(start, before, e, 1);
    CrowdFills(start, before, 0);
    SessionsFollow(start, before, 1);
    assert "pause"[..5] == "pause";
    var t := After(start, before);
    RunOk(start, before);
    OnlyOne(start, before);
    MatchedExact(t.sessions, e.tg, 0);
    SendExact(t, HistoryAfter(start, before, 1), e.tg, Command("pause"), 1);
    SlotStep(t, e, 0);
  }

  lemma OnlyOne(start: State, before: seq<Event>)
    requires Initial(start) && before == Crowd(0)
    ensures |After(start, before).sessions| == MAX_SESSIONS
    ensures forall i :: 0 < i < MAX_SESSIONS ==> !After(start, before).sessions[i].inUse
  {
    assert before[..0] == [] && before[0] == EvRegister(7, 7, "");
  }
}
