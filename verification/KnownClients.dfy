/**
 The register of known client machines as the server keeps it: a fixed array updated in place by each event,
 saved to and merged back from a list of records (`src/app/known_clients_registry.c`).
 */
module KnownClients {
  import opened KnownClientsModel

  /** The records a save writes: one per entry in use, in table order. */
  function Records(t: Table, n: nat): (recs: seq<Record>)
    requires n <= |t|
    ensures |recs| <= n
  {
    if n == 0 then [] else Records(t, n - 1) + if t[n - 1].inUse then [RecordOf(t[n - 1])] else []
  }

  /** The table after reading the first `n` records. */
  function Loads(t: Table, recs: seq<Record>, n: nat): Table
    requires n <= |recs|
  {
    if n == 0 then t else Step(Loads(t, recs, n - 1), EvLoad(recs[n - 1]))
  }

  lemma {:induction false} LoadsOk(t: Table, recs: seq<Record>, n: nat)
    requires TableOk(t) && n <= |recs|
    ensures TableOk(Loads(t, recs, n))
  {
    if n > 0 {
      LoadsOk(t, recs, n - 1);
      StepOk(Loads(t, recs, n - 1), EvLoad(recs[n - 1]));
    }
  }

  class Registry {
    var clients: array<Machine>
    var mutations: nat

    ghost predicate Valid()
      reads this, clients
    {
      clients.Length == MAX_KNOWN_CLIENTS && TableOk(clients[..])
    }

    constructor ()
      ensures Valid() && fresh(clients) && clients[..] == Empty() && mutations == 0
    {
      clients := new Machine[MAX_KNOWN_CLIENTS](i => Blank());
      mutations := 0;
      new;
      EmptyOk(Empty(), Blank());
      assert clients[..] == Empty();
    }

    method FindMachine(m: Uid) returns (idx: int)
      requires Valid()
      ensures idx == if Known(clients[..], m) then Find(clients[..], m, 0) else -1
    {
      ghost var t := clients[..];
      for i := 0 to clients.Length
        invariant forall j :: 0 <= j < i ==> !Is(t[j], m)
      {
        if clients[i].inUse && clients[i].uid == m {
          assert Is(t[i], m);
          return i;
        }
      }
      return -1;
    }

    /** A free entry, or the zeroed entry of the idle machine seen least recently; never a connected one. */
    method AllocateSlot() returns (idx: int)
      requires Valid()
      modifies clients
      ensures idx == Slot(old(clients[..]))
      ensures idx == -1 ==> clients[..] == old(clients[..])
      ensures idx != -1 ==> clients[..] == old(clients[..])[idx := Blank()]
    {
      ghost var t := clients[..];
      for i := 0 to clients.Length
        invariant forall j :: 0 <= j < i ==> t[j].inUse
      {
        if !clients[i].inUse {
          assert t[i] == Blank() && t == t[i := Blank()];
          return i;
        }
      }
      var victim := -1;
      var oldest := 0;
      for i := 0 to clients.Length
        invariant clients[..] == t
        invariant victim == Victim(t, i)
        invariant victim != -1 ==> oldest == t[victim].lastSeen
      {
        if clients[i].active == 0 && (victim == -1 || clients[i].lastSeen < oldest) {
          victim := i;
          oldest := clients[i].lastSeen;
        }
      }
      if victim != -1 {
        clients[victim] := Blank();
      }
      return victim;
    }

    static method FindSessionSlot(ss: seq<Session>, c: Uid) returns (k: int)
      ensures k == if FindSession(ss, c, 0) < |ss| then FindSession(ss, c, 0) else -1
    {
      for i := 0 to |ss|
        invariant forall j :: 0 <= j < i ==> !Live(ss[j], c)
      {
        if ss[i].inUse && ss[i].client == c {
          assert Live(ss[i], c);
          return i;
        }
      }
      return -1;
    }

    static method FreeSessionSlot(ss: seq<Session>) returns (k: int)
      ensures k == if FreeSession(ss, 0) < |ss| then FreeSession(ss, 0) else -1
    {
      for i := 0 to |ss|
        invariant forall j :: 0 <= j < i ==> ss[j].inUse
      {
        if !ss[i].inUse {
          return i;
        }
      }
      return -1;
    }

    /** The part of a hello that concerns an entry already chosen for the machine; false when no session slot is left. */
    method Greet(at: nat, id: Identity, now: int) returns (noted: bool)
      requires at < clients.Length
      modifies clients
      ensures clients[..] == old(clients[..])[at := Hello(old(clients[at]), id, now)]
      ensures noted == (Tracks(old(clients[at]), id.client) || HasRoom(old(clients[at])))
    {
      var mc := clients[at];
      mc := mc.(mode := id.mode, lastSeen := now, connections := mc.connections + 1);
      var slot := FindSessionSlot(mc.sessions, id.client);
      noted := true;
      if slot < 0 {
        slot := FreeSessionSlot(mc.sessions);
        if slot < 0 {
          noted := false;
        } else {
          mc := mc.(sessions := mc.sessions[slot := Session(true, id.client, id.mode, now, 0, 0)], active := mc.active + 1);
          mc := if id.mode == Search then mc.(search := mc.search + 1) else mc.(prune := mc.prune + 1);
        }
      } else {
        mc := mc.(sessions := mc.sessions[slot := mc.sessions[slot].(connectTime := now)]);
      }
      clients[at] := mc;
    }

    method OnConnect(id: Identity, now: int)
      requires Valid()
      modifies this`mutations, clients
      ensures Valid() && clients[..] == Step(old(clients[..]), EvHello(id, now))
      ensures mutations == old(mutations) + if Noted(old(clients[..]), EvHello(id, now)) then 1 else 0
    {
      ghost var t, e := clients[..], EvHello(id, now);
      StepOk(t, e);
      var idx := FindMachine(id.machine);
      if idx < 0 {
        idx := AllocateSlot();
        if idx < 0 {
          return;
        }
        clients[idx] := clients[idx].(inUse := true, uid := id.machine, firstSeen := now);
        assert clients[..] == t[idx := Arrived(id.machine, now)];
        ArrivedHasRoom(id.machine, now);
      }
      var noted := Greet(idx, id, now);
      assert clients[..] == Step(t, e);
      if noted {
        mutations := mutations + 1;
      }
    }

    /** A report from a client; unknown machines are ignored. */
    method OnStats(m: Uid, c: Uid, st: Stats, now: int)
      requires Valid()
      modifies this`mutations, clients
      ensures Valid() && clients[..] == Step(old(clients[..]), EvStats(m, c, st, now))
      ensures mutations == old(mutations) + if Noted(old(clients[..]), EvStats(m, c, st, now)) then 1 else 0
    {
      ghost var t, e := clients[..], EvStats(m, c, st, now);
      StepOk(t, e);
      var idx := FindMachine(m);
      if idx >= 0 {
        var slot := FindSessionSlot(clients[idx].sessions, c);
        var mc := clients[idx];
        if slot >= 0 {
          var s := mc.sessions[slot];
          if st.checked >= s.checked {
            mc := mc.(checked := Add64(mc.checked, st.checked - s.checked));
            s := s.(checked := st.checked);
          }
          if st.removed >= s.removed {
            mc := mc.(removed := Add64(mc.removed, st.removed - s.removed));
            s := s.(removed := st.removed);
          }
          mc := mc.(sessions := mc.sessions[slot := s]);
        }
        if st.maxResult > mc.best {
          mc := mc.(best := st.maxResult);
        }
        mc := mc.(lastSeen := now);
        clients[idx] := mc;
        mutations := mutations + 1;
      }
    }

    /** The end of a client's session; unknown machines are ignored. */
    method OnDisconnect(m: Uid, c: Uid, now: int)
      requires Valid()
      modifies this`mutations, clients
      ensures Valid() && clients[..] == Step(old(clients[..]), EvBye(m, c, now))
      ensures mutations == old(mutations) + if Noted(old(clients[..]), EvBye(m, c, now)) then 1 else 0
    {
      ghost var t, e := clients[..], EvBye(m, c, now);
      StepOk(t, e);
      var idx := FindMachine(m);
      if idx >= 0 {
        var slot := FindSessionSlot(clients[idx].sessions, c);
        var mc := clients[idx];
        if slot >= 0 {
          var s := mc.sessions[slot];
          if now - s.connectTime > 0 {
            mc := mc.(uptime := Add64(mc.uptime, (now - s.connectTime) % WORD));
          }
          mc := mc.(sessions := mc.sessions[slot := s.(inUse := false)], active := mc.active - 1);
          mc := if s.mode == Search then mc.(search := mc.search - 1) else mc.(prune := mc.prune - 1);
        }
        clients[idx] := mc.(lastSeen := now);
        mutations := mutations + 1;
      }
    }

    /** One persisted record: added to the machine's entry, or a new disconnected entry. */
    method ApplyRecord(rec: Record)
      requires Valid()
      modifies clients
      ensures Valid() && clients[..] == Step(old(clients[..]), EvLoad(rec))
    {
      ghost var t := clients[..];
      StepOk(t, EvLoad(rec));
      var idx := FindMachine(rec.uid);
      if idx < 0 {
        idx := AllocateSlot();
        if idx < 0 {
          return;
        }
        clients[idx] := Restored(rec);
        assert clients[..] == t[idx := Restored(rec)];
      } else {
        clients[idx] := Merged(clients[idx], rec);
      }
    }

    /** The records that could be read are merged one after the other. */
    method Load(recs: seq<Record>)
      requires Valid()
      modifies clients
      ensures Valid() && clients[..] == Loads(old(clients[..]), recs, |recs|)
    {
      for n := 0 to |recs|
        invariant Valid() && clients[..] == Loads(old(clients[..]), recs, n)
      {
        ApplyRecord(recs[n]);
      }
    }

    method Save() returns (recs: seq<Record>)
      requires Valid()
      ensures recs == Records(clients[..], MAX_KNOWN_CLIENTS)
    {
      recs := [];
      ghost var t := clients[..];
      for i := 0 to clients.Length
        invariant recs == Records(t, i)
      {
        if clients[i].inUse {
          recs := recs + [RecordOf(clients[i])];
        }
      }
    }
  }

  lemma ArrivedHasRoom(m: Uid, now: int)
    ensures HasRoom(Arrived(m, now))
  {
    var ss := NoSessions();
    assert !ss[0].inUse;
  }

  // ------------------------------------------------------------------
  // Saving and loading
  // ------------------------------------------------------------------

  /** The table made of these records and nothing else. */
  predicate Holds(t: Table, recs: seq<Record>) {
    && |recs| <= |t| == MAX_KNOWN_CLIENTS
    && (forall i :: 0 <= i < |recs| ==> t[i] == Restored(recs[i]))
    && (forall i :: |recs| <= i < |t| ==> t[i] == Blank())
  }

  lemma {:induction false} LoadsPrefix(t: Table, recs: seq<Record>, more: seq<Record>, n: nat)
    requires n <= |recs|
    ensures Loads(t, recs + more, n) == Loads(t, recs, n)
  {
    if n > 0 {
      LoadsPrefix(t, recs, more, n - 1);
    }
  }

  lemma {:induction false} RecordsFrom(t: Table, n: nat)
    requires n <= |t|
    ensures forall r :: r in Records(t, n) ==> exists i :: 0 <= i < n && t[i].inUse && r == RecordOf(t[i])
    ensures forall i :: 0 <= i < n && t[i].inUse ==> RecordOf(t[i]) in Records(t, n)
  {
    if n > 0 {
      RecordsFrom(t, n - 1);
    }
  }

  lemma LoadedNext(t: Table, recs: seq<Record>, rec: Record)
    requires Holds(t, recs) && |recs| < |t| && forall i :: 0 <= i < |recs| ==> recs[i].uid != rec.uid
    ensures Holds(Step(t, EvLoad(rec)), recs + [rec])
  {
    assert !Known(t, rec.uid);
    assert !t[|recs|].inUse && forall i :: 0 <= i < |recs| ==> t[i].inUse;
    assert FirstFree(t, 0) == |recs|;
  }

  lemma RecordsNew(t: Table, n: nat)
    requires TableOk(t) && n < |t| && t[n].inUse
    ensures forall i :: 0 <= i < |Records(t, n)| ==> Records(t, n)[i].uid != t[n].uid
  {
    RecordsFrom(t, n);
    var recs := Records(t, n);
    forall i | 0 <= i < |recs| ensures recs[i].uid != t[n].uid {
      assert recs[i] in recs;
    }
  }

  lemma LoadsMore(empty: Table, recs: seq<Record>, rec: Record)
    ensures Loads(empty, recs + [rec], |recs| + 1) == Step(Loads(empty, recs, |recs|), EvLoad(rec))
  {
    LoadsPrefix(empty, recs, [rec], |recs|);
  }

  lemma SaveLoadNext(t: Table, empty: Table, n: nat, recs: seq<Record>)
    requires TableOk(t) && n < |t| && t[n].inUse && recs == Records(t, n) && Holds(Loads(empty, recs, |recs|), recs)
    ensures var more := recs + [RecordOf(t[n])]; Holds(Loads(empty, more, |more|), more)
  {
    var rec := RecordOf(t[n]);
    LoadsMore(empty, recs, rec);
    RecordsNew(t, n);
    LoadedNext(Loads(empty, recs, |recs|), recs, rec);
  }

  lemma {:induction false} SaveLoadHolds(t: Table, empty: Table, n: nat)
    requires TableOk(t) && n <= |t| && Holds(empty, [])
    ensures Holds(Loads(empty, Records(t, n), |Records(t, n)|), Records(t, n))
  {
    if n > 0 {
      SaveLoadHolds(t, empty, n - 1);
      var recs := Records(t, n - 1);
      if t[n - 1].inUse {
        SaveLoadNext(t, empty, n - 1, recs);
      } else {
        assert recs + [] == recs;
      }
    }
  }

  /** The same machine with the same cumulative values. */
  predicate SameValues(a: Machine, b: Machine) {
    && a.uid == b.uid && a.mode == b.mode && a.connections == b.connections
    && a.firstSeen == b.firstSeen && a.lastSeen == b.lastSeen
    && a.checked == b.checked && a.removed == b.removed && a.best == b.best && a.uptime == b.uptime
  }

  predicate Disconnected(mc: Machine) {
    mc.active == 0 && mc.search == 0 && mc.prune == 0 && forall k :: 0 <= k < |mc.sessions| ==> !mc.sessions[k].inUse
  }

  lemma RestoredSame(mc: Machine)
    ensures SameValues(Restored(RecordOf(mc)), mc) && Disconnected(Restored(RecordOf(mc)))
  {
  }

  lemma HeldKnown(t: Table, back: Table, recs: seq<Record>, m: Uid)
    requires TableOk(t) && TableOk(back) && Holds(back, recs) && recs == Records(t, |t|) && Known(t, m)
    ensures Known(back, m) && SameValues(Entry(back, m), Entry(t, m)) && Disconnected(Entry(back, m))
  {
    RecordsFrom(t, |t|);
    var rec := RecordOf(Entry(t, m));
    var i :| 0 <= i < |recs| && recs[i] == rec;
    assert back[i] == Restored(rec);
    assert Is(back[i], m);
    FoundAt(back, m, i);
    RestoredSame(Entry(t, m));
  }

  lemma HeldOnly(t: Table, back: Table, recs: seq<Record>, m: Uid)
    requires TableOk(t) && TableOk(back) && Holds(back, recs) && recs == Records(t, |t|) && Known(back, m)
    ensures Known(t, m)
  {
    RecordsFrom(t, |t|);
    var i := Find(back, m, 0);
    assert i < |recs| && recs[i] in recs;
    var j :| 0 <= j < |t| && t[j].inUse && recs[i] == RecordOf(t[j]);
    assert Is(t[j], m);
  }

  /**
   Loading what was saved into an empty register knows the same machines with the same cumulative values,
   all of them disconnected.
   */
  lemma SaveLoad(t: Table, empty: Table, m: Uid)
    requires TableOk(t) && empty == Empty()
    ensures var back := Loads(empty, Records(t, |t|), |Records(t, |t|)|);
            && TableOk(back)
            && (Known(back, m) <==> Known(t, m))
            && (Known(t, m) ==> SameValues(Entry(back, m), Entry(t, m)) && Disconnected(Entry(back, m)))
  {
    var recs := Records(t, |t|);
    var back := Loads(empty, recs, |recs|);
    EmptyOk(empty, Blank());
    LoadsOk(empty, recs, |recs|);
    SaveLoadHolds(t, empty, |t|);
    if Known(t, m) {
      HeldKnown(t, back, recs, m);
    }
    if Known(back, m) {
      HeldOnly(t, back, recs, m);
    }
  }
}
