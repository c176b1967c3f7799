/**
 What the cumulative values of the known-clients register mean: an account per machine, kept from the events
 alone (what was loaded, which sessions were tracked since when, what each of them reported and when it ended), and
 the proof that the register always agrees with it, its delta arithmetic and its 64-bit sums included.
 */
module KnownClientsTotals {
  import opened KnownClientsModel

  datatype Counter = Checked | Removed

  function Total(mc: Machine, w: Counter): Word { if w.Checked? then mc.checked else mc.removed }

  function Last(s: Session, w: Counter): Word { if w.Checked? then s.checked else s.removed }

  function Value(st: Stats, w: Counter): Word { if w.Checked? then st.checked else st.removed }

  function Loaded(rec: Record, w: Counter): Word { if w.Checked? then rec.checked else rec.removed }

  /** One tracked session: whose, whether it still runs, every value it reported, and when its client last said hello. */
  datatype Log = Log(client: Uid, open: bool, reports: seq<Word>, since: int)

  /**
   What a machine has contributed since its entry was created: the total loaded, its sessions, the best results
   loaded or reported, the seconds its ended sessions lasted, its connections, and when and how it was seen.
   */
  datatype Account = Account(loaded: nat, logs: seq<Log>, claims: seq<Word>, up: nat, visits: int,
                             first: int, last: int, mode: Mode)

  const NO_ACCOUNT := Account(0, [], [], 0, 0, 0, 0, Search)

  /** The largest value reported; 0 when none was. */
  function Peak(vs: seq<Word>): (p: Word)
    ensures forall v :: v in vs ==> v <= p
    ensures p == 0 || p in vs
  {
    if vs == [] then 0
    else
      var p := Peak(vs[..|vs| - 1]);
      assert vs == vs[..|vs| - 1] + [vs[|vs| - 1]];
      if vs[|vs| - 1] >= p then vs[|vs| - 1] else p
  }

  function Sum(logs: seq<Log>, n: nat): nat
    requires n <= |logs|
  {
    if n == 0 then 0 else Sum(logs, n - 1) + Peak(logs[n - 1].reports)
  }

  function Worth(a: Account): nat { a.loaded + Sum(a.logs, |a.logs|) }

  predicate OpenFor(l: Log, c: Uid) { l.open && l.client == c }

  function OpenLog(logs: seq<Log>, c: Uid, i: nat): (k: nat)
    requires i <= |logs|
    ensures i <= k <= |logs| && (k < |logs| ==> OpenFor(logs[k], c))
    ensures forall j :: i <= j < k ==> !OpenFor(logs[j], c)
    decreases |logs| - i
  {
    if i == |logs| || OpenFor(logs[i], c) then i else OpenLog(logs, c, i + 1)
  }

  function Opens(logs: seq<Log>, n: nat): nat
    requires n <= |logs|
  {
    if n == 0 then 0 else Opens(logs, n - 1) + if logs[n - 1].open then 1 else 0
  }

  /** A hello of a tracked client restarts its time; another client is tracked while fewer than eight are. */
  function Greeting(logs: seq<Log>, c: Uid, now: int): seq<Log> {
    var i := OpenLog(logs, c, 0);
    if i < |logs| then logs[i := logs[i].(since := now)]
    else if Opens(logs, |logs|) < 8 then logs + [Log(c, true, [], now)]
    else logs
  }

  function Reporting(logs: seq<Log>, c: Uid, v: Word): seq<Log> {
    var i := OpenLog(logs, c, 0);
    if i < |logs| then logs[i := logs[i].(reports := logs[i].reports + [v])] else logs
  }

  function Leaving(logs: seq<Log>, c: Uid): seq<Log> {
    var i := OpenLog(logs, c, 0);
    if i < |logs| then logs[i := logs[i].(open := false)] else logs
  }

  /** How long the session of a client lasted; 0 if it is not tracked or the clock went back. */
  function Lasted(logs: seq<Log>, c: Uid, now: int): nat {
    var i := OpenLog(logs, c, 0);
    if i < |logs| && now > logs[i].since then now - logs[i].since else 0
  }

  function Earliest(a: int, b: int): int { if a == 0 || b < a then b else a }

  function Latest(a: int, b: int): int { if b > a then b else a }

  /** The account after one event; an event that creates the machine's entry opens a new account. */
  function Booked(known: bool, a: Account, e: Event, m: Uid, w: Counter): Account {
    if About(e) != m then a
    else
      match e
      case EvHello(id, now) =>
        if known then a.(logs := Greeting(a.logs, id.client, now), visits := a.visits + 1, last := now, mode := id.mode)
        else Account(0, [Log(id.client, true, [], now)], [], 0, 1, now, now, id.mode)
      case EvStats(_, c, st, now) =>
        a.(logs := Reporting(a.logs, c, Value(st, w)), claims := a.claims + [st.maxResult], last := now)
      case EvBye(_, c, now) =>
        a.(logs := Leaving(a.logs, c), up := a.up + Lasted(a.logs, c, now), last := now)
      case EvLoad(rec) =>
        if known then
          a.(loaded := a.loaded + Loaded(rec, w), claims := a.claims + [rec.best], up := a.up + rec.uptime,
             visits := a.visits + rec.connections, first := Earliest(a.first, rec.firstSeen), last := Latest(a.last, rec.lastSeen))
        else Account(Loaded(rec, w), [], [rec.best], rec.uptime, rec.connections, rec.firstSeen, rec.lastSeen, rec.mode)
  }

  function AccountAfter(events: seq<Event>, m: Uid, w: Counter): Account {
    if events == [] then NO_ACCOUNT
    else
      var before := events[..|events| - 1];
      Booked(Known(After(before), m), AccountAfter(before, m, w), events[|events| - 1], m, w)
  }

  // ------------------------------------------------------------------
  // Register and account agree
  // ------------------------------------------------------------------

  predicate Follows(ss: seq<Session>, k: nat, l: Log, w: Counter)
    requires k < |ss|
  {
    Live(ss[k], l.client) && Last(ss[k], w) == Peak(l.reports) && ss[k].connectTime == l.since
  }

  predicate Followed(ss: seq<Session>, l: Log, w: Counter) {
    exists k: nat :: k < |ss| && Follows(ss, k, l, w)
  }

  /** The open logs are the sessions in use, each session holding the peak of its log. */
  predicate Matches(ss: seq<Session>, logs: seq<Log>, w: Counter) {
    && (forall i :: 0 <= i < |logs| && logs[i].open ==> Followed(ss, logs[i], w))
    && (forall i, j :: 0 <= i < j < |logs| && logs[i].open && logs[j].open ==> logs[i].client != logs[j].client)
    && (forall k :: 0 <= k < |ss| && ss[k].inUse ==> OpenLog(logs, ss[k].client, 0) < |logs|)
  }

  /** The values that do not grow by reports: time, best result, connections, sessions in use, and how it was last seen. */
  predicate Recorded(mc: Machine, a: Account) {
    && mc.uptime == a.up % WORD && mc.best == Peak(a.claims) && mc.connections == a.visits
    && mc.firstSeen == a.first && mc.lastSeen == a.last && mc.mode == a.mode
    && mc.active == Opens(a.logs, |a.logs|)
  }

  predicate Agrees(mc: Machine, a: Account, w: Counter) {
    Total(mc, w) == Worth(a) % WORD && Recorded(mc, a) && Matches(mc.sessions, a.logs, w)
  }

  lemma {:induction false} SumUpdate(logs: seq<Log>, i: nat, l: Log, n: nat)
    requires i < |logs| && n <= |logs|
    ensures Sum(logs[i := l], n) == Sum(logs, n) + if i < n then Peak(l.reports) - Peak(logs[i].reports) else 0
  {
    if n > 0 {
      SumUpdate(logs, i, l, n - 1);
    }
  }

  lemma {:induction false} OpensUpdate(logs: seq<Log>, i: nat, l: Log, n: nat)
    requires i < |logs| && n <= |logs|
    ensures Opens(logs[i := l], n) == Opens(logs, n) + if i < n then (if l.open then 1 else 0) - (if logs[i].open then 1 else 0) else 0
  {
    if n > 0 {
      OpensUpdate(logs, i, l, n - 1);
    }
  }

  lemma {:induction false} OpensPrefix(logs: seq<Log>, l: Log, n: nat)
    requires n <= |logs|
    ensures Opens(logs + [l], n) == Opens(logs, n)
  {
    if n > 0 {
      OpensPrefix(logs, l, n - 1);
    }
  }

  lemma {:induction false} FullInUse(ss: seq<Session>, n: nat)
    requires n <= |ss|
    ensures InUse(ss, n) <= n && (InUse(ss, n) == n <==> forall k :: 0 <= k < n ==> ss[k].inUse)
  {
    if n > 0 {
      FullInUse(ss, n - 1);
    }
  }

  /** There is room for a session exactly while fewer than eight are in use. */
  lemma RoomExact(mc: Machine)
    requires MachineOk(mc)
    ensures HasRoom(mc) <==> mc.active < 8
  {
    FullInUse(mc.sessions, MAX_SESSIONS);
  }

  lemma {:induction false} SumPrefix(logs: seq<Log>, l: Log, n: nat)
    requires n <= |logs|
    ensures Sum(logs + [l], n) == Sum(logs, n)
  {
    if n > 0 {
      SumPrefix(logs, l, n - 1);
    }
  }

  lemma PeakMore(vs: seq<Word>, v: Word)
    ensures Peak(vs + [v]) == Raise(Peak(vs), v)
  {
    assert (vs + [v])[..|vs|] == vs;
  }

  lemma AddMod(a: nat, d: nat)
    ensures (a % WORD + d) % WORD == (a + d) % WORD
  {
    var q := a / WORD;
    assert a == q * WORD + a % WORD;
    assert (a + d) - (a % WORD + d) == q * WORD;
    ModShift(a % WORD + d, q);
  }

  lemma {:induction false} ModShift(x: nat, q: nat)
    ensures (x + q * WORD) % WORD == x % WORD
    decreases q
  {
    if q > 0 {
      ModShift(x, q - 1);
      var y := x + (q - 1) * WORD;
      assert x + q * WORD == y + WORD;
      assert (y + WORD) % WORD == y % WORD;
    }
  }

  /** A session is tracked exactly when its log is open. */
  lemma TrackedIffOpen(ss: seq<Session>, logs: seq<Log>, c: Uid, w: Counter)
    requires Matches(ss, logs, w)
    ensures FindSession(ss, c, 0) < |ss| <==> OpenLog(logs, c, 0) < |logs|
  {
    var i := OpenLog(logs, c, 0);
    if i < |logs| {
      assert Followed(ss, logs[i], w);
    }
  }

  lemma {:induction false} OpenedMatches(ss: seq<Session>, logs: seq<Log>, k: nat, s: Session, w: Counter)
    requires Matches(ss, logs, w) && k < |ss| && !ss[k].inUse && s.inUse && Last(s, w) == 0
    requires OpenLog(logs, s.client, 0) == |logs|
    ensures Matches(ss[k := s], logs + [Log(s.client, true, [], s.connectTime)], w)
  {
    var now, more := ss[k := s], logs + [Log(s.client, true, [], s.connectTime)];
    forall i | 0 <= i < |more| && more[i].open ensures Followed(now, more[i], w) {
      if i < |logs| {
        assert Followed(ss, logs[i], w);
        var j: nat :| j < |ss| && Follows(ss, j, logs[i], w);
        assert Follows(now, j, more[i], w);
      } else {
        assert Follows(now, k, more[i], w);
      }
    }
    forall j | 0 <= j < |now| && now[j].inUse ensures OpenLog(more, now[j].client, 0) < |more| {
      if j == k {
        assert OpenFor(more[|logs|], s.client);
      } else {
        assert OpenFor(more[OpenLog(logs, ss[j].client, 0)], ss[j].client);
      }
    }
  }

  lemma {:induction false} ReportedMatches(ss: seq<Session>, logs: seq<Log>, k: nat, s: Session, i: nat, l: Log, w: Counter)
    requires Matches(ss, logs, w) && k < |ss| && i < |logs| && UniqueClients(ss)
    requires ss[k].inUse && s.inUse && s.client == ss[k].client && OpenFor(logs[i], s.client)
    requires l.open && l.client == s.client && Last(s, w) == Peak(l.reports) && s.connectTime == l.since
    ensures Matches(ss[k := s], logs[i := l], w)
  {
    var now, more := ss[k := s], logs[i := l];
    forall j | 0 <= j < |more| && more[j].open ensures Followed(now, more[j], w) {
      if j == i {
        assert Follows(now, k, more[j], w);
      } else {
        assert Followed(ss, logs[j], w);
        var h: nat :| h < |ss| && Follows(ss, h, logs[j], w);
        assert Follows(now, h, more[j], w);
      }
    }
    forall j | 0 <= j < |now| && now[j].inUse ensures OpenLog(more, now[j].client, 0) < |more| {
      assert OpenFor(more[OpenLog(logs, ss[j].client, 0)], ss[j].client);
    }
  }

  lemma {:induction false} ClosedMatches(ss: seq<Session>, logs: seq<Log>, k: nat, s: Session, i: nat, l: Log, w: Counter)
    requires Matches(ss, logs, w) && k < |ss| && i < |logs| && UniqueClients(ss)
    requires ss[k].inUse && !s.inUse && OpenFor(logs[i], ss[k].client) && !l.open
    ensures Matches(ss[k := s], logs[i := l], w)
  {
    var now, more := ss[k := s], logs[i := l];
    forall j | 0 <= j < |more| && more[j].open ensures Followed(now, more[j], w) {
      assert Followed(ss, logs[j], w);
      var h: nat :| h < |ss| && Follows(ss, h, logs[j], w);
      assert Follows(now, h, more[j], w);
    }
    forall j | 0 <= j < |now| && now[j].inUse ensures OpenLog(more, now[j].client, 0) < |more| {
      assert OpenFor(more[OpenLog(logs, ss[j].client, 0)], ss[j].client);
    }
  }

  lemma GreetingMatches(mc: Machine, logs: seq<Log>, id: Identity, now: int, w: Counter)
    requires MachineOk(mc) && Matches(mc.sessions, logs, w) && mc.active == Opens(logs, |logs|)
    ensures Matches(Hello(mc, id, now).sessions, Greeting(logs, id.client, now), w)
    ensures Hello(mc, id, now).active == Opens(Greeting(logs, id.client, now), |Greeting(logs, id.client, now)|)
    ensures Sum(Greeting(logs, id.client, now), |Greeting(logs, id.client, now)|) == Sum(logs, |logs|)
  {
    TrackedIffOpen(mc.sessions, logs, id.client, w);
    RoomExact(mc);
    var k, i := FindSession(mc.sessions, id.client, 0), OpenLog(logs, id.client, 0);
    if k < |mc.sessions| {
      var s, l := mc.sessions[k].(connectTime := now), logs[i].(since := now);
      assert Followed(mc.sessions, logs[i], w);
      ReportedMatches(mc.sessions, logs, k, s, i, l, w);
      OpensUpdate(logs, i, l, |logs|);
      SumUpdate(logs, i, l, |logs|);
    } else if HasRoom(mc) {
      var s := Session(true, id.client, id.mode, now, 0, 0);
      OpenedMatches(mc.sessions, logs, FreeSession(mc.sessions, 0), s, w);
      OpensPrefix(logs, Log(id.client, true, [], now), |logs|);
      SumPrefix(logs, Log(id.client, true, [], now), |logs|);
    }
  }

  lemma HelloRecorded(mc: Machine, a: Account, b: Account, id: Identity, now: int)
    requires Recorded(mc, a) && b == a.(logs := b.logs, visits := a.visits + 1, last := now, mode := id.mode)
    requires Hello(mc, id, now).active == Opens(b.logs, |b.logs|)
    ensures Recorded(Hello(mc, id, now), b)
  {
  }

  lemma HelloTotal(mc: Machine, id: Identity, now: int, w: Counter)
    ensures Total(Hello(mc, id, now), w) == Total(mc, w)
  {
  }

  lemma GreetingAgrees(mc: Machine, a: Account, b: Account, id: Identity, now: int, w: Counter)
    requires MachineOk(mc) && Agrees(mc, a, w)
    requires b == a.(logs := Greeting(a.logs, id.client, now), visits := a.visits + 1, last := now, mode := id.mode)
    ensures Total(Hello(mc, id, now), w) == Worth(b) % WORD && Recorded(Hello(mc, id, now), b)
    ensures Matches(Hello(mc, id, now).sessions, b.logs, w)
  {
    GreetingMatches(mc, a.logs, id, now, w);
    HelloTotal(mc, id, now, w);
    HelloRecorded(mc, a, b, id, now);
  }

  lemma HelloAgrees(mc: Machine, a: Account, b: Account, id: Identity, now: int, w: Counter)
    requires MachineOk(mc) && Agrees(mc, a, w) && b == Booked(true, a, EvHello(id, now), id.machine, w)
    ensures Agrees(Hello(mc, id, now), b, w)
  {
    GreetingAgrees(mc, a, b, id, now, w);
  }

  lemma CountedCounter(mc: Machine, k: nat, st: Stats, w: Counter)
    requires k < |mc.sessions|
    ensures Total(Counted(mc, k, st), w) == Add64(Total(mc, w), Gain(Last(mc.sessions[k], w), Value(st, w)))
    ensures var s := Counted(mc, k, st).sessions[k];
            s.inUse == mc.sessions[k].inUse && s.client == mc.sessions[k].client
            && Last(s, w) == Raise(Last(mc.sessions[k], w), Value(st, w))
  {
  }

  lemma ReportingSum(logs: seq<Log>, c: Uid, v: Word)
    ensures var more, i := Reporting(logs, c, v), OpenLog(logs, c, 0);
            && Sum(more, |more|) == Sum(logs, |logs|) + (if i < |logs| then Gain(Peak(logs[i].reports), v) else 0)
            && Opens(more, |more|) == Opens(logs, |logs|)
  {
    var i := OpenLog(logs, c, 0);
    if i < |logs| {
      var l := logs[i].(reports := logs[i].reports + [v]);
      PeakMore(logs[i].reports, v);
      SumUpdate(logs, i, l, |logs|);
      OpensUpdate(logs, i, l, |logs|);
    }
  }

  lemma CountedMatches(mc: Machine, logs: seq<Log>, c: Uid, k: nat, st: Stats, w: Counter)
    requires MachineOk(mc) && Matches(mc.sessions, logs, w) && k == FindSession(mc.sessions, c, 0) < |mc.sessions|
    ensures OpenLog(logs, c, 0) < |logs| && Last(mc.sessions[k], w) == Peak(logs[OpenLog(logs, c, 0)].reports)
    ensures Matches(Counted(mc, k, st).sessions, Reporting(logs, c, Value(st, w)), w)
  {
    TrackedIffOpen(mc.sessions, logs, c, w);
    var s, v, i := mc.sessions[k], Value(st, w), OpenLog(logs, c, 0);
    assert Last(s, w) == Peak(logs[i].reports) && s.connectTime == logs[i].since by { assert Followed(mc.sessions, logs[i], w); }
    CountedCounter(mc, k, st, w);
    PeakMore(logs[i].reports, v);
    ReportedMatches(mc.sessions, logs, k, Counted(mc, k, st).sessions[k], i, logs[i].(reports := logs[i].reports + [v]), w);
  }

  lemma AddGain(total: Word, worth: nat, gain: Word)
    requires total == worth % WORD
    ensures Add64(total, gain) == (worth + gain) % WORD
  {
    AddMod(worth, gain);
  }

  lemma ReportingWorth(a: Account, b: Account, c: Uid, v: Word)
    requires b.loaded == a.loaded && b.logs == Reporting(a.logs, c, v) && OpenLog(a.logs, c, 0) < |a.logs|
    ensures Worth(b) == Worth(a) + Gain(Peak(a.logs[OpenLog(a.logs, c, 0)].reports), v)
  {
    ReportingSum(a.logs, c, v);
  }

  lemma CountedTotal(mc: Machine, a: Account, b: Account, c: Uid, k: nat, st: Stats, w: Counter)
    requires k < |mc.sessions| && Total(mc, w) == Worth(a) % WORD && OpenLog(a.logs, c, 0) < |a.logs|
    requires Last(mc.sessions[k], w) == Peak(a.logs[OpenLog(a.logs, c, 0)].reports)
    requires b.loaded == a.loaded && b.logs == Reporting(a.logs, c, Value(st, w))
    ensures Total(Counted(mc, k, st), w) == Worth(b) % WORD
  {
    CountedCounter(mc, k, st, w);
    ReportingWorth(a, b, c, Value(st, w));
    AddGain(Total(mc, w), Worth(a), Gain(Last(mc.sessions[k], w), Value(st, w)));
  }

  lemma ReportedSums(mc: Machine, a: Account, b: Account, c: Uid, st: Stats, now: int, w: Counter)
    requires MachineOk(mc) && Total(mc, w) == Worth(a) % WORD && Matches(mc.sessions, a.logs, w)
    requires b.loaded == a.loaded && b.logs == Reporting(a.logs, c, Value(st, w))
    ensures Total(Reported(mc, c, st, now), w) == Worth(b) % WORD
    ensures Matches(Reported(mc, c, st, now).sessions, b.logs, w)
  {
    TrackedIffOpen(mc.sessions, a.logs, c, w);
    var k := FindSession(mc.sessions, c, 0);
    if k < |mc.sessions| {
      CountedMatches(mc, a.logs, c, k, st, w);
      CountedTotal(mc, a, b, c, k, st, w);
    }
  }

  lemma ReportedRecorded(mc: Machine, a: Account, b: Account, c: Uid, st: Stats, now: int)
    requires Recorded(mc, a) && b == a.(logs := b.logs, claims := a.claims + [st.maxResult], last := now)
    requires Opens(b.logs, |b.logs|) == Opens(a.logs, |a.logs|)
    ensures Recorded(Reported(mc, c, st, now), b)
  {
    PeakMore(a.claims, st.maxResult);
  }

  lemma ReportedAgrees(mc: Machine, a: Account, b: Account, m: Uid, c: Uid, st: Stats, now: int, w: Counter)
    requires MachineOk(mc) && Agrees(mc, a, w) && b == Booked(true, a, EvStats(m, c, st, now), m, w)
    ensures Agrees(Reported(mc, c, st, now), b, w)
  {
    ReportingSum(a.logs, c, Value(st, w));
    ReportedSums(mc, a, b, c, st, now, w);
    ReportedRecorded(mc, a, b, c, st, now);
  }

  lemma AddTwice(a: nat, d: nat)
    ensures Add64(a % WORD, d % WORD) == (a + d) % WORD
  {
    AddMod(a, d % WORD);
    AddMod(d, a);
  }

  lemma LeavingSum(logs: seq<Log>, c: Uid)
    ensures var more, i := Leaving(logs, c), OpenLog(logs, c, 0);
            && Sum(more, |more|) == Sum(logs, |logs|)
            && Opens(more, |more|) == Opens(logs, |logs|) - if i < |logs| then 1 else 0
  {
    var i := OpenLog(logs, c, 0);
    if i < |logs| {
      SumUpdate(logs, i, logs[i].(open := false), |logs|);
      OpensUpdate(logs, i, logs[i].(open := false), |logs|);
    }
  }

  lemma ByeMatches(mc: Machine, logs: seq<Log>, c: Uid, now: int, w: Counter)
    requires MachineOk(mc) && Matches(mc.sessions, logs, w)
    ensures Matches(Bye(mc, c, now).sessions, Leaving(logs, c), w)
  {
    TrackedIffOpen(mc.sessions, logs, c, w);
    var k, i := FindSession(mc.sessions, c, 0), OpenLog(logs, c, 0);
    if k < |mc.sessions| {
      ClosedMatches(mc.sessions, logs, k, mc.sessions[k].(inUse := false), i, logs[i].(open := false), w);
    }
  }

  lemma ByeUptime(mc: Machine, logs: seq<Log>, up: nat, c: Uid, now: int, w: Counter)
    requires MachineOk(mc) && mc.uptime == up % WORD && Matches(mc.sessions, logs, w)
    ensures Bye(mc, c, now).uptime == (up + Lasted(logs, c, now)) % WORD
  {
    TrackedIffOpen(mc.sessions, logs, c, w);
    var k, i := FindSession(mc.sessions, c, 0), OpenLog(logs, c, 0);
    if k < |mc.sessions| {
      assert mc.sessions[k].connectTime == logs[i].since by { assert Followed(mc.sessions, logs[i], w); }
      AddTwice(up, Lasted(logs, c, now));
    }
  }

  lemma ByeRecorded(mc: Machine, a: Account, b: Account, c: Uid, now: int, w: Counter)
    requires MachineOk(mc) && Recorded(mc, a) && Matches(mc.sessions, a.logs, w)
    requires b == a.(logs := Leaving(a.logs, c), up := a.up + Lasted(a.logs, c, now), last := now)
    ensures Recorded(Bye(mc, c, now), b)
  {
    TrackedIffOpen(mc.sessions, a.logs, c, w);
    LeavingSum(a.logs, c);
    ByeUptime(mc, a.logs, a.up, c, now, w);
  }

  lemma ByeAgrees(mc: Machine, a: Account, b: Account, m: Uid, c: Uid, now: int, w: Counter)
    requires MachineOk(mc) && Agrees(mc, a, w) && b == Booked(true, a, EvBye(m, c, now), m, w)
    ensures Agrees(Bye(mc, c, now), b, w)
  {
    LeavingSum(a.logs, c);
    ByeMatches(mc, a.logs, c, now, w);
    ByeRecorded(mc, a, b, c, now, w);
  }

  lemma MergedAgrees(mc: Machine, a: Account, rec: Record, m: Uid, w: Counter)
    requires Agrees(mc, a, w) && m == rec.uid
    ensures Agrees(Merged(mc, rec), Booked(true, a, EvLoad(rec), m, w), w)
  {
    AddMod(Worth(a), Loaded(rec, w));
    AddMod(a.up, rec.uptime);
    PeakMore(a.claims, rec.best);
  }

  lemma KnownAgrees(t: Table, a: Account, e: Event, m: Uid, w: Counter)
    requires TableOk(t) && Known(t, m) && About(e) == m && Agrees(Entry(t, m), a, w)
    ensures Agrees(OnKnown(Entry(t, m), e), Booked(true, a, e, m, w), w)
  {
    var mc, b := Entry(t, m), Booked(true, a, e, m, w);
    match e
    case EvHello(id, now) => HelloAgrees(mc, a, b, id, now, w);
    case EvStats(_, c, st, now) => ReportedAgrees(mc, a, b, m, c, st, now, w);
    case EvBye(_, c, now) => ByeAgrees(mc, a, b, m, c, now, w);
    case EvLoad(rec) => MergedAgrees(mc, a, rec, m, w);
  }

  lemma UnusedAgrees(mc: Machine, a: Account, w: Counter)
    requires mc.sessions == NoSessions() && mc.active == 0 && Recorded(mc, a) && a.logs == [] && a.loaded == Total(mc, w)
    ensures Agrees(mc, a, w)
  {
    var ss := mc.sessions;
    assert forall k :: 0 <= k < |ss| ==> !ss[k].inUse;
    assert Sum([], 0) == 0;
  }

  lemma ArrivedAgrees(id: Identity, now: int, mc: Machine, a: Account, w: Counter)
    requires mc == Arrived(id.machine, now) && a == Account(0, [], [], 0, 0, now, 0, Search)
    ensures MachineOk(mc) && Agrees(mc, a, w)
  {
    UnusedOk(mc);
    NoReports(a);
    UnusedAgrees(mc, a, w);
  }

  lemma NoReports(a: Account)
    requires a.claims == [] && a.logs == []
    ensures Peak(a.claims) == 0 && Opens(a.logs, |a.logs|) == 0
  {
  }

  lemma RestoredRecorded(rec: Record, mc: Machine, a: Account)
    requires mc == Restored(rec) && a == Account(a.loaded, [], [rec.best], rec.uptime, rec.connections, rec.firstSeen, rec.lastSeen, rec.mode)
    ensures Recorded(mc, a)
  {
    NoReports(a.(claims := []));
    assert [] + [rec.best] == [rec.best];
    PeakMore([], rec.best);
    SmallMod(rec.uptime);
  }

  lemma RestoredAgrees(rec: Record, mc: Machine, a: Account, w: Counter)
    requires mc == Restored(rec) && a == Booked(false, NO_ACCOUNT, EvLoad(rec), rec.uid, w)
    ensures Agrees(mc, a, w)
  {
    RestoredRecorded(rec, mc, a);
    UnusedAgrees(mc, a, w);
  }

  lemma FirstGreeting(a: Account, id: Identity, now: int, w: Counter)
    requires a == Account(0, [], [], 0, 0, now, 0, Search)
    ensures Booked(true, a, EvHello(id, now), id.machine, w) == Booked(false, a, EvHello(id, now), id.machine, w)
  {
    NoReports(a);
    assert [] + [Log(id.client, true, [], now)] == [Log(id.client, true, [], now)];
  }

  lemma NewcomerAgrees(a: Account, e: Event, w: Counter)
    requires e.EvHello? || e.EvLoad?
    ensures Agrees(Newcomer(e), Booked(false, a, e, About(e), w), w)
  {
    match e
    case EvHello(id, now) =>
      var mc, none := Arrived(id.machine, now), Account(0, [], [], 0, 0, now, 0, Search);
      ArrivedAgrees(id, now, mc, none, w);
      HelloAgrees(mc, none, Booked(true, none, e, id.machine, w), id, now, w);
      FirstGreeting(none, id, now, w);
    case EvLoad(rec) =>
      RestoredAgrees(rec, Restored(rec), Booked(false, NO_ACCOUNT, e, rec.uid, w), w);
  }

  /** One event keeps a machine's entry and its account together, whichever machine the event is about. */
  lemma StepAgrees(t: Table, a: Account, e: Event, m: Uid, w: Counter)
    requires TableOk(t) && (Known(t, m) ==> Agrees(Entry(t, m), a, w))
    ensures Known(Step(t, e), m) ==> Agrees(Entry(Step(t, e), m), Booked(Known(t, m), a, e, m, w), w)
  {
    StepOk(t, e);
    var after := Step(t, e);
    if Known(t, m) {
      if Evicts(t, e, m) {
        NotFound(t, e, m);
      } else {
        StillKnown(t, e, m);
        if About(e) == m {
          KnownAgrees(t, a, e, m, w);
        }
      }
    } else if Known(after, m) {
      Appears(t, e, m);
      NewcomerAgrees(a, e, w);
    }
  }

  lemma NotFound(t: Table, e: Event, m: Uid)
    requires TableOk(t) && Known(t, m) && Evicts(t, e, m)
    ensures !Known(Step(t, e), m)
  {
    NewcomerOk(e);
    var after := Step(t, e);
    forall i | 0 <= i < |after| ensures !Is(after[i], m) {
      if i != Slot(t) {
        NotAt(t, m, i);
      }
    }
  }

  lemma Appears(t: Table, e: Event, m: Uid)
    requires TableOk(t) && !Known(t, m) && Known(Step(t, e), m)
    ensures About(e) == m && (e.EvHello? || e.EvLoad?) && Entry(Step(t, e), m) == Newcomer(e)
  {
    StepOk(t, e);
    var after, at := Step(t, e), Find(Step(t, e), m, 0);
    assert Is(after[at], m) && !Is(t[at], m);
    if Known(t, About(e)) {
      KnownOk(Entry(t, About(e)), e);
    } else {
      NewcomerOk(e);
    }
  }

  /**
   Over any run, the total of a machine in the table equals, modulo 2^64, what was loaded for it plus, over all
   its sessions tracked since its entry was created, the largest value each of them reported; its uptime, modulo
   2^64, what was loaded plus how long each session that ended lasted since its client's last hello; its best result
   the best one loaded or reported; and its other values are those of the account.
   */
  lemma {:induction false} TotalsExact(events: seq<Event>, m: Uid, w: Counter)
    requires Known(After(events), m)
    ensures Agrees(Entry(After(events), m), AccountAfter(events, m, w), w)
    decreases |events|
  {
    if events == [] {
      EmptyUnknown(After(events), m);
    } else {
      var before := events[..|events| - 1];
      RunOk(before);
      if Known(After(before), m) {
        TotalsExact(before, m, w);
      }
      StepAgrees(After(before), AccountAfter(before, m, w), events[|events| - 1], m, w);
    }
  }

  lemma EmptyUnknown(t: Table, m: Uid)
    requires forall i :: 0 <= i < |t| ==> !t[i].inUse
    ensures !Known(t, m)
  {
  }

  lemma WorthGrows(a: Account, e: Event, m: Uid, w: Counter)
    ensures Worth(Booked(true, a, e, m, w)) >= Worth(a) && Booked(true, a, e, m, w).up >= a.up
  {
    if About(e) == m {
      match e
      case EvHello(id, now) => GreetingSum(a.logs, id.client, now);
      case EvStats(_, c, st, _) => ReportingSum(a.logs, c, Value(st, w));
      case EvBye(_, c, _) => LeavingSum(a.logs, c);
      case EvLoad(_) =>
    }
  }

  lemma GreetingSum(logs: seq<Log>, c: Uid, now: int)
    ensures var more := Greeting(logs, c, now); Sum(more, |more|) == Sum(logs, |logs|)
  {
    var i := OpenLog(logs, c, 0);
    if i < |logs| {
      SumUpdate(logs, i, logs[i].(since := now), |logs|);
    } else {
      SumPrefix(logs, Log(c, true, [], now), |logs|);
    }
  }

  predicate KnownThroughout(events: seq<Event>, m: Uid, i: nat)
    requires i <= |events|
  {
    forall j :: i <= j <= |events| ==> Known(After(events[..j]), m)
  }

  lemma {:induction false} WorthKept(events: seq<Event>, m: Uid, i: nat, w: Counter)
    requires i <= |events| && KnownThroughout(events, m, i)
    ensures Worth(AccountAfter(events[..i], m, w)) <= Worth(AccountAfter(events, m, w))
    ensures AccountAfter(events[..i], m, w).up <= AccountAfter(events, m, w).up
    decreases |events|
  {
    if i == |events| {
      assert events[..i] == events;
    } else {
      var before := events[..|events| - 1];
      assert forall j :: i <= j <= |before| ==> before[..j] == events[..j];
      WorthKept(before, m, i, w);
      assert Known(After(events[..|events| - 1]), m);
      WorthGrows(AccountAfter(before, m, w), events[|events| - 1], m, w);
    }
  }

  lemma SmallMod(x: nat)
    requires x < WORD
    ensures x % WORD == x
  {
  }

  lemma TotalIsWorth(events: seq<Event>, m: Uid, w: Counter)
    requires Known(After(events), m) && Worth(AccountAfter(events, m, w)) < WORD
    ensures Total(Entry(After(events), m), w) == Worth(AccountAfter(events, m, w))
  {
    TotalsExact(events, m, w);
    SmallMod(Worth(AccountAfter(events, m, w)));
  }

  /** While a machine stays in the table and its true total fits 64 bits, the total is exact and never decreases. */
  lemma TotalsNeverDecrease(events: seq<Event>, m: Uid, i: nat, w: Counter)
    requires i <= |events| && KnownThroughout(events, m, i)
    requires Worth(AccountAfter(events, m, w)) < WORD
    ensures Known(After(events[..i]), m) && Known(After(events), m)
    ensures Total(Entry(After(events), m), w) == Worth(AccountAfter(events, m, w))
    ensures Total(Entry(After(events[..i]), m), w) <= Total(Entry(After(events), m), w)
  {
    assert events[..|events|] == events;
    WorthKept(events, m, i, w);
    TotalIsWorth(events, m, w);
    TotalIsWorth(events[..i], m, w);
  }

  /** The uptime likewise: while it fits 64 bits it is exact and never decreases. */
  lemma UptimeNeverDecreases(events: seq<Event>, m: Uid, i: nat)
    requires i <= |events| && KnownThroughout(events, m, i)
    requires AccountAfter(events, m, Checked).up < WORD
    ensures Known(After(events[..i]), m) && Known(After(events), m)
    ensures Entry(After(events), m).uptime == AccountAfter(events, m, Checked).up
    ensures Entry(After(events[..i]), m).uptime <= Entry(After(events), m).uptime
  {
    assert events[..|events|] == events;
    WorthKept(events, m, i, Checked);
    TotalsExact(events, m, Checked);
    TotalsExact(events[..i], m, Checked);
    SmallMod(AccountAfter(events, m, Checked).up);
    SmallMod(AccountAfter(events[..i], m, Checked).up);
  }
}
