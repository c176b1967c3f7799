/**
 What a work connection is owed (`src/app/etii_server.c`): which reply each request gets in which state of the
 connection, which calls into the pools it stands for, and what the end of a connection gives back. All of it is
 said of requests, replies and moves alone; `ServerStep` is the server that keeps to it.
 */
module ServerProtocol {
  import opened ServerLedger

  const ADD_BATCH_MAX: int := 1024
  const PRUNER_BATCH_MAX: int := 65536

  /** What a client sends; `received` is false when the connection broke before the whole message came in. */
  datatype Request =
    | CheckVersion(received: bool, matches: bool)
    | Get
    | GetToCheck
    | GetToCheckBatch(received: bool, requested: int)
    | Add(received: bool, p: Packet)
    | AddBatch(countReceived: bool, k: int, roomFound: bool, packets: seq<Packet>)
    | Analysed(received: bool, p: Packet)
    | AnalysedBatch(countReceived: bool, m: int, packets: seq<Packet>)
    | Solution(received: bool, stops: bool, p: Packet)
    | NeedWork(threads: int)
    | ControlHello(received: bool, decodes: bool, room: bool)
    | ClientHello(received: bool, decodes: bool)
    | TestConnected
    | Unknown

  datatype Reply =
    | Supported | Unsupported | Served(ps: seq<Packet>) | Considered | Error | Connected
    | Wanted(n: int)

  const HUNGER_PER_CLIENT: int := 2
  const HUNGER_CAP: int := 1000

  /** How many possibilities the server would take: what its stock lacks for its clients, up to a cap. */
  function Hunger(stock: nat, clients: int): (n: int)
    ensures 0 <= n <= HUNGER_CAP
    ensures clients < 1 || stock >= clients * HUNGER_PER_CLIENT ==> n == 0
    ensures clients >= 1 && stock < clients * HUNGER_PER_CLIENT ==>
      (n == HUNGER_CAP && stock + n <= clients * HUNGER_PER_CLIENT) || stock + n == clients * HUNGER_PER_CLIENT
  {
    if clients < 1 || stock >= clients * HUNGER_PER_CLIENT then 0
    else if clients * HUNGER_PER_CLIENT - stock > HUNGER_CAP then HUNGER_CAP
    else clients * HUNGER_PER_CLIENT - stock
  }

  function ClampPrunerBatch(requested: int): (r: int)
    ensures 1 <= r <= PRUNER_BATCH_MAX
    ensures 1 <= requested <= PRUNER_BATCH_MAX ==> r == requested
    ensures (requested < 1 ==> r == 1) && (requested > PRUNER_BATCH_MAX ==> r == PRUNER_BATCH_MAX)
  {
    if requested < 1 then 1 else if requested > PRUNER_BATCH_MAX then PRUNER_BATCH_MAX else requested
  }

  // ------------------------------------------------------------------
  // What becomes of the entries of a batch
  // ------------------------------------------------------------------

  /** Given back to the stock or, if the stock refuses it, to the error file. */
  function BackMoves(p: Packet, stored: bool): seq<Move> {
    if stored then [Return(p)] else [Refused(Return(p)), Save(p)]
  }

  /** An entry of a batch to be served: registered or, if the analysed pool refuses it, given back. */
  datatype Placing = Registered | Back(stored: bool)

  function PlaceMoves(p: Packet, o: Placing): seq<Move> {
    match o
    case Registered => [Enrol(p)]
    case Back(stored) => [Refused(Enrol(p))] + BackMoves(p, stored)
  }

  function BatchMoves(ps: seq<Packet>, os: seq<Placing>): seq<Move>
    requires |os| <= |ps|
  {
    if os == [] then [] else BatchMoves(ps, os[..|os| - 1]) + PlaceMoves(ps[|os| - 1], os[|os| - 1])
  }

  /** The entries that were registered, in order. */
  function Enrolled(ps: seq<Packet>, os: seq<Placing>): (kept: seq<Packet>)
    requires |os| <= |ps|
    ensures |kept| <= |os|
  {
    if os == [] then []
    else Enrolled(ps, os[..|os| - 1]) + if os[|os| - 1].Registered? then [ps[|os| - 1]] else []
  }

  lemma BatchStep(ps: seq<Packet>, os: seq<Placing>, o: Placing)
    requires |os| < |ps|
    ensures BatchMoves(ps, os + [o]) == BatchMoves(ps, os) + PlaceMoves(ps[|os|], o)
    ensures Enrolled(ps, os + [o]) == Enrolled(ps, os) + if o.Registered? then [ps[|os|]] else []
  {
    assert (os + [o])[..|os|] == os;
  }

  lemma LessHeld(h: multiset<Packet>, ps: seq<Packet>, p: Packet)
    ensures h - multiset(ps + [p]) == (h - multiset(ps)) - multiset{p}
  {
  }

  lemma MoreOf(a: multiset<Packet>, ps: seq<Packet>, p: Packet)
    ensures a + multiset(ps + [p]) == (a + multiset(ps)) + multiset{p}
  {
  }

  /** Nothing but the stock, the analysed pool, the error file and the hands moved. */
  predicate SameAccounts(l: Ledger, k: Ledger) {
    k.acked == l.acked && k.accepted == l.accepted && k.repeated == l.repeated && k.solutions == l.solutions
  }

  lemma BackRun(l: Ledger, p: Packet, stored: bool)
    ensures var k := Run(l, BackMoves(p, stored));
            && k.hand == l.hand - multiset{p} && k.analysed == l.analysed && SameAccounts(l, k)
            && k.stock == (if stored then l.stock + multiset{p} else l.stock)
            && k.errors == (if stored then l.errors else l.errors + multiset{p})
  {
    if stored {
      RunOne(l, Return(p));
    } else {
      RunTwo(l, Refused(Return(p)), Save(p));
    }
  }

  lemma PlaceRun(l: Ledger, p: Packet, o: Placing)
    ensures var k := Run(l, PlaceMoves(p, o));
            && k.hand == l.hand - multiset{p} && SameAccounts(l, k)
            && k.analysed == if o.Registered? then l.analysed + multiset{p} else l.analysed
  {
    if o.Registered? {
      RunOne(l, Enrol(p));
    } else {
      RunAppend(l, [Refused(Enrol(p))], BackMoves(p, o.stored));
      RunOne(l, Refused(Enrol(p)));
      BackRun(l, p, o.stored);
    }
  }

  /** What is left of a hand once the first `n` entries of a batch left it one by one. */
  function HandAfter(h: multiset<Packet>, ps: seq<Packet>, n: nat): multiset<Packet>
    requires n <= |ps|
  {
    if n == 0 then h else HandAfter(h, ps, n - 1) - multiset{ps[n - 1]}
  }

  lemma {:induction false} HandAfterIs(h: multiset<Packet>, ps: seq<Packet>, n: nat)
    requires n <= |ps|
    ensures HandAfter(h, ps, n) == h - multiset(ps[..n])
  {
    if n == 0 {
      assert ps[..0] == [];
    } else {
      HandAfterIs(h, ps, n - 1);
      assert ps[..n] == ps[..n - 1] + [ps[n - 1]];
      LessHeld(h, ps[..n - 1], ps[n - 1]);
    }
  }

  /** Placing the entries of a batch registers exactly the enrolled ones. */
  lemma {:induction false} PlacedRun(l: Ledger, ps: seq<Packet>, os: seq<Placing>)
    requires |os| <= |ps|
    ensures var k := Run(l, BatchMoves(ps, os));
            && k.hand == HandAfter(l.hand, ps, |os|) && SameAccounts(l, k)
            && k.analysed == l.analysed + multiset(Enrolled(ps, os))
    decreases |os|
  {
    if os != [] {
      var n := |os| - 1;
      PlacedRun(l, ps, os[..n]);
      RunAppend(l, BatchMoves(ps, os[..n]), PlaceMoves(ps[n], os[n]));
      PlaceRun(Run(l, BatchMoves(ps, os[..n])), ps[n], os[n]);
      MoreOf(l.analysed, Enrolled(ps, os[..n]), ps[n]);
    }
  }

  /** After `p` entries of a batch the registered ones are in front, in order, and the others not yet looked at in place. */
  predicate Compacted(cells: seq<Packet>, ps: seq<Packet>, os: seq<Placing>, p: nat, kept: nat) {
    && |os| == p <= |ps| <= |cells| && kept == |Enrolled(ps, os)| && cells[..kept] == Enrolled(ps, os)
    && forall j :: p <= j < |ps| ==> cells[j] == ps[j]
  }

  lemma CompactedMore(cells: seq<Packet>, after: seq<Packet>, ps: seq<Packet>, os: seq<Placing>, p: nat, kept: nat, o: Placing)
    requires Compacted(cells, ps, os, p, kept) && p < |ps| && |after| == |cells|
    requires forall j :: p < j < |after| ==> after[j] == cells[j]
    requires var more := if o.Registered? then [cells[p]] else [];
             kept + |more| <= |after| && after[..kept + |more|] == cells[..kept] + more
    ensures Compacted(after, ps, os + [o], p + 1, if o.Registered? then kept + 1 else kept)
  {
    BatchStep(ps, os, o);
  }

  lemma LeftOver(h: multiset<Packet>, ps: seq<Packet>, n: nat)
    requires n < |ps| && multiset(ps) <= h
    ensures ps[n] in h - multiset(ps[..n])
  {
    assert ps == ps[..n] + [ps[n]] + ps[n + 1..];
    assert multiset(ps)[ps[n]] <= h[ps[n]];
  }

  lemma StillHeld(h: multiset<Packet>, ps: seq<Packet>, n: nat)
    requires n < |ps| && multiset(ps) <= h
    ensures ps[n] in HandAfter(h, ps, n)
  {
    HandAfterIs(h, ps, n);
    LeftOver(h, ps, n);
  }

  lemma AllPlaced(h: multiset<Packet>, ps: seq<Packet>)
    ensures HandAfter(h + multiset(ps), ps, |ps|) == h
  {
    HandAfterIs(h + multiset(ps), ps, |ps|);
    assert ps[..|ps|] == ps;
    assert (h + multiset(ps)) - multiset(ps) == h;
  }

  // ------------------------------------------------------------------
  // Giving back what was last sent
  // ------------------------------------------------------------------

  /** The end of a possibility last sent: certainly absent, or given back (with or without certainty that it was still out). */
  datatype Fate = Gone | Given(sure: bool, stored: bool)

  function RecallMoves(p: Packet, sure: bool): seq<Move> {
    if sure then [Recall(p)] else [Refused(Recall(p)), Repeat(p)]
  }

  function FateMoves(p: Packet, f: Fate): seq<Move> {
    match f
    case Gone => [Absent(p)]
    case Given(sure, stored) => RecallMoves(p, sure) + BackMoves(p, stored)
  }

  function RequeueMoves(ps: seq<Packet>, fs: seq<Fate>): seq<Move>
    requires |fs| <= |ps|
  {
    if fs == [] then [] else RequeueMoves(ps, fs[..|fs| - 1]) + FateMoves(ps[|fs| - 1], fs[|fs| - 1])
  }

  lemma RequeueStep(ps: seq<Packet>, fs: seq<Fate>, f: Fate)
    requires |fs| < |ps|
    ensures RequeueMoves(ps, fs + [f]) == RequeueMoves(ps, fs) + FateMoves(ps[|fs|], f)
  {
    assert (fs + [f])[..|fs|] == fs;
  }

  lemma PutBack(h: multiset<Packet>, p: Packet)
    ensures (h + multiset{p}) - multiset{p} == h
  {
  }

  lemma RecallRun(l: Ledger, p: Packet, sure: bool)
    ensures var k := Run(l, RecallMoves(p, sure));
            && k.hand == l.hand + multiset{p} && k.stock == l.stock && k.errors == l.errors
            && k.accepted == l.accepted && k.acked == l.acked && k.solutions == l.solutions
            && k.repeated == (if sure then l.repeated else l.repeated + multiset{p})
            && k.analysed == (if sure then l.analysed - multiset{p} else l.analysed)
  {
    if sure {
      RunOne(l, Recall(p));
    } else {
      RunTwo(l, Refused(Recall(p)), Repeat(p));
    }
  }

  lemma OneMoreAt(m: multiset<Packet>, p: Packet, q: Packet)
    ensures (m + multiset{p})[q] == m[q] + if q == p then 1 else 0
  {
  }

  lemma GivenRun(l: Ledger, p: Packet, sure: bool, stored: bool)
    ensures var k := Run(l, RecallMoves(p, sure) + BackMoves(p, stored));
            && k.hand == l.hand && k.accepted == l.accepted && k.acked == l.acked
            && k.stock == (if stored then l.stock + multiset{p} else l.stock)
            && k.errors == (if stored then l.errors else l.errors + multiset{p})
            && k.repeated == (if sure then l.repeated else l.repeated + multiset{p})
  {
    RunAppend(l, RecallMoves(p, sure), BackMoves(p, stored));
    RecallRun(l, p, sure);
    BackRun(Run(l, RecallMoves(p, sure)), p, stored);
    PutBack(l.hand, p);
  }

  /** A possibility given back passes through the thread's hand only. */
  lemma FateRun(l: Ledger, p: Packet, f: Fate, q: Packet)
    ensures var k := Run(l, FateMoves(p, f));
            && k.hand == l.hand && k.accepted == l.accepted && k.acked == l.acked
            && k.stock[q] + k.errors[q] == l.stock[q] + l.errors[q] + (if f.Given? && q == p then 1 else 0)
            && k.repeated[q] == l.repeated[q] + (if f.Given? && !f.sure && q == p then 1 else 0)
  {
    if f.Given? {
      GivenRun(l, p, f.sure, f.stored);
      OneMoreAt(if f.stored then l.stock else l.errors, p, q);
      OneMoreAt(l.repeated, p, q);
    } else {
      RunOne(l, Absent(p));
    }
  }

  function Returns(ps: seq<Packet>, fs: seq<Fate>, q: Packet): nat
    requires |fs| <= |ps|
  {
    if fs == [] then 0
    else Returns(ps, fs[..|fs| - 1], q) + if fs[|fs| - 1].Given? && ps[|fs| - 1] == q then 1 else 0
  }

  function Doubts(ps: seq<Packet>, fs: seq<Fate>, q: Packet): nat
    requires |fs| <= |ps|
  {
    if fs == [] then 0
    else
      var f := fs[|fs| - 1];
      Doubts(ps, fs[..|fs| - 1], q) + if f.Given? && !f.sure && ps[|fs| - 1] == q then 1 else 0
  }

  /** Requeueing gives each possibility back as often as its fates say, and once more than it was removed only in doubt. */
  lemma {:induction false} RequeuedRun(l: Ledger, ps: seq<Packet>, fs: seq<Fate>, q: Packet)
    requires |fs| <= |ps|
    ensures var k := Run(l, RequeueMoves(ps, fs));
            && k.hand == l.hand && k.accepted == l.accepted && k.acked == l.acked
            && k.stock[q] + k.errors[q] == l.stock[q] + l.errors[q] + Returns(ps, fs, q)
            && k.repeated[q] == l.repeated[q] + Doubts(ps, fs, q)
    decreases |fs|
  {
    if fs != [] {
      var n := |fs| - 1;
      RequeuedRun(l, ps, fs[..n], q);
      assert fs == fs[..n] + [fs[n]];
      RequeueStep(ps, fs[..n], fs[n]);
      RunAppend(l, RequeueMoves(ps, fs[..n]), FateMoves(ps[n], fs[n]));
      FateRun(Run(l, RequeueMoves(ps, fs[..n])), ps[n], fs[n], q);
    }
  }

  /** Each possibility last sent was found absent, or went back to the stock or to the error file. */
  lemma {:induction false} RequeueShows(ps: seq<Packet>, fs: seq<Fate>, i: nat)
    requires i < |fs| <= |ps|
    ensures if fs[i].Gone? then Absent(ps[i]) in RequeueMoves(ps, fs)
            else (if fs[i].stored then Return(ps[i]) else Save(ps[i])) in RequeueMoves(ps, fs)
    decreases |fs|
  {
    var n := |fs| - 1;
    if i < n {
      RequeueShows(ps, fs[..n], i);
    } else if fs[i].Given? {
      var back := BackMoves(ps[i], fs[i].stored);
      assert back[|back| - 1] in FateMoves(ps[i], fs[i]);
    }
  }

  // ------------------------------------------------------------------
  // Acknowledging
  // ------------------------------------------------------------------

  /** One attempt to withdraw: done, or certainly absent, or refused. */
  predicate Acks(m: Move, p: Packet) { m == Withdraw(p) || m == Absent(p) || m == Refused(Withdraw(p)) }

  predicate AcksAll(ms: seq<Move>, ps: seq<Packet>) {
    |ms| <= |ps| && forall i :: 0 <= i < |ms| ==> Acks(ms[i], ps[i])
  }

  /** Acknowledging leaves the stock and the error file as they were, and withdraws at most what was acknowledged. */
  lemma {:induction false} AcksRun(l: Ledger, ps: seq<Packet>, ms: seq<Move>)
    requires AcksAll(ms, ps)
    ensures var k := Run(l, ms);
            && k.stock == l.stock && k.errors == l.errors && k.hand == l.hand
            && k.accepted == l.accepted && k.repeated == l.repeated && k.solutions == l.solutions
    decreases |ms|
  {
    if ms != [] {
      var n := |ms| - 1;
      AcksRun(l, ps, ms[..n]);
      RunLast(l, ms);
    }
  }

  // ------------------------------------------------------------------
  // Replies
  // ------------------------------------------------------------------

  /** Whether the whole message came in, is within bounds and lets the connection go on. */
  predicate Whole(r: Request) {
    match r
    case CheckVersion(received, _) => received
    case GetToCheckBatch(received, _) => received
    case Add(received, _) => received
    case AddBatch(countReceived, k, roomFound, packets) => countReceived && 0 < k <= ADD_BATCH_MAX && roomFound && |packets| == k
    case Analysed(received, _) => received
    case AnalysedBatch(countReceived, m, packets) => countReceived && 0 <= m <= PRUNER_BATCH_MAX && m <= |packets|
    case Solution(received, stops, _) => received && !stops
    case ControlHello(received, decodes, room) => received && decodes && room
    case ClientHello(received, _) => received
    case Unknown => false
    case _ => true
  }

  predicate Handed(replies: seq<Reply>) { |replies| == 1 && replies[0].Served? }

  /** The server did what was asked, or says it could not. */
  predicate Judged(replies: seq<Reply>) { replies == [Considered] || replies == [Error] }

  /** The number of acknowledgements announced is one the server goes through. */
  predicate Countable(r: Request)
    requires r.AnalysedBatch?
  {
    r.countReceived && 0 <= r.m <= PRUNER_BATCH_MAX
  }

  /** The reply to a client whose version was accepted. */
  predicate AnswersWork(r: Request, replies: seq<Reply>) {
    match r
    case Get => Handed(replies)
    case GetToCheck => Handed(replies)
    case GetToCheckBatch(received, _) => if received then Handed(replies) else replies == []
    case Add(_, _) => if Whole(r) then Judged(replies) else replies == []
    case AddBatch(_, _, _, _) => if Whole(r) then Judged(replies) else replies == []
    case Analysed(_, _) => if Whole(r) then Judged(replies) else replies == []
    case AnalysedBatch(_, m, packets) =>
      replies == if !Countable(r) then [] else if m <= |packets| then [Considered] else [Error]
    case Solution(received, _, _) => replies == if received then [Considered] else []
    case NeedWork(_) => |replies| == 1 && replies[0].Wanted?
    case _ => replies == []
  }

  /** The reply each request gets; `supported` says whether the client's version was accepted before. */
  predicate Answers(r: Request, supported: bool, replies: seq<Reply>) {
    match r
    case CheckVersion(received, matches) => replies == if !received then [] else if matches then [Supported] else [Unsupported]
    case TestConnected => replies == [Connected]
    case _ => if supported then AnswersWork(r, replies) else replies == [Unsupported]
  }

  /** The possibilities a client brings to be stored. */
  function Brought(r: Request): seq<Packet>
    requires r.Add? || r.AddBatch?
  {
    if r.Add? then [r.p] else r.packets
  }

  function MaxServed(r: Request): (max: nat)
    ensures r.GetToCheckBatch? ==> max == ClampPrunerBatch(r.requested)
    ensures r.Get? || r.GetToCheck? ==> max == 1
  {
    if r.GetToCheckBatch? then ClampPrunerBatch(r.requested) else 1
  }

  /** The call that extracts, and what it extracted. */
  predicate Took(m: Move, taken: seq<Packet>, max: nat, uncheckedOnly: bool) {
    m == Take(taken, max, uncheckedOnly) || m == Scant(taken, max, uncheckedOnly)
  }

  /** One extraction of at most `max` possibilities, each of them placed; those registered are the ones handed out. */
  ghost predicate Serves(ps: seq<Packet>, max: nat, uncheckedOnly: bool, taken: seq<Packet>, os: seq<Placing>, ms: seq<Move>) {
    && |ms| > 0 && Took(ms[0], taken, max, uncheckedOnly) && |os| == |taken|
    && ms[1..] == BatchMoves(taken, os) && ps == Enrolled(taken, os)
  }

  ghost predicate ServesBatch(ps: seq<Packet>, max: nat, uncheckedOnly: bool, ms: seq<Move>) {
    exists taken: seq<Packet>, os: seq<Placing> :: Serves(ps, max, uncheckedOnly, taken, os, ms)
  }

  /** The one call that stores what a client brings, and what it answered. */
  function StoreMove(ps: seq<Packet>, stored: bool): Move { if stored then Deposit(ps) else Refused(Deposit(ps)) }

  /**
   What a reply means, in the calls the instruction made: `Served` possibilities were taken from the stock and
   registered as being analysed, `Considered` ones stored (or, for an acknowledgement, withdrawn), `Error` is the pool's
   own answer, and a number wanted is reckoned from a count of the stock. Where no reply is due there was no call.
   */
  ghost predicate Means(r: Request, supported: bool, replies: seq<Reply>, ms: seq<Move>) {
    if !supported then ms == []
    else
      match r
      case Get => Handed(replies) && ServesBatch(replies[0].ps, 1, false, ms)
      case GetToCheck => Handed(replies) && ServesBatch(replies[0].ps, 1, true, ms)
      case GetToCheckBatch(received, requested) =>
        if received then Handed(replies) && ServesBatch(replies[0].ps, ClampPrunerBatch(requested), true, ms) else ms == []
      case Add(_, p) => ms == if Whole(r) then [StoreMove([p], replies == [Considered])] else []
      case AddBatch(_, _, _, packets) => ms == if Whole(r) then [StoreMove(packets, replies == [Considered])] else []
      case Analysed(_, p) =>
        if Whole(r) then |ms| == 1 && Acks(ms[0], p) && (replies == [Considered] <==> ms[0] == Withdraw(p)) else ms == []
      case AnalysedBatch(_, m, packets) =>
        if Countable(r) then |ms| == (if m <= |packets| then m else |packets|) && AcksAll(ms, packets) else ms == []
      case Solution(received, _, p) => ms == if received then [Solve(p)] else []
      case NeedWork(threads) => |ms| == 1 && ms[0].Size? && replies == [Wanted(Hunger(ms[0].n, threads))]
      case _ => ms == []
  }

  ghost predicate Told(r: Request, supported: bool, replies: seq<Reply>, ms: seq<Move>) {
    Answers(r, supported, replies) && Means(r, supported, replies, ms)
  }

  // ------------------------------------------------------------------
  // A connection
  // ------------------------------------------------------------------

  /** What the server knows of a connection: all of it follows from its requests and replies. */
  datatype Peer = Peer(open: bool, supported: bool, identified: bool, control: bool, lastSent: seq<Packet>)

  const NEW_PEER := Peer(true, false, false, false, [])

  /** The server goes on reading instructions. */
  predicate Serving(peer: Peer) { peer.open && !peer.control }

  function After(peer: Peer, r: Request, replies: seq<Reply>): Peer {
    Peer(Whole(r) && (peer.supported || r.CheckVersion? || r.TestConnected?),
         peer.supported || (r.CheckVersion? && r.received && r.matches),
         peer.identified || (peer.supported && r.ClientHello? && r.received && r.decodes),
         peer.control || (peer.supported && r.ControlHello? && Whole(r)),
         if Handed(replies) then replies[0].ps else peer.lastSent)
  }

  lemma AfterDelivery(peer: Peer, r: Request, replies: seq<Reply>)
    requires peer.supported && (r.Add? || r.AddBatch? || r.Analysed? || r.AnalysedBatch?) && !Handed(replies)
    ensures After(peer, r, replies) == peer.(open := Whole(r))
  {
  }

  lemma AfterServing(peer: Peer, r: Request, replies: seq<Reply>)
    requires peer.supported && (r.Get? || r.GetToCheck? || r.GetToCheckBatch?) && Handed(replies)
    ensures After(peer, r, replies) == peer.(open := Whole(r), lastSent := replies[0].ps)
  {
  }

  /**
   The end of a connection: nothing if the client is known to be alive; else each possibility last sent goes back to
   the stock (or to the error file), except those certainly absent from the analysed pool.
   */
  ghost predicate EndMoves(peer: Peer, alive: bool, ms: seq<Move>) {
    if peer.identified && alive then ms == [] else exists fs: seq<Fate> :: GivesBack(peer.lastSent, fs, ms)
  }

  predicate GivesBack(ps: seq<Packet>, fs: seq<Fate>, ms: seq<Move>) { |fs| == |ps| && ms == RequeueMoves(ps, fs) }

  /** The connection after its first `n` instructions. */
  function PeerAfter(requests: seq<Request>, answers: seq<seq<Reply>>, n: nat): Peer
    requires n <= |requests| && n <= |answers|
  {
    if n == 0 then NEW_PEER else After(PeerAfter(requests, answers, n - 1), requests[n - 1], answers[n - 1])
  }

  /** Every instruction was read by a connection still being served, and was answered as it is owed. */
  ghost predicate AllTold(requests: seq<Request>, answers: seq<seq<Reply>>, parts: seq<seq<Move>>) {
    |parts| == |answers| <= |requests| && forall i :: 0 <= i < |answers| ==> ToldAt(requests, answers, parts, i)
  }

  ghost predicate ToldAt(requests: seq<Request>, answers: seq<seq<Reply>>, parts: seq<seq<Move>>, i: nat)
    requires |parts| == |answers| <= |requests| && i < |answers|
  {
    var peer := PeerAfter(requests, answers, i);
    Serving(peer) && Told(requests[i], peer.supported, answers[i], parts[i])
  }

  lemma {:induction false} PeerSame(requests: seq<Request>, answers: seq<seq<Reply>>, more: seq<seq<Reply>>, n: nat)
    requires n <= |answers| && n <= |requests| && answers <= more
    ensures PeerAfter(requests, more, n) == PeerAfter(requests, answers, n)
  {
    if n > 0 {
      PeerSame(requests, answers, more, n - 1);
    }
  }

  lemma ToldMore(requests: seq<Request>, answers: seq<seq<Reply>>, parts: seq<seq<Move>>, replies: seq<Reply>, ms: seq<Move>)
    requires AllTold(requests, answers, parts) && |answers| < |requests|
    requires var peer := PeerAfter(requests, answers, |answers|);
             Serving(peer) && Told(requests[|answers|], peer.supported, replies, ms)
    ensures AllTold(requests, answers + [replies], parts + [ms])
    ensures PeerAfter(requests, answers + [replies], |answers| + 1) ==
            After(PeerAfter(requests, answers, |answers|), requests[|answers|], replies)
  {
    var given, made := answers + [replies], parts + [ms];
    forall i | 0 <= i < |given| ensures ToldAt(requests, given, made, i) {
      PeerSame(requests, answers, given, i);
      assert i < |answers| ==> ToldAt(requests, answers, parts, i) && given[i] == answers[i] && made[i] == parts[i];
    }
    PeerSame(requests, answers, given, |answers|);
  }

  // ------------------------------------------------------------------
  // Any number of connections
  // ------------------------------------------------------------------

  /** Something on connection `conn`: an instruction, or its end with the client known to be alive or not. */
  datatype Happening = Instructs(conn: nat, r: Request) | Ends(conn: nat, alive: bool)

  predicate Among(happenings: seq<Happening>, n: nat) { forall i :: 0 <= i < |happenings| ==> happenings[i].conn < n }

  function Ended(peer: Peer): Peer { peer.(open := false, lastSent := []) }

  function Happened(peer: Peer, h: Happening, replies: seq<Reply>): Peer {
    match h
    case Instructs(_, r) => if Serving(peer) then After(peer, r, replies) else peer
    case Ends(_, _) => Ended(peer)
  }

  /** What is owed to a connection when this happens; one that is no longer served gets nothing. */
  ghost predicate Owes(peer: Peer, h: Happening, replies: seq<Reply>, ms: seq<Move>) {
    match h
    case Instructs(_, r) => if Serving(peer) then Told(r, peer.supported, replies, ms) else replies == [] && ms == []
    case Ends(_, alive) => replies == [] && EndMoves(peer, alive, ms)
  }

  /** All connections after the first `k` happenings. */
  function PeersAfter(n: nat, happenings: seq<Happening>, answers: seq<seq<Reply>>, k: nat): (peers: seq<Peer>)
    requires k <= |happenings| && k <= |answers| && Among(happenings, n)
    ensures |peers| == n
  {
    if k == 0 then seq(n, i => NEW_PEER)
    else
      var peers, h := PeersAfter(n, happenings, answers, k - 1), happenings[k - 1];
      peers[h.conn := Happened(peers[h.conn], h, answers[k - 1])]
  }

  ghost predicate OwedAt(n: nat, happenings: seq<Happening>, answers: seq<seq<Reply>>, parts: seq<seq<Move>>, i: nat)
    requires |parts| == |answers| <= |happenings| && Among(happenings, n) && i < |answers|
  {
    Owes(PeersAfter(n, happenings, answers, i)[happenings[i].conn], happenings[i], answers[i], parts[i])
  }

  ghost predicate AllOwed(n: nat, happenings: seq<Happening>, answers: seq<seq<Reply>>, parts: seq<seq<Move>>)
    requires Among(happenings, n)
  {
    |parts| == |answers| <= |happenings| && forall i :: 0 <= i < |answers| ==> OwedAt(n, happenings, answers, parts, i)
  }

  lemma {:induction false} PeersSame(n: nat, happenings: seq<Happening>, answers: seq<seq<Reply>>, more: seq<seq<Reply>>, k: nat)
    requires k <= |answers| && k <= |happenings| && answers <= more && Among(happenings, n)
    ensures PeersAfter(n, happenings, more, k) == PeersAfter(n, happenings, answers, k)
  {
    if k > 0 {
      PeersSame(n, happenings, answers, more, k - 1);
    }
  }

  lemma OwedMore(n: nat, happenings: seq<Happening>, answers: seq<seq<Reply>>, parts: seq<seq<Move>>,
                 replies: seq<Reply>, ms: seq<Move>)
    requires Among(happenings, n) && AllOwed(n, happenings, answers, parts) && |answers| < |happenings|
    requires var h := happenings[|answers|];
             Owes(PeersAfter(n, happenings, answers, |answers|)[h.conn], h, replies, ms)
    ensures AllOwed(n, happenings, answers + [replies], parts + [ms])
    ensures var peers, h := PeersAfter(n, happenings, answers, |answers|), happenings[|answers|];
            PeersAfter(n, happenings, answers + [replies], |answers| + 1) == peers[h.conn := Happened(peers[h.conn], h, replies)]
  {
    var given, made := answers + [replies], parts + [ms];
    forall i | 0 <= i < |given| ensures OwedAt(n, happenings, given, made, i) {
      PeersSame(n, happenings, answers, given, i);
      assert i < |answers| ==> OwedAt(n, happenings, answers, parts, i) && given[i] == answers[i] && made[i] == parts[i];
    }
    PeersSame(n, happenings, answers, given, |answers|);
  }

  function Flat(parts: seq<seq<Move>>): seq<Move> {
    if parts == [] then [] else Flat(parts[..|parts| - 1]) + parts[|parts| - 1]
  }

  lemma FlatStep(parts: seq<seq<Move>>, ms: seq<Move>)
    ensures Flat(parts + [ms]) == Flat(parts) + ms
  {
    assert (parts + [ms])[..|parts|] == parts;
  }

  // ------------------------------------------------------------------
  // What follows for the books
  // ------------------------------------------------------------------

  /** Every accepted possibility that was not acknowledged is in the stock, the analysed pool or the error file. */
  ghost predicate Safe(l: Ledger) { forall p :: l.accepted[p] <= l.acked[p] + l.stock[p] + l.analysed[p] + l.errors[p] }

  /** Whenever no thread holds anything nothing is lost, whoever made which moves. */
  lemma AtRest(start: Ledger, log: seq<Entry>, l: Ledger)
    requires Logged(start, log, l) && l.hand == multiset{}
    ensures Safe(l)
  {
    LoggedConserved(start, log, l);
    forall p ensures l.accepted[p] <= l.acked[p] + l.stock[p] + l.analysed[p] + l.errors[p] {
      assert Placed(l, p) == Owed(l, p);
    }
  }

  /** Taking a batch and placing all of it leaves the hands as they were. */
  lemma ServedRun(l: Ledger, ps: seq<Packet>, max: nat, uncheckedOnly: bool, taken: seq<Packet>, os: seq<Placing>, ms: seq<Move>)
    requires Serves(ps, max, uncheckedOnly, taken, os, ms)
    ensures var k := Run(l, ms); k.hand == l.hand && k.analysed == l.analysed + multiset(ps) && SameAccounts(l, k)
  {
    var held := Make(l, ms[0]);
    PlacedRun(held, taken, os);
    HandAfterIs(held.hand, taken, |os|);
    assert taken[..|os|] == taken;
    assert (l.hand + multiset(taken)) - multiset(taken) == l.hand;
  }

  /**
   What a reply means for the books when nobody else moves during the instruction: `Served` possibilities are
   registered as being analysed, `Considered` ones are stored (or withdrawn), any other reply leaves them alone.
   */
  ghost predicate Accounted(r: Request, replies: seq<Reply>, l: Ledger, k: Ledger) {
    && k.repeated == l.repeated && k.hand == l.hand
    && (Handed(replies) ==> k.analysed == l.analysed + multiset(replies[0].ps) && k.accepted == l.accepted && k.acked == l.acked)
    && (replies == [Considered] && (r.Add? || r.AddBatch?) ==> k == Make(l, Deposit(Brought(r))))
    && (replies == [Considered] && r.Analysed? ==> k == Make(l, Withdraw(r.p)))
    && (replies == [Considered] && r.Solution? ==> k == Make(l, Solve(r.p)))
    && (r.AnalysedBatch? ==> k.stock == l.stock && k.errors == l.errors && k.accepted == l.accepted)
    && (!Handed(replies) && !r.AnalysedBatch? && replies != [Considered] ==> k == l)
  }

  lemma ServedAccounted(r: Request, replies: seq<Reply>, ms: seq<Move>, l: Ledger)
    requires Handed(replies) && (r.Get? || r.GetToCheck? || r.GetToCheckBatch?) && Told(r, true, replies, ms)
    ensures Accounted(r, replies, l, Run(l, ms))
  {
    var max, uncheckedOnly := MaxServed(r), !r.Get?;
    var taken: seq<Packet>, os: seq<Placing> :| Serves(replies[0].ps, max, uncheckedOnly, taken, os, ms);
    ServedRun(l, replies[0].ps, max, uncheckedOnly, taken, os, ms);
  }

  lemma OneAccounted(l: Ledger, m: Move, ms: seq<Move>)
    requires ms == [m]
    ensures Run(l, ms) == Make(l, m)
  {
    RunOne(l, m);
  }

  lemma AcksAccounted(r: Request, replies: seq<Reply>, ms: seq<Move>, l: Ledger)
    requires r.AnalysedBatch? && !Handed(replies) && AcksAll(ms, r.packets)
    ensures Accounted(r, replies, l, Run(l, ms))
  {
    AcksRun(l, r.packets, ms);
  }

  lemma StoreAccounted(r: Request, replies: seq<Reply>, ms: seq<Move>, l: Ledger)
    requires (r.Add? || r.AddBatch?) && Judged(replies) && ms == [StoreMove(Brought(r), replies == [Considered])]
    ensures Accounted(r, replies, l, Run(l, ms))
  {
    OneAccounted(l, StoreMove(Brought(r), replies == [Considered]), ms);
  }

  lemma AckAccounted(r: Request, replies: seq<Reply>, m: Move, ms: seq<Move>, l: Ledger)
    requires r.Analysed? && Judged(replies) && ms == [m] && Acks(m, r.p) && (replies == [Considered] <==> m == Withdraw(r.p))
    ensures Accounted(r, replies, l, Run(l, ms))
  {
    OneAccounted(l, m, ms);
  }

  lemma CallAccounted(r: Request, replies: seq<Reply>, ms: seq<Move>, l: Ledger)
    requires !Handed(replies) && !r.AnalysedBatch? && |ms| == 1 && Told(r, true, replies, ms)
    ensures Accounted(r, replies, l, Run(l, ms))
  {
    if r.Add? || r.AddBatch? {
      StoreAccounted(r, replies, ms, l);
    } else if r.Analysed? {
      AckAccounted(r, replies, ms[0], ms, l);
    } else {
      OneAccounted(l, ms[0], ms);
    }
  }

  lemma ToldAccounted(r: Request, supported: bool, replies: seq<Reply>, ms: seq<Move>, l: Ledger)
    requires Told(r, supported, replies, ms)
    ensures Accounted(r, replies, l, Run(l, ms))
  {
    if Handed(replies) {
      ServedAccounted(r, replies, ms, l);
    } else if r.AnalysedBatch? && supported && Countable(r) {
      AcksAccounted(r, replies, ms, l);
    } else if |ms| == 1 {
      CallAccounted(r, replies, ms, l);
    }
  }

  lemma SomethingServed(l: Ledger, ps: seq<Packet>, max: nat, uncheckedOnly: bool, ms: seq<Move>, p: Packet)
    requires ServesBatch(ps, max, uncheckedOnly, ms) && max > 0
    requires |ms| > 0 && ms[0].Take? && Enabled(l, ms[0]) && p in l.stock && Suits(p, uncheckedOnly)
    ensures ps != [] || exists q :: Refused(Enrol(q)) in ms
  {
    var taken: seq<Packet>, os: seq<Placing> :| Serves(ps, max, uncheckedOnly, taken, os, ms);
    assert taken != [];
    FirstPlaced(taken, os);
    if os[0].Back? {
      assert Refused(Enrol(taken[0])) in ms[1..];
    }
  }

  /** A client that asks while nothing is locked and something suits it is handed something, unless the analysed pool refuses. */
  lemma ServedUnlessRefused(l: Ledger, r: Request, replies: seq<Reply>, ms: seq<Move>, p: Packet)
    requires (r.Get? || r.GetToCheck? || r.GetToCheckBatch?) && Whole(r) && Told(r, true, replies, ms)
    requires |ms| > 0 && Enabled(l, ms[0]) && ms[0].Take? && p in l.stock && Suits(p, !r.Get?)
    ensures replies[0].ps != [] || exists q :: Refused(Enrol(q)) in ms
  {
    SomethingServed(l, replies[0].ps, MaxServed(r), !r.Get?, ms, p);
  }

  lemma {:induction false} FirstPlaced(ps: seq<Packet>, os: seq<Placing>)
    requires 0 < |os| <= |ps|
    ensures if os[0].Registered? then ps[0] in Enrolled(ps, os) else Refused(Enrol(ps[0])) in BatchMoves(ps, os)
    decreases |os|
  {
    var n := |os| - 1;
    if n > 0 {
      FirstPlaced(ps, os[..n]);
    } else {
      assert os[..0] == [];
      assert BatchMoves(ps, os) == [] + PlaceMoves(ps[0], os[0]);
      assert PlaceMoves(ps[0], os[0])[0] in PlaceMoves(ps[0], os[0]);
      assert Enrolled(ps, os) == [] + if os[0].Registered? then [ps[0]] else [];
    }
  }
}
