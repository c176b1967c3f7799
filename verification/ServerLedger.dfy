/**
 Where a possibility can be on the server, and the moves between those places that the service loop makes
 (`src/app/etii_server.c`). Each move is one call into the stock or the analysed pool with what it answered, a
 refusal included, so runs of moves cover every interleaving of connection threads.
 */
module ServerLedger {

  /** A search position; `checked` says which of the two stock pools it belongs to. */
  datatype Packet = Packet(id: nat, checked: bool)

  /**
   `stock`, `analysed` and `errors` are the pools and the error file; `hand` is what service threads have taken
   from one place and not yet put in another. `accepted` counts what clients were told is stored, `acked` what was
   withdrawn as analysed, and `repeated` what was put back without certainty that it was still out. `solutions` are
   the files of solutions received.
   */
  datatype Ledger = Ledger(
    stock: multiset<Packet>, analysed: multiset<Packet>, errors: multiset<Packet>, hand: multiset<Packet>,
    accepted: multiset<Packet>, acked: multiset<Packet>, repeated: multiset<Packet>, solutions: multiset<Packet>)

  datatype Move =
    | Deposit(ps: seq<Packet>)      // a client's batch stored
    | Take(ps: seq<Packet>, max: nat, uncheckedOnly: bool)    // extracted to be served, nothing being locked
    | Scant(ps: seq<Packet>, max: nat, uncheckedOnly: bool)   // extracted while maintenance locks part of the stock
    | Enrol(p: Packet)              // registered as being analysed
    | Return(p: Packet)             // given back to the stock
    | Save(p: Packet)               // written to the error file
    | Withdraw(p: Packet)           // acknowledged as analysed
    | Recall(p: Packet)             // found in the analysed pool and removed, to be given back
    | Repeat(p: Packet)             // absence not confirmed: given back all the same
    | Reclaim(p: Packet)            // lease expired
    | Absent(p: Packet)             // looked for in the analysed pool and, certainly, not there
    | Refused(call: Move)           // the pool was asked for this and refused
    | Size(n: nat)                  // the stock was counted
    | Solve(p: Packet)              // a solution saved

  /** Whether a pruner's or a searcher's request can be served with this possibility. */
  predicate Suits(p: Packet, uncheckedOnly: bool) { uncheckedOnly ==> !p.checked }

  /** At most so many, all suitable, all in the stock. */
  predicate Extracts(stock: multiset<Packet>, ps: seq<Packet>, max: nat, uncheckedOnly: bool) {
    multiset(ps) <= stock && |ps| <= max && forall q :: q in ps ==> Suits(q, uncheckedOnly)
  }

  /** Something if there is anything suitable, and checked possibilities before others. */
  predicate Prefers(stock: multiset<Packet>, ps: seq<Packet>, uncheckedOnly: bool) {
    forall p :: p in stock && Suits(p, uncheckedOnly) ==> ps != [] && (p.checked ==> forall q :: q in ps ==> q.checked)
  }

  /** Calls a pool may refuse. */
  predicate Refusable(m: Move) { m.Deposit? || m.Enrol? || m.Return? || m.Withdraw? || m.Recall? }

  predicate Enabled(l: Ledger, m: Move) {
    match m
    case Deposit(_) => true
    case Take(ps, max, only) => Extracts(l.stock, ps, max, only) && (max > 0 ==> Prefers(l.stock, ps, only))
    case Scant(ps, max, only) => Extracts(l.stock, ps, max, only)
    case Enrol(p) => p in l.hand
    case Return(p) => p in l.hand
    case Save(p) => p in l.hand
    case Withdraw(p) => p in l.analysed
    case Recall(p) => p in l.analysed
    case Repeat(_) => true
    case Reclaim(p) => p in l.analysed
    case Absent(p) => p !in l.analysed
    case Refused(call) => Refusable(call)
    case Size(n) => n == |l.stock|
    case Solve(_) => true
  }

  function Make(l: Ledger, m: Move): Ledger {
    match m
    case Deposit(ps) => l.(stock := l.stock + multiset(ps), accepted := l.accepted + multiset(ps))
    case Take(ps, _, _) => l.(stock := l.stock - multiset(ps), hand := l.hand + multiset(ps))
    case Scant(ps, _, _) => l.(stock := l.stock - multiset(ps), hand := l.hand + multiset(ps))
    case Enrol(p) => l.(hand := l.hand - multiset{p}, analysed := l.analysed + multiset{p})
    case Return(p) => l.(hand := l.hand - multiset{p}, stock := l.stock + multiset{p})
    case Save(p) => l.(hand := l.hand - multiset{p}, errors := l.errors + multiset{p})
    case Withdraw(p) => l.(analysed := l.analysed - multiset{p}, acked := l.acked + multiset{p})
    case Recall(p) => l.(analysed := l.analysed - multiset{p}, hand := l.hand + multiset{p})
    case Repeat(p) => l.(hand := l.hand + multiset{p}, repeated := l.repeated + multiset{p})
    case Reclaim(p) => l.(analysed := l.analysed - multiset{p}, stock := l.stock + multiset{p})
    case Solve(p) => l.(solutions := l.solutions + multiset{p})
    case _ => l
  }

  /** How many copies there are, wherever they are. */
  function Placed(l: Ledger, p: Packet): nat { l.stock[p] + l.analysed[p] + l.errors[p] + l.hand[p] + l.acked[p] }

  /** How many copies there should be. */
  function Owed(l: Ledger, p: Packet): nat { l.accepted[p] + l.repeated[p] }

  /** Every copy ever accepted (or repeated) is in exactly one place, or acknowledged. */
  ghost predicate Conserved(l: Ledger) {
    forall p :: Placed(l, p) == Owed(l, p)
  }

  lemma MoveConservesAt(l: Ledger, m: Move, p: Packet)
    requires Enabled(l, m)
    ensures Placed(Make(l, m), p) + Owed(l, p) == Placed(l, p) + Owed(Make(l, m), p)
  {
    if m.Take? || m.Scant? {
      assert multiset(m.ps)[p] <= l.stock[p];
    }
  }

  lemma MoveConserves(l: Ledger, m: Move)
    requires Conserved(l) && Enabled(l, m)
    ensures Conserved(Make(l, m))
  {
    forall p ensures Placed(Make(l, m), p) == Owed(Make(l, m), p) {
      MoveConservesAt(l, m, p);
      assert Placed(l, p) == Owed(l, p);
    }
  }

  predicate Runnable(l: Ledger, run: seq<Move>)
    decreases |run|
  {
    run == [] || (Enabled(l, run[0]) && Runnable(Make(l, run[0]), run[1..]))
  }

  function Run(l: Ledger, run: seq<Move>): Ledger
    decreases |run|
  {
    if run == [] then l else Run(Make(l, run[0]), run[1..])
  }

  lemma {:induction false} RunConserves(l: Ledger, run: seq<Move>)
    requires Conserved(l) && Runnable(l, run)
    ensures Conserved(Run(l, run))
    decreases |run|
  {
    if run != [] {
      MoveConserves(l, run[0]);
      RunConserves(Make(l, run[0]), run[1..]);
    }
  }

  lemma {:induction false} RunAppend(l: Ledger, run: seq<Move>, more: seq<Move>)
    ensures Run(l, run + more) == Run(Run(l, run), more)
    decreases |run|
  {
    if run == [] {
      assert [] + more == more;
    } else {
      assert (run + more)[1..] == run[1..] + more;
      RunAppend(Make(l, run[0]), run[1..], more);
    }
  }

  lemma RunOne(l: Ledger, m: Move)
    ensures Run(l, [m]) == Make(l, m)
  {
    assert [m][1..] == [];
  }

  lemma RunTwo(l: Ledger, m: Move, k: Move)
    ensures Run(l, [m, k]) == Make(Make(l, m), k)
  {
    assert [m, k][1..] == [k];
    RunOne(Make(l, m), k);
  }

  lemma {:induction false} RunMore(l: Ledger, run: seq<Move>, m: Move)
    requires Runnable(l, run) && Enabled(Run(l, run), m)
    ensures Runnable(l, run + [m]) && Run(l, run + [m]) == Make(Run(l, run), m)
    decreases |run|
  {
    if run == [] {
      assert [] + [m] == [m] && [m][1..] == [];
    } else {
      RunMore(Make(l, run[0]), run[1..], m);
      assert (run + [m])[1..] == run[1..] + [m];
    }
  }

  const NOTHING := Ledger(multiset{}, multiset{}, multiset{}, multiset{}, multiset{}, multiset{}, multiset{}, multiset{})

  /** The books some run of moves, by any number of threads, comes to. */
  ghost predicate Reached(l: Ledger) { exists run :: Runnable(NOTHING, run) && Run(NOTHING, run) == l }

  /**
   Over any interleaved run of connections, whenever no thread is in the middle of a move: every accepted
   possibility that was not acknowledged is in the stock, in the analysed pool or in the error file; and exactly
   once, unless it was ever put back without having confirmed its absence.
   */
  lemma NothingLost(l: Ledger, p: Packet)
    requires Reached(l) && l.hand == multiset{}
    ensures l.accepted[p] <= l.acked[p] + l.stock[p] + l.analysed[p] + l.errors[p]
    ensures l.repeated[p] == 0 ==> l.accepted[p] == l.acked[p] + l.stock[p] + l.analysed[p] + l.errors[p]
  {
    var run :| Runnable(NOTHING, run) && Run(NOTHING, run) == l;
    RunConserves(NOTHING, run);
    assert Placed(l, p) == Owed(l, p);
  }

  // ------------------------------------------------------------------
  // Who made which move
  // ------------------------------------------------------------------

  /** A move and whether the thread that is followed made it. */
  datatype Entry = Entry(own: bool, m: Move)

  function All(log: seq<Entry>): (ms: seq<Move>)
    ensures |ms| == |log| && forall i :: 0 <= i < |log| ==> ms[i] == log[i].m
  {
    seq(|log|, i requires 0 <= i < |log| => log[i].m)
  }

  /** The moves of the thread that is followed (or of all the others), in order. */
  function By(log: seq<Entry>, own: bool): (ms: seq<Move>) {
    if log == [] then []
    else By(log[..|log| - 1], own) + if log[|log| - 1].own == own then [log[|log| - 1].m] else []
  }

  function Own(log: seq<Entry>): seq<Move> { By(log, true) }

  lemma ByStep(log: seq<Entry>, e: Entry, own: bool)
    ensures By(log + [e], own) == By(log, own) + if e.own == own then [e.m] else []
  {
    assert (log + [e])[..|log|] == log;
  }

  /** All moves so far, and among them those of the thread that is followed. */
  datatype Story = Story(log: seq<Entry>, mine: seq<Move>)

  const NO_STORY := Story([], [])

  function Noted(s: Story, e: Entry): Story { Story(s.log + [e], if e.own then s.mine + [e.m] else s.mine) }

  ghost predicate Consistent(s: Story) { s.mine == Own(s.log) }

  lemma NotedConsistent(s: Story, e: Entry)
    requires Consistent(s)
    ensures Consistent(Noted(s, e))
  {
    ByStep(s.log, e, true);
  }

  /** The story went on, whoever else moved meanwhile, by exactly these moves of the thread that is followed. */
  ghost predicate Extends(a: Story, b: Story, ms: seq<Move>) { a.log <= b.log && b.mine == a.mine + ms }

  lemma ExtendsNone(a: Story)
    ensures Extends(a, a, [])
  {
  }

  lemma ExtendsOne(a: Story, b: Story, ms: seq<Move>, e: Entry)
    requires Extends(a, b, ms)
    ensures Extends(a, Noted(b, e), if e.own then ms + [e.m] else ms)
  {
    assert (a.mine + ms) + [e.m] == a.mine + (ms + [e.m]);
  }

  lemma ExtendsThen(a: Story, b: Story, c: Story, ms: seq<Move>)
    requires Extends(a, b, []) && Extends(b, c, ms)
    ensures Extends(a, c, ms)
  {
    assert a.mine + [] == a.mine;
  }

  lemma ExtendsChain(a: Story, b: Story, c: Story, ms: seq<Move>, more: seq<Move>)
    requires Extends(a, b, ms) && Extends(b, c, more)
    ensures Extends(a, c, ms + more)
  {
    assert (a.mine + ms) + more == a.mine + (ms + more);
  }

  /** These are the books the logged moves come to, from books in which every copy had its place. */
  ghost predicate Logged(start: Ledger, log: seq<Entry>, l: Ledger) {
    Conserved(start) && Runnable(start, All(log)) && Run(start, All(log)) == l
  }

  lemma LoggedStart(start: Ledger)
    requires Conserved(start)
    ensures Logged(start, [], start)
  {
    assert All([]) == [];
  }

  lemma LoggedMore(start: Ledger, log: seq<Entry>, l: Ledger, e: Entry)
    requires Logged(start, log, l) && Enabled(l, e.m)
    ensures Logged(start, log + [e], Make(l, e.m))
  {
    RunMore(start, All(log), e.m);
    assert All(log + [e]) == All(log) + [e.m];
  }

  lemma {:induction false} RunnablePrefix(l: Ledger, run: seq<Move>, n: nat)
    requires n <= |run| && Runnable(l, run)
    ensures Runnable(l, run[..n])
    decreases n
  {
    if n > 0 {
      RunnablePrefix(Make(l, run[0]), run[1..], n - 1);
      assert run[..n][0] == run[0] && run[..n][1..] == run[1..][..n - 1];
    }
  }

  /** At every moment of the run, inside instructions too, every copy is in exactly one place. */
  lemma EveryMoment(start: Ledger, log: seq<Entry>, l: Ledger, n: nat)
    requires Logged(start, log, l) && n <= |log|
    ensures Conserved(Run(start, All(log[..n])))
  {
    RunnablePrefix(start, All(log), n);
    assert All(log[..n]) == All(log)[..n];
    RunConserves(start, All(log[..n]));
  }

  lemma {:induction false} RunnableAt(l: Ledger, run: seq<Move>, n: nat)
    requires n < |run| && Runnable(l, run)
    ensures Enabled(Run(l, run[..n]), run[n])
    decreases n
  {
    if n > 0 {
      RunnableAt(Make(l, run[0]), run[1..], n - 1);
      assert run[..n][0] == run[0] && run[..n][1..] == run[1..][..n - 1];
    }
  }

  /** Every logged move was possible when it was made: what was absent was absent, what was counted was there, and so on. */
  lemma WasPossible(start: Ledger, log: seq<Entry>, l: Ledger, n: nat)
    requires Logged(start, log, l) && n < |log|
    ensures Enabled(Run(start, All(log[..n])), log[n].m)
  {
    RunnableAt(start, All(log), n);
    assert All(log[..n]) == All(log)[..n];
  }

  lemma LoggedConserved(start: Ledger, log: seq<Entry>, l: Ledger)
    requires Logged(start, log, l)
    ensures Conserved(l)
  {
    EveryMoment(start, log, l, |log|);
    assert log[..|log|] == log;
  }

  /** How often the moves store a possibility for a client, or withdraw it as analysed. */
  function Deposited(ms: seq<Move>, p: Packet): nat {
    if ms == [] then 0
    else Deposited(ms[..|ms| - 1], p) + if ms[|ms| - 1].Deposit? then multiset(ms[|ms| - 1].ps)[p] else 0
  }

  function Withdrawn(ms: seq<Move>, p: Packet): nat {
    if ms == [] then 0
    else Withdrawn(ms[..|ms| - 1], p) + if ms[|ms| - 1] == Withdraw(p) then 1 else 0
  }

  lemma RunLast(l: Ledger, ms: seq<Move>)
    requires ms != []
    ensures Run(l, ms) == Make(Run(l, ms[..|ms| - 1]), ms[|ms| - 1])
  {
    var n := |ms| - 1;
    assert ms == ms[..n] + [ms[n]];
    RunAppend(l, ms[..n], [ms[n]]);
    RunOne(Run(l, ms[..n]), ms[n]);
  }

  lemma {:induction false} CountsAre(l: Ledger, ms: seq<Move>, p: Packet)
    ensures Run(l, ms).accepted[p] == l.accepted[p] + Deposited(ms, p) && Run(l, ms).acked[p] == l.acked[p] + Withdrawn(ms, p)
    decreases |ms|
  {
    if ms != [] {
      CountsAre(l, ms[..|ms| - 1], p);
      RunLast(l, ms);
    }
  }

  lemma DepositedStep(ms: seq<Move>, m: Move, p: Packet)
    ensures Deposited(ms + [m], p) == Deposited(ms, p) + if m.Deposit? then multiset(m.ps)[p] else 0
  {
    assert (ms + [m])[..|ms|] == ms;
  }

  /** What the moves store is what this thread's moves and what the others' moves store. */
  ghost predicate SharesAdd(log: seq<Entry>, p: Packet) {
    Deposited(All(log), p) == Deposited(By(log, true), p) + Deposited(By(log, false), p)
  }

  lemma SharesStep(log: seq<Entry>, e: Entry, more: seq<Entry>, p: Packet)
    requires more == log + [e] && SharesAdd(log, p)
    ensures SharesAdd(more, p)
  {
    ByStep(log, e, true);
    ByStep(log, e, false);
    assert All(log + [e]) == All(log) + [e.m];
    DepositedStep(All(log), e.m, p);
    DepositedStep(By(log, e.own), e.m, p);
    assert By(log, !e.own) + [] == By(log, !e.own);
  }

  lemma {:induction false} SharesAlways(log: seq<Entry>, p: Packet)
    ensures SharesAdd(log, p)
    decreases |log|
  {
    if log == [] {
      assert All(log) == [];
    } else {
      SharesAlways(log[..|log| - 1], p);
      SharesStep(log[..|log| - 1], log[|log| - 1], log, p);
    }
  }

  /**
   Whatever the other threads do, at every moment: each possibility that this thread's clients were told is stored is
   acknowledged, in one of the pools, in the error file, or in the hand of a thread that moves it.
   */
  lemma StoredStays(start: Ledger, log: seq<Entry>, l: Ledger, p: Packet)
    requires Logged(start, log, l)
    ensures Deposited(Own(log), p) <= l.acked[p] + l.stock[p] + l.analysed[p] + l.errors[p] + l.hand[p]
  {
    SharesAlways(log, p);
    CountsAre(start, All(log), p);
    LoggedConserved(start, log, l);
    assert Placed(l, p) == Owed(l, p);
  }
}
