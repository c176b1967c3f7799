/**
 The server's side of a work connection (`src/app/etii_server.c`): serving, storing, acknowledging, and giving
 back what a lost client had not acknowledged. The stock and the analysed pool are known by what their calls
 answer: any call may be refused while maintenance holds the pools, and before each call the other threads make any
 moves of their own.
 */
module ServerStep {
  import opened ServerLedger
  import opened ServerProtocol

  /** A batch as the server holds it: the entries are the first `size` of the block. */
  class Batch {
    var possibilities: array<Packet>
    var size: nat

    constructor (block: array<Packet>)
      ensures possibilities == block && size == block.Length
    {
      possibilities := block;
      size := block.Length;
    }

    ghost predicate Valid()
      reads this
    {
      size <= possibilities.Length
    }

    ghost function Entries(): seq<Packet>
      reads this, possibilities
      requires Valid()
    {
      possibilities[..size]
    }
  }

  class Connection {
    var versionSupported: bool
    var hasIdentity: bool
    var isControl: bool
    var lastSent: Batch?

    constructor ()
      ensures !versionSupported && !hasIdentity && !isControl && lastSent == null
    {
      versionSupported, hasIdentity, isControl, lastSent := false, false, false, null;
    }

    ghost predicate Valid()
      reads this, lastSent
    {
      lastSent != null ==> lastSent.Valid()
    }

    /** The connection as it follows from its requests and replies; `open` is kept by the loop that reads it. */
    ghost function View(open: bool): Peer
      requires Valid()
      reads this, lastSent, if lastSent == null then {} else {lastSent.possibilities}
    {
      Peer(open, versionSupported, hasIdentity, isControl, if lastSent == null then [] else lastSent.Entries())
    }
  }

  /** What a thread holds after a move of its own. */
  function HeldAfter(held: multiset<Packet>, m: Move): multiset<Packet> {
    match m
    case Take(ps, _, _) => held + multiset(ps)
    case Scant(ps, _, _) => held + multiset(ps)
    case Enrol(p) => held - multiset{p}
    case Return(p) => held - multiset{p}
    case Save(p) => held - multiset{p}
    case Recall(p) => held + multiset{p}
    case Repeat(p) => held + multiset{p}
    case _ => held
  }

  /** A thread moves what it holds itself. */
  predicate Holds(held: multiset<Packet>, m: Move) { m.Enrol? || m.Return? || m.Save? ==> m.p in held }

  /** A pool refuses while maintenance holds it, and only then. */
  predicate Heeds(m: Move, locked: bool) {
    && (m.Refused? || m.Scant? ==> locked)
    && (m.Take? || m.Absent? || Refusable(m) ==> !locked)
  }

  lemma OwnHeld(l: Ledger, held: multiset<Packet>, m: Move)
    requires held <= l.hand && Enabled(l, m) && Holds(held, m)
    ensures HeldAfter(held, m) <= Make(l, m).hand
  {
  }

  lemma OthersHeld(l: Ledger, held: multiset<Packet>, m: Move)
    requires held <= l.hand && Enabled(l.(hand := l.hand - held), m)
    ensures Enabled(l, m) && held <= Make(l, m).hand
  {
  }

  lemma PickExists(stock: multiset<Packet>, max: nat, uncheckedOnly: bool)
    ensures exists ps: seq<Packet> :: Extracts(stock, ps, max, uncheckedOnly) && (max > 0 ==> Prefers(stock, ps, uncheckedOnly))
  {
    var pick: seq<Packet> := [];
    if max > 0 {
      if p :| p in stock && Suits(p, uncheckedOnly) && p.checked {
        pick := [p];
      } else if p :| p in stock && Suits(p, uncheckedOnly) {
        pick := [p];
      }
    }
    assert Extracts(stock, pick, max, uncheckedOnly);
  }

  class Server {
    var books: Ledger                // the pools, and who holds what
    var held: multiset<Packet>       // what the thread that is followed holds
    var locked: bool                 // maintenance holds the pools
    ghost const start: Ledger        // the books at the beginning
    ghost var story: Story           // every move so far

    ghost predicate Valid()
      reads this
    {
      Logged(start, story.log, books) && Consistent(story) && held <= books.hand
    }

    /** The pools may hold what an earlier run left in them. */
    constructor (stock: multiset<Packet>, analysed: multiset<Packet>)
      ensures Valid() && held == multiset{} && story == NO_STORY
      ensures books == start ==
        Ledger(stock, analysed, multiset{}, multiset{}, stock + analysed, multiset{}, multiset{}, multiset{})
    {
      books := Ledger(stock, analysed, multiset{}, multiset{}, stock + analysed, multiset{}, multiset{}, multiset{});
      start := Ledger(stock, analysed, multiset{}, multiset{}, stock + analysed, multiset{}, multiset{}, multiset{});
      held, story, locked := multiset{}, NO_STORY, false;
      new;
      LoggedStart(start);
    }

    // ----------------------------------------------------------------
    // Moves
    // ----------------------------------------------------------------

    /** One move of the thread that is followed. */
    method Do(m: Move)
      requires Valid() && Enabled(books, m) && Holds(held, m) && Heeds(m, locked)
      modifies this`books, this`held, this`story
      ensures Valid() && books == Make(old(books), m)
      ensures Extends(old(story), story, [m]) && held == HeldAfter(old(held), m)
    {
      OwnHeld(books, held, m);
      LoggedMore(start, story.log, books, Entry(true, m));
      NotedConsistent(story, Entry(true, m));
      held := HeldAfter(held, m);
      books, story := Make(books, m), Noted(story, Entry(true, m));
    }

    /** Any number of moves of the other threads, with what they hold themselves; maintenance comes and goes. */
    method Others()
      requires Valid()
      modifies this`books, this`story, this`locked
      ensures Valid() && Extends(old(story), story, [])
    {
      ExtendsNone(story);
      locked := *;
      var n: nat := *;
      while n > 0
        invariant Valid() && Extends(old(story), story, []) && held == old(held)
      {
        var m: Move := *;
        if Enabled(books.(hand := books.hand - held), m) {
          OthersHeld(books, held, m);
          LoggedMore(start, story.log, books, Entry(false, m));
          ExtendsOne(old(story), story, [], Entry(false, m));
          NotedConsistent(story, Entry(false, m));
          books, story := Make(books, m), Noted(story, Entry(false, m));
        }
        n := n - 1;
      }
    }

    // ----------------------------------------------------------------
    // One call into the stock or the analysed pool, and its move
    // ----------------------------------------------------------------

    /** Store all of a client's batch or, refused, nothing of it. */
    method StoreBatch(ps: seq<Packet>) returns (rc: int)
      requires Valid()
      modifies this
      ensures Valid() && held == old(held) && (rc == 0 <==> !locked)
      ensures Extends(old(story), story, [StoreMove(ps, rc == 0)])
    {
      Others();
      ghost var before := story;
      rc := if locked then -1 else 0;
      Do(StoreMove(ps, !locked));
      ExtendsThen(old(story), before, story, [StoreMove(ps, rc == 0)]);
    }

    /** Put back into the stock a possibility this thread holds; refused, it still holds it. */
    method AddBack(p: Packet) returns (rc: int)
      requires Valid() && p in held
      modifies this
      ensures Valid() && (rc == 0 <==> !locked) && held == if rc == 0 then old(held) - multiset{p} else old(held)
      ensures Extends(old(story), story, [if rc == 0 then Return(p) else Refused(Return(p))])
    {
      Others();
      ghost var before := story;
      rc := if locked then -1 else 0;
      Do(if locked then Refused(Return(p)) else Return(p));
      ExtendsThen(old(story), before, story, [if rc == 0 then Return(p) else Refused(Return(p))]);
    }

    method SaveError(p: Packet)
      requires Valid() && p in held
      modifies this
      ensures Valid() && held == old(held) - multiset{p} && Extends(old(story), story, [Save(p)])
    {
      Others();
      ghost var before := story;
      Do(Save(p));
      ExtendsThen(old(story), before, story, [Save(p)]);
    }

    /** Register one possibility as being analysed; refused when the pool stays locked. */
    method RecordOne(p: Packet) returns (ok: bool)
      requires Valid() && p in held
      modifies this
      ensures Valid() && ok == !locked && held == if ok then old(held) - multiset{p} else old(held)
      ensures Extends(old(story), story, [if ok then Enrol(p) else Refused(Enrol(p))])
    {
      Others();
      ghost var before := story;
      ok := !locked;
      Do(if locked then Refused(Enrol(p)) else Enrol(p));
      ExtendsThen(old(story), before, story, [if ok then Enrol(p) else Refused(Enrol(p))]);
    }

    /** Acknowledge: 0 removed; 1 absent, certainly; -1 nothing could be locked. */
    method WithdrawAnalysed(p: Packet) returns (rc: int)
      requires Valid()
      modifies this
      ensures Valid() && held == old(held) && (rc == 0 || rc == 1 || rc == -1) && (rc == -1 <==> locked)
      ensures Extends(old(story), story, [if rc == 0 then Withdraw(p) else if rc == 1 then Absent(p) else Refused(Withdraw(p))])
    {
      Others();
      ghost var before := story;
      rc := if locked then -1 else if p in books.analysed then 0 else 1;
      Do(if rc == 0 then Withdraw(p) else if rc == 1 then Absent(p) else Refused(Withdraw(p)));
      ExtendsThen(old(story), before, story, [if rc == 0 then Withdraw(p) else if rc == 1 then Absent(p) else Refused(Withdraw(p))]);
    }

    /** Remove in order to give back; without certainty (-1) the caller holds a copy all the same. */
    method RecallAnalysed(p: Packet) returns (rc: int)
      requires Valid()
      modifies this
      ensures Valid() && (rc == 0 || rc == 1 || rc == -1) && (rc == -1 <==> locked)
      ensures held == if rc == 1 then old(held) else old(held) + multiset{p}
      ensures Extends(old(story), story, if rc == 1 then [Absent(p)] else RecallMoves(p, rc == 0))
    {
      Others();
      ghost var before := story;
      rc := if locked then -1 else if p in books.analysed then 0 else 1;
      if locked {
        CopyUnsure(p);
      } else {
        Do(if rc == 0 then Recall(p) else Absent(p));
      }
      ExtendsThen(old(story), before, story, if rc == 1 then [Absent(p)] else RecallMoves(p, rc == 0));
    }

    method CopyUnsure(p: Packet)
      requires Valid() && locked
      modifies this`books, this`held, this`story
      ensures Valid() && held == old(held) + multiset{p} && Extends(old(story), story, RecallMoves(p, false))
    {
      Do(Refused(Recall(p)));
      ghost var between := story;
      Do(Repeat(p));
      ExtendsChain(old(story), between, story, [Refused(Recall(p))], [Repeat(p)]);
    }

    /** Extract at most `max` possibilities, from the unchecked pool only if asked. */
    method TakeFromStock(max: nat, uncheckedOnly: bool) returns (block: array<Packet>, ghost m: Move)
      requires Valid()
      modifies this
      ensures Valid() && fresh(block) && Took(m, block[..], max, uncheckedOnly) && (m.Scant? <==> locked)
      ensures held == old(held) + multiset(block[..]) && Extends(old(story), story, [m])
    {
      Others();
      ghost var before := story;
      var ps := Chosen(books.stock, max, uncheckedOnly, locked);
      m := if locked then Scant(ps, max, uncheckedOnly) else Take(ps, max, uncheckedOnly);
      Do(if locked then Scant(ps, max, uncheckedOnly) else Take(ps, max, uncheckedOnly));
      ExtendsThen(old(story), before, story, [m]);
      block := BlockOf(ps);
    }

    static method BlockOf(ps: seq<Packet>) returns (block: array<Packet>)
      ensures fresh(block) && block[..] == ps
    {
      block := new Packet[|ps|](i requires 0 <= i < |ps| => ps[i]);
    }

    static method Chosen(stock: multiset<Packet>, max: nat, uncheckedOnly: bool, locked: bool) returns (ps: seq<Packet>)
      ensures Extracts(stock, ps, max, uncheckedOnly) && (max > 0 && !locked ==> Prefers(stock, ps, uncheckedOnly))
    {
      PickExists(stock, max, uncheckedOnly);
      ps :| Extracts(stock, ps, max, uncheckedOnly) && (max > 0 && !locked ==> Prefers(stock, ps, uncheckedOnly));
    }

    /** Count the stock. */
    method StockSize() returns (n: nat)
      requires Valid()
      modifies this
      ensures Valid() && held == old(held) && Extends(old(story), story, [Size(n)])
    {
      Others();
      ghost var before := story;
      n := |books.stock|;
      Do(Size(n));
      ExtendsThen(old(story), before, story, [Size(n)]);
    }

    method SaveSolution(p: Packet)
      requires Valid()
      modifies this
      ensures Valid() && held == old(held) && Extends(old(story), story, [Solve(p)])
    {
      Others();
      ghost var before := story;
      Do(Solve(p));
      ExtendsThen(old(story), before, story, [Solve(p)]);
    }

    // ----------------------------------------------------------------
    // Serving
    // ----------------------------------------------------------------

    /** Put back one possibility this thread holds; when the stock refuses it, it goes to the error file. */
    method GiveBack(p: Packet) returns (stored: bool)
      requires Valid() && p in held
      modifies this
      ensures Valid() && held == old(held) - multiset{p} && Extends(old(story), story, BackMoves(p, stored))
    {
      var rc := AddBack(p);
      stored := rc == 0;
      if rc != 0 {
        ghost var between := story;
        SaveError(p);
        ExtendsChain(old(story), between, story, [Refused(Return(p))], [Save(p)]);
      }
    }

    method PlaceOne(p: Packet) returns (ok: bool, ghost o: Placing)
      requires Valid() && p in held
      modifies this
      ensures Valid() && ok == o.Registered? && held == old(held) - multiset{p}
      ensures Extends(old(story), story, PlaceMoves(p, o))
    {
      ok := RecordOne(p);
      o := Registered;
      if !ok {
        ghost var between := story;
        var stored := GiveBack(p);
        o := Back(stored);
        ExtendsChain(old(story), between, story, [Refused(Enrol(p))], BackMoves(p, stored));
      }
    }

    /** One entry of the batch: registered, it moves down to the end of the entries kept so far. */
    method RecordEntry(block: array<Packet>, p: nat, kept: nat, ghost ps: seq<Packet>, ghost os: seq<Placing>)
      returns (nowKept: nat, ghost o: Placing)
      requires Valid() && p < |ps| && ps[p] in held && Compacted(block[..], ps, os, p, kept)
      modifies this, block
      ensures Valid() && Compacted(block[..], ps, os + [o], p + 1, nowKept)
      ensures held == old(held) - multiset{ps[p]} && Extends(old(story), story, PlaceMoves(ps[p], o))
    {
      var possibility := block[p];
      nowKept := kept;
      var ok;
      ok, o := PlaceOne(possibility);
      if ok {
        if kept != p {
          block[kept] := possibility;
        }
        nowKept := kept + 1;
      }
      CompactedMore(old(block[..]), block[..], ps, os, p, kept, o);
    }

    /** The first `n` cells, one after the other; `kept` of them remain, in front. */
    method RecordAll(block: array<Packet>, n: nat, ghost ps: seq<Packet>) returns (kept: nat, ghost os: seq<Placing>)
      requires Valid() && n <= block.Length && ps == block[..n] && multiset(ps) <= held
      modifies this, block
      ensures Valid() && kept <= n && |os| == n && Extends(old(story), story, BatchMoves(ps, os))
      ensures held == HandAfter(old(held), ps, n) && block[..kept] == Enrolled(ps, os)
    {
      ghost var h := held;
      kept, os := 0, [];
      ExtendsNone(story);
      for p := 0 to n
        invariant Valid() && |os| == p && Extends(old(story), story, BatchMoves(ps, os)) && held == HandAfter(h, ps, p)
        invariant Compacted(block[..], ps, os, p, kept)
      {
        StillHeld(h, ps, p);
        ghost var before, o := story, Registered;
        kept, o := RecordEntry(block, p, kept, ps, os);
        ExtendsChain(old(story), before, story, BatchMoves(ps, os), PlaceMoves(ps[p], o));
        BatchStep(ps, os, o);
        os := os + [o];
      }
    }

    /**
     Register a batch just extracted, compacting it in place: what remains is, in order, exactly the entries
     that were registered, and each of the others went back to the stock or to the error file.
     */
    method RecordBatch(b: Batch) returns (ghost os: seq<Placing>)
      requires Valid() && b.Valid() && multiset(b.Entries()) <= held
      modifies this, b`size, b.possibilities
      ensures Valid() && b.Valid() && |os| == old(b.size)
      ensures Extends(old(story), story, BatchMoves(old(b.Entries()), os))
      ensures held == HandAfter(old(held), old(b.Entries()), old(b.size))
      ensures b.Entries() == Enrolled(old(b.Entries()), os)
    {
      var kept;
      kept, os := RecordAll(b.possibilities, b.size, b.Entries());
      b.size := kept;
    }

    method Extract(max: nat, uncheckedOnly: bool)
      returns (b: Batch, ghost taken: seq<Packet>, ghost os: seq<Placing>, ghost ms: seq<Move>)
      requires Valid()
      modifies this
      ensures Valid() && fresh(b) && fresh(b.possibilities) && b.Valid() && held == old(held)
      ensures Serves(b.Entries(), max, uncheckedOnly, taken, os, ms) && Extends(old(story), story, ms)
    {
      var block;
      ghost var m;
      block, m := TakeFromStock(max, uncheckedOnly);
      taken := block[..];
      b := new Batch(block);
      assert b.Entries() == taken;
      ghost var before := story;
      os := RecordBatch(b);
      ms := [m] + BatchMoves(taken, os);
      ExtendsChain(old(story), before, story, [m], BatchMoves(taken, os));
      AllPlaced(old(held), taken);
      assert ms[0] == m && ms[1..] == BatchMoves(taken, os);
    }

    /** Extract, register, and remember as last sent; what is sent is what was registered. */
    method Serve(c: Connection, max: nat, uncheckedOnly: bool) returns (reply: Reply, ghost ms: seq<Move>)
      requires Valid() && c.Valid()
      modifies this, c`lastSent
      ensures Valid() && c.Valid() && held == old(held) && Extends(old(story), story, ms)
      ensures c.lastSent != null && fresh(c.lastSent) && fresh(c.lastSent.possibilities) && reply == Served(c.lastSent.Entries())
      ensures ServesBatch(reply.ps, max, uncheckedOnly, ms)
    {
      c.lastSent := null;
      var b;
      ghost var taken, os;
      b, taken, os, ms := Extract(max, uncheckedOnly);
      c.lastSent := b;
      reply := Served(b.possibilities[..b.size]);
      assert Serves(reply.ps, max, uncheckedOnly, taken, os, ms);
    }

    // ----------------------------------------------------------------
    // Acknowledging
    // ----------------------------------------------------------------

    /**
     The packets that arrive are acknowledged one by one, even if the transfer breaks before the last:
     exactly those found in the analysed pool leave it.
     */
    method AcknowledgeAll(packets: seq<Packet>, m: nat) returns (complete: bool, ghost ms: seq<Move>)
      requires Valid()
      modifies this
      ensures Valid() && held == old(held) && complete == (m <= |packets|)
      ensures |ms| == (if complete then m else |packets|) && AcksAll(ms, packets)
      ensures Extends(old(story), story, ms)
    {
      var p := 0;
      ms := [];
      ExtendsNone(story);
      while p < m && p < |packets|
        invariant p == |ms| <= m && p <= |packets| && Valid() && held == old(held)
        invariant AcksAll(ms, packets) && Extends(old(story), story, ms)
      {
        ghost var before := story;
        var rc := WithdrawAnalysed(packets[p]);
        ghost var move := if rc == 0 then Withdraw(packets[p]) else if rc == 1 then Absent(packets[p]) else Refused(Withdraw(packets[p]));
        ExtendsChain(old(story), before, story, ms, [move]);
        ms := ms + [move];
        p := p + 1;
      }
      complete := p == m;
    }

    // ----------------------------------------------------------------
    // The instruction loop
    // ----------------------------------------------------------------

    /** One instruction of a work connection. False when the connection must be closed. */
    method Step(c: Connection, r: Request) returns (cont: bool, replies: seq<Reply>, ghost ms: seq<Move>)
      requires Valid() && c.Valid()
      modifies this, c
      ensures Valid() && c.Valid() && held == old(held) && Extends(old(story), story, ms)
      ensures Told(r, old(c.versionSupported), replies, ms)
      ensures c.View(cont) == After(old(c.View(true)), r, replies)
    {
      ms := [];
      ExtendsNone(story);
      if r.CheckVersion? {
        cont, replies := Handshake(c, r);
      } else if r.TestConnected? {
        cont, replies := true, [Connected];
      } else if !c.versionSupported {
        cont, replies := false, [Unsupported];
      } else {
        cont, replies, ms := Instruction(c, r);
      }
    }

    method Handshake(c: Connection, r: Request) returns (cont: bool, replies: seq<Reply>)
      requires r.CheckVersion? && c.Valid()
      modifies c`versionSupported
      ensures c.Valid() && Told(r, old(c.versionSupported), replies, []) && c.View(cont) == After(old(c.View(true)), r, replies)
    {
      cont, replies := r.received, [];
      if r.received {
        if r.matches {
          c.versionSupported := true;
        }
        replies := if r.matches then [Supported] else [Unsupported];
      }
    }

    /** An instruction of a client whose version was accepted. */
    method Instruction(c: Connection, r: Request) returns (cont: bool, replies: seq<Reply>, ghost ms: seq<Move>)
      requires Valid() && c.Valid() && c.versionSupported && !r.CheckVersion? && !r.TestConnected?
      modifies this, c`lastSent, c`hasIdentity, c`isControl
      ensures Valid() && c.Valid() && held == old(held) && Extends(old(story), story, ms)
      ensures Told(r, true, replies, ms) && c.View(cont) == After(old(c.View(true)), r, replies)
    {
      if r.Get? || r.GetToCheck? || r.GetToCheckBatch? {
        cont, replies, ms := Hand(c, r);
      } else {
        cont, replies, ms := Receive(c, r);
      }
    }

    /** The instructions that do not ask for possibilities: what was last sent stays. */
    method Receive(c: Connection, r: Request) returns (cont: bool, replies: seq<Reply>, ghost ms: seq<Move>)
      requires Valid() && c.Valid() && c.versionSupported && !r.CheckVersion? && !r.TestConnected?
      requires !r.Get? && !r.GetToCheck? && !r.GetToCheckBatch?
      modifies this, c`hasIdentity, c`isControl
      ensures Valid() && c.Valid() && held == old(held) && Extends(old(story), story, ms)
      ensures Told(r, true, replies, ms) && c.View(cont) == After(old(c.View(true)), r, replies)
    {
      if r.Add? || r.AddBatch? || r.Analysed? || r.AnalysedBatch? {
        cont, replies, ms := Deliver(r);
        AfterDelivery(old(c.View(true)), r, replies);
      } else {
        cont, replies, ms := Introduce(c, r);
      }
    }

    /** The instructions that ask for possibilities. */
    method Hand(c: Connection, r: Request) returns (cont: bool, replies: seq<Reply>, ghost ms: seq<Move>)
      requires Valid() && c.Valid() && c.versionSupported && (r.Get? || r.GetToCheck? || r.GetToCheckBatch?)
      modifies this, c`lastSent
      ensures Valid() && c.Valid() && held == old(held) && Extends(old(story), story, ms)
      ensures Told(r, true, replies, ms) && c.View(cont) == After(old(c.View(true)), r, replies)
    {
      if r.GetToCheckBatch? && !r.received {
        ExtendsNone(story);
        return false, [], [];
      }
      var reply;
      reply, ms := Serve(c, MaxServed(r), !r.Get?);
      cont, replies := true, [reply];
      AfterServing(old(c.View(true)), r, replies);
    }

    /** The instructions that leave the pools alone: announcements, a solution found, the question whether work is wanted. */
    method Introduce(c: Connection, r: Request) returns (cont: bool, replies: seq<Reply>, ghost ms: seq<Move>)
      requires Valid() && c.Valid() && c.versionSupported
      requires r.Solution? || r.NeedWork? || r.ControlHello? || r.ClientHello? || r.Unknown?
      modifies this, c`hasIdentity, c`isControl
      ensures Valid() && c.Valid() && held == old(held) && Extends(old(story), story, ms)
      ensures Told(r, true, replies, ms) && c.View(cont) == After(old(c.View(true)), r, replies)
    {
      if r.Solution? || r.NeedWork? {
        cont, replies, ms := Account(r);
      } else {
        ExtendsNone(story);
        ms := [];
        cont, replies := Greet(c, r);
      }
    }

    /** The two announcements, and what is no instruction. */
    method Greet(c: Connection, r: Request) returns (cont: bool, replies: seq<Reply>)
      requires c.Valid() && c.versionSupported && (r.ControlHello? || r.ClientHello? || r.Unknown?)
      modifies c`hasIdentity, c`isControl
      ensures c.Valid() && Told(r, true, replies, []) && c.View(cont) == After(old(c.View(true)), r, replies)
    {
      cont, replies := false, [];
      if r.ControlHello? && r.received && r.decodes && r.room {
        c.isControl := true;
        cont := true;
      } else if r.ClientHello? && r.received {
        if r.decodes {
          c.hasIdentity := true;
        }
        cont := true;
      }
    }

    /** A solution is saved before it is acknowledged; a number wanted is reckoned from the stock as it is. */
    method Account(r: Request) returns (cont: bool, replies: seq<Reply>, ghost ms: seq<Move>)
      requires Valid() && (r.Solution? || r.NeedWork?)
      modifies this
      ensures Valid() && held == old(held) && Extends(old(story), story, ms)
      ensures (cont <==> Whole(r)) && Told(r, true, replies, ms) && !Handed(replies)
    {
      if r.NeedWork? {
        var n := StockSize();
        cont, replies, ms := true, [Wanted(Hunger(n, r.threads))], [Size(n)];
      } else if r.received {
        SaveSolution(r.p);
        cont, replies, ms := !r.stops, [Considered], [Solve(r.p)];
      } else {
        ExtendsNone(story);
        cont, replies, ms := false, [], [];
      }
    }

    /** The instructions that bring something: possibilities to store, or acknowledgements. */
    method Deliver(r: Request) returns (cont: bool, replies: seq<Reply>, ghost ms: seq<Move>)
      requires Valid() && (r.Add? || r.AddBatch? || r.Analysed? || r.AnalysedBatch?)
      modifies this
      ensures Valid() && held == old(held) && Extends(old(story), story, ms)
      ensures (cont <==> Whole(r)) && Told(r, true, replies, ms) && !Handed(replies)
    {
      if r.AnalysedBatch? {
        cont, replies, ms := DeliverAcks(r);
      } else if r.Analysed? {
        cont, replies, ms := DeliverAck(r);
      } else if r.Add? {
        cont, replies, ms := DeliverStored(r, [r.p], r.received);
      } else {
        var complete := r.countReceived && r.k > 0 && r.k <= ADD_BATCH_MAX && r.roomFound && |r.packets| == r.k;
        cont, replies, ms := DeliverStored(r, r.packets, complete);
      }
    }

    method DeliverStored(r: Request, ps: seq<Packet>, complete: bool) returns (cont: bool, replies: seq<Reply>, ghost ms: seq<Move>)
      requires Valid() && (r.Add? || r.AddBatch?) && ps == Brought(r) && (complete <==> Whole(r))
      modifies this
      ensures Valid() && held == old(held) && Extends(old(story), story, ms)
      ensures (cont <==> Whole(r)) && Told(r, true, replies, ms) && !Handed(replies)
    {
      if !complete {
        ExtendsNone(story);
        return false, [], [];
      }
      var rc := StoreBatch(ps);
      cont, replies, ms := true, if rc == 0 then [Considered] else [Error], [StoreMove(ps, rc == 0)];
    }

    method DeliverAck(r: Request) returns (cont: bool, replies: seq<Reply>, ghost ms: seq<Move>)
      requires Valid() && r.Analysed?
      modifies this
      ensures Valid() && held == old(held) && Extends(old(story), story, ms)
      ensures (cont <==> Whole(r)) && Told(r, true, replies, ms) && !Handed(replies)
    {
      if !r.received {
        ExtendsNone(story);
        return false, [], [];
      }
      var rc := WithdrawAnalysed(r.p);
      cont, replies := true, if rc == 0 then [Considered] else [Error];
      ms := [if rc == 0 then Withdraw(r.p) else if rc == 1 then Absent(r.p) else Refused(Withdraw(r.p))];
    }

    method DeliverAcks(r: Request) returns (cont: bool, replies: seq<Reply>, ghost ms: seq<Move>)
      requires Valid() && r.AnalysedBatch?
      modifies this
      ensures Valid() && held == old(held) && Extends(old(story), story, ms)
      ensures (cont <==> Whole(r)) && Told(r, true, replies, ms) && !Handed(replies)
    {
      if !r.countReceived || r.m < 0 || r.m > PRUNER_BATCH_MAX {
        ExtendsNone(story);
        return false, [], [];
      }
      cont, ms := AcknowledgeAll(r.packets, r.m);
      replies := if cont then [Considered] else [Error];
    }

    // ----------------------------------------------------------------
    // The end of a connection
    // ----------------------------------------------------------------

    method RequeueOne(p: Packet) returns (ghost f: Fate)
      requires Valid()
      modifies this
      ensures Valid() && held == old(held) && Extends(old(story), story, FateMoves(p, f))
    {
      var rc := RecallAnalysed(p);
      f := Gone;
      if rc != 1 {
        ghost var between := story;
        PutBack(old(held), p);
        var stored := GiveBack(p);
        f := Given(rc == 0, stored);
        ExtendsChain(old(story), between, story, RecallMoves(p, rc == 0), BackMoves(p, stored));
      }
    }

    /**
     The end of a connection: each possibility last sent goes back to the stock (or to the error file), except
     those whose absence from the analysed pool is certain; nothing moves if the client is known to be alive.
     */
    method Requeue(c: Connection, alive: bool) returns (ghost ms: seq<Move>)
      requires Valid() && c.Valid()
      modifies this
      ensures Valid() && held == old(held) && Extends(old(story), story, ms) && EndMoves(old(c.View(true)), alive, ms)
    {
      ghost var ps := c.View(true).lastSent;
      ghost var fs: seq<Fate> := [];
      ms := [];
      ExtendsNone(story);
      if c.lastSent == null {
        assert GivesBack(ps, fs, ms);
        return;
      }
      if c.hasIdentity && alive {
        return;
      }
      var b := c.lastSent;
      for rp := 0 to b.size
        invariant Valid() && held == old(held) && |fs| == rp
        invariant ms == RequeueMoves(ps, fs) && Extends(old(story), story, ms)
      {
        ghost var before := story;
        var f := RequeueOne(b.possibilities[rp]);
        ExtendsChain(old(story), before, story, ms, FateMoves(ps[rp], f));
        RequeueStep(ps, fs, f);
        fs := fs + [f];
        ms := RequeueMoves(ps, fs);
      }
      assert GivesBack(ps, fs, ms);
    }

    /** The end of a connection, which then holds nothing to give back any more. */
    method Hangup(c: Connection, alive: bool) returns (ghost ms: seq<Move>)
      requires Valid() && c.Valid()
      modifies this, c`lastSent
      ensures Valid() && held == old(held) && c.lastSent == null && Extends(old(story), story, ms)
      ensures EndMoves(old(c.View(true)), alive, ms)
    {
      ms := Requeue(c, alive);
      c.lastSent := null;
    }

    /** A whole work connection, from its first instruction to its end or to its turning into a control session. */
    method Communicate(requests: seq<Request>, alive: bool)
      returns (answers: seq<seq<Reply>>, ghost parts: seq<seq<Move>>, ghost last: seq<Move>)
      requires Valid() && held == multiset{}
      modifies this
      ensures Valid() && held == multiset{} && AllTold(requests, answers, parts)
      ensures var peer := PeerAfter(requests, answers, |answers|);
              (|answers| < |requests| ==> !Serving(peer)) && EndMoves(peer, alive, last)
      ensures Extends(old(story), story, Flat(parts) + last)
    {
      var c := new Connection();
      var i, cont := 0, true;
      answers, parts := [], [];
      ExtendsNone(story);
      while i < |requests| && cont && !c.isControl
        invariant Valid() && held == multiset{} && c.Valid() && fresh(c) && i <= |requests|
        invariant |answers| == i && Extends(old(story), story, Flat(parts)) && AllTold(requests, answers, parts)
        invariant c.View(cont) == PeerAfter(requests, answers, i)
        decreases |requests| - i
      {
        ghost var before := story;
        var replies;
        ghost var ms;
        cont, replies, ms := Step(c, requests[i]);
        ExtendsChain(old(story), before, story, Flat(parts), ms);
        FlatStep(parts, ms);
        ToldMore(requests, answers, parts, replies, ms);
        answers, parts, i := answers + [replies], parts + [ms], i + 1;
      }
      ghost var before := story;
      last := Hangup(c, alive);
      ExtendsChain(old(story), before, story, Flat(parts), last);
    }

    /**
     Any number of connections, their instructions in any order, and the other threads in between and inside each of
     them: each connection gets what it is owed, as if it were alone.
     */
    method ServeAll(n: nat, happenings: seq<Happening>) returns (answers: seq<seq<Reply>>, ghost parts: seq<seq<Move>>)
      requires Valid() && held == multiset{} && Among(happenings, n)
      modifies this
      ensures Valid() && held == multiset{} && |answers| == |happenings| && AllOwed(n, happenings, answers, parts)
      ensures Extends(old(story), story, Flat(parts))
    {
      var conns := OpenAll(n);
      var open := seq(n, i => true);
      answers, parts := [], [];
      ExtendsNone(story);
      for k := 0 to |happenings|
        invariant Valid() && held == multiset{} && |open| == |conns| == n && Distinct(conns)
        invariant forall i :: 0 <= i < n ==> fresh(conns[i])
        invariant |answers| == k && Extends(old(story), story, Flat(parts)) && AllOwed(n, happenings, answers, parts)
        invariant Stand(conns, open, PeersAfter(n, happenings, answers, k))
      {
        ghost var before, ms := story, [];
        ghost var told := parts;
        open, answers, parts, ms := Next(conns, open, happenings, answers, parts);
        ExtendsChain(old(story), before, story, Flat(told), ms);
        FlatStep(told, ms);
      }
    }

    /** The next happening: every connection then stands as it should, and was given what it is owed. */
    method Next(conns: seq<Connection>, open: seq<bool>, happenings: seq<Happening>, answers: seq<seq<Reply>>,
                ghost parts: seq<seq<Move>>)
      returns (nowOpen: seq<bool>, given: seq<seq<Reply>>, ghost made: seq<seq<Move>>, ghost ms: seq<Move>)
      requires Valid() && held == multiset{} && Among(happenings, |conns|) && |answers| < |happenings| && Distinct(conns)
      requires AllOwed(|conns|, happenings, answers, parts)
      requires Stand(conns, open, PeersAfter(|conns|, happenings, answers, |answers|))
      modifies this, conns[happenings[|answers|].conn]
      ensures Valid() && held == multiset{} && Extends(old(story), story, ms) && made == parts + [ms] && |given| == |answers| + 1
      ensures AllOwed(|conns|, happenings, given, made)
      ensures |nowOpen| == |conns| && Stand(conns, nowOpen, PeersAfter(|conns|, happenings, given, |given|))
    {
      var h := happenings[|answers|];
      var cont, replies;
      cont, replies, ms := HappenAmong(conns, open, PeersAfter(|conns|, happenings, answers, |answers|), h);
      OwedMore(|conns|, happenings, answers, parts, replies, ms);
      nowOpen, given, made := open[h.conn := cont], answers + [replies], parts + [ms];
    }

    /** One happening among all connections: the others stand as before. */
    method HappenAmong(conns: seq<Connection>, open: seq<bool>, ghost peers: seq<Peer>, h: Happening)
      returns (cont: bool, replies: seq<Reply>, ghost ms: seq<Move>)
      requires Valid() && held == multiset{} && h.conn < |conns| && Distinct(conns) && Stand(conns, open, peers)
      modifies this, conns[h.conn]
      ensures Valid() && held == multiset{} && Extends(old(story), story, ms) && Owes(peers[h.conn], h, replies, ms)
      ensures Stand(conns, open[h.conn := cont], peers[h.conn := Happened(peers[h.conn], h, replies)])
    {
      var c := conns[h.conn];
      assert c.Valid() && c.View(open[h.conn]) == peers[h.conn];
      cont, replies, ms := Happen(c, open[h.conn], h);
      forall i | 0 <= i < |conns| && i != h.conn ensures conns[i].Valid() && conns[i].View(open[i]) == peers[i] {
        assert conns[i] != c;
        assert old(conns[i].Valid()) && old(conns[i].View(open[i])) == peers[i];
      }
    }

    /** One happening on one connection; one that is no longer served does nothing any more. */
    method Happen(c: Connection, open: bool, h: Happening) returns (cont: bool, replies: seq<Reply>, ghost ms: seq<Move>)
      requires Valid() && c.Valid() && held == multiset{}
      modifies this, c
      ensures Valid() && c.Valid() && held == multiset{} && Extends(old(story), story, ms)
      ensures Owes(old(c.View(open)), h, replies, ms) && c.View(cont) == Happened(old(c.View(open)), h, replies)
    {
      cont, replies, ms := open, [], [];
      ExtendsNone(story);
      match h {
        case Instructs(_, r) =>
          if open && !c.isControl {
            cont, replies, ms := Step(c, r);
          }
        case Ends(_, alive) =>
          cont := false;
          ms := Hangup(c, alive);
      }
    }

    static method OpenAll(n: nat) returns (conns: seq<Connection>)
      ensures |conns| == n && Distinct(conns)
      ensures forall i :: 0 <= i < n ==> fresh(conns[i]) && conns[i].Valid() && conns[i].View(true) == NEW_PEER
    {
      conns := [];
      for k := 0 to n
        invariant |conns| == k && Distinct(conns)
        invariant forall i :: 0 <= i < k ==> fresh(conns[i]) && conns[i].Valid() && conns[i].View(true) == NEW_PEER
      {
        var c := new Connection();
        conns := conns + [c];
      }
    }
  }

  ghost predicate Distinct(conns: seq<Connection>) { forall i, j :: 0 <= i < j < |conns| ==> conns[i] != conns[j] }

  /** Each connection stands as its requests and replies say. */
  ghost predicate Stand(conns: seq<Connection>, open: seq<bool>, peers: seq<Peer>)
    reads conns, set c | c in conns :: c.lastSent,
          set c | c in conns && c.lastSent != null :: c.lastSent.possibilities
  {
    |open| == |peers| == |conns| && forall i :: 0 <= i < |conns| ==> conns[i].Valid() && conns[i].View(open[i]) == peers[i]
  }
}
