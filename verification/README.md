# Eternity II: a model of the tools and of the client and server runtime

The repository searches for solutions of the Eternity II edge-matching puzzle with a fleet of clients around a
server, and ships tools that turn partial boards into SAT problems and generate puzzles of its kind. This project
models the parts whose correctness does not show in any single function, and proves what they promise.

* **SAT encoding** (`CnfModel`, `Puzzle`, `CompletionCnf`, `RootTables`, `RootToCnf`, `VerifyModel`). A partial
  board becomes a formula through a candidate filter, one pruning pass over edge colours, and two at-most-one
  encodings. The formula is satisfiable exactly when the board can be completed, for every size, piece set and
  partial board without contradiction; every model decodes to a completion; the independent verifier accepts a
  model exactly when the completion shows no grey inside.
* **Generator and validator** (`Rotations`, `ValidatePieces`, `CloneGen`, `CloneCheck`, `EngineFiles`). A planted
  solution is cut into rotated pieces, written to files, read back and checked. A kept draw always passes its own
  check, the topology and pairing checks of the validator, and the SAT verifier, and the engine reads its files as
  they are meant; the pairing check refuses no solvable set, and the exact exceptions of the topology check are stated.
* **Quiescence gate** (`ForkGateProtocol`, `ForkGate`, `SpawnGate`). Threads with a lock-free fast path, a mutex and
  two condition variables, as interleaved steps. Nobody passes a checkpoint while a quiescence is held; no wake-up is
  lost; a timeout leaves everybody awake. With the driver on top: a process is only created, and the shared structures
  are only rebuilt, in such a quiescence and with no process of an older lot left.
* **Spliced compressed stream** (`BackupStream`). Written data and ready-made frames end up as whole frames in
  call order, and a reader accepts exactly the undamaged files that end on a frame boundary; a stream on which nothing
  failed is closed with success, and reads back as what was written.
* **Server registers and service loop** (`KnownClientsModel`, `KnownClientsTotals`, `KnownClients`,
  `ControlRegistryModel`, `ControlRegistryRuns`, `ControlRegistry`, `ServerLedger`, `ServerProtocol`, `ServerStep`).
  Cumulative values kept by deltas equal an account kept from the events; control queues are first-in first-out and
  follow the wanted pause state, and a new session finds the last dosage its machine took; no possibility the server
  accepted is ever lost, whatever other threads do between any two calls into the pools, each request gets the reply
  it is owed, and each reply stands for exactly the calls its instruction made.
* **Death ring, configuration text, process life cycle** (`DeathRing`, `Decimals`, `ConfigText`, `ConfigGrammar`,
  `ConfigFiles`, `OrchestratorModel`, `Orchestrator`). The overwriting ring accounts for every record; writing and
  reading a configuration undo each other, and what is read is exactly what a grammar says; a lot of processes is only
  spawned when no older process is left, orders are carried out, and a stop sends exactly the signals silence calls for.

Code that updates state is modelled as classes and methods with loops. Each such method is tied to a function of
the old state, and the lemmas are about those functions and about whole runs of events. Clocks, identifiers drawn
at random, system-call results, compressor behaviour and the order in which threads run are arbitrary.

## Where the code and its description differ

The model follows the code; each point is stated as a lemma.

* The verifier of models rejects a correct board with a grey inner edge (`VerifyModel.CorrectButRejected`); this
  never happens to a model when the pieces have the grey structure (`VerifyModel.StructureAccepts`).
* The topology check refuses the one-piece board (`ValidatePieces.OneCellRefused`) and boards with inner grey
  (`ValidatePieces.FourBlanksRefused`); it accepts all other solvable sets (`ValidatePieces.TopologyExact`).
* The register of known clients documents its mutation counter as covering every real change; it misses exactly
  one (`KnownClientsModel.UnnotedChange`, reached in `UnnotedReached`). A report that finds no session is documented as
  having no effect; it has one (`KnownClientsModel.UntrackedReport`, reached in `UntrackedReached`) exactly when it
  finds the machine (`KnownClientsModel.UntrackedReportExact`).
* A dosage order can leave half of its two commands in a queue with one place left (`ControlRegistryRuns.HalfDosage`),
  unless the client takes one in between (`ControlRegistryRuns.HalfDosageExact`). A broadcast pause or resume is lost
  on a full queue (`ControlRegistryRuns.FullQueueMissesSwitch`), and one sent to a single session parts it from the fleet
  (`ControlRegistryRuns.SendMissesFleet`); a session stops agreeing with the wanted state exactly as
  `ControlRegistryRuns.BroadcastExact` and `ControlRegistryRuns.SendExact` say.
* A rate limit with a minus sign is meant to be refused; behind a vertical tab or a form feed it is read and wraps
  around (`ConfigText.NegativeLimit`, `ConfigText.NegativeLimitLine`).
* A configuration that can be loaded cannot always be saved: its text must fit a buffer of 1024 characters
  (`ConfigFiles.ConfigFile.Save`, `ConfigFiles.LoadedButNotSaved`).
* The message about coinciding hint positions asks for a side of at least 8; sides 3 and 7 work as well
  (`CloneCheck.HintsApart`).
* A configuration begun is documented as cancelling the countdown for good. In the turn whose snapshot it missed the
  deadline still starts a lot (`OrchestratorModel.LateCountdownStart`), and only then
  (`OrchestratorModel.StartsAloneExact`, `OrchestratorModel.DeadlineExact`).
* Deaths recorded while a drain of a full ring is running can be read out of order (`DeathRing.OverrunDrain`);
  `DeathRing.DrainExact` says exactly when they cannot.
* Two lots of processes can overlap when a `start` is accepted while a configuration is being applied and the
  quiescence is then refused (`OrchestratorModel.RefusedStartOverlaps`), and only then
  (`OrchestratorModel.RefusalExact`, `OrchestratorModel.LotsNeverOverlap`).

## Model

| member | source | states |
|---|---|---|
| `CnfModel.Cnf.NewVar` | tools/root_to_cnf.py:329-331 | hands out the next number and nothing else changes |
| `CnfModel.Cnf.Add` | tools/root_to_cnf.py:333-336 | appends the clause and remembers whether an empty one was ever added |
| `CnfModel.Cnf.Amo` | tools/root_to_cnf.py:338-355 | appends exactly the at-most-one clauses and allocates exactly their auxiliaries, for every list and threshold |
| `CnfModel.AmoSound` | tools/root_to_cnf.py:338-355 | a model of the clauses added has at most one true literal in the list |
| `CnfModel.AmoComplete` | tools/root_to_cnf.py:338-355 | an assignment with at most one true literal extends to the auxiliaries |
| `CnfModel.AmoExact` | tools/root_to_cnf.py:338-355 | both directions at once: the assignments that extend are exactly those with at most one true literal, pairwise or sequential |
| `CnfModel.AmoSize` | tools/root_to_cnf.py:338-355 | only fresh variables are used; k-1 variables and 3k-4 clauses sequentially, k(k-1)/2 clauses pairwise |
| `CnfModel.StatesAmo` | tools/root_to_cnf.py:338-355 | adding an at-most-one to a formula adds exactly that constraint to its meaning over the earlier variables |
| `Puzzle.FaceIndex` | tools/root_to_cnf.py:186-192 | face `i` of a rotated piece is face `(i - r) mod 4` of the piece, for every rotation |
| `Puzzle.GreyFacesCard` | tools/root_to_cnf.py:205-219 | grey faces counted piece by piece: one, two, three and four times the pieces with that many |
| `Puzzle.OutwardCard` | tools/root_to_cnf.py:205-219 | a board of side S has exactly 4S sides that look out |
| `Puzzle.SidesBound` | tools/root_to_cnf.py:205-219 | a placement never shows more sides of a colour than the pieces carry faces of it |
| `Puzzle.NoInnerGrey` | tools/root_to_cnf.py:205-219 | with the grey structure, no complete correct board has a grey inner edge: the outline uses all grey faces up |
| `RootTables.StructuralGreyCheck` | tools/root_to_cnf.py:205-223 | the counting loop accepts exactly the piece sets with the grey structure of a board of that size |
| `RootTables.EmptyCells` | tools/root_to_cnf.py:363-365 | lists every cell not on the board, once each |
| `RootTables.Sorted` | tools/root_to_cnf.py:367 | the elements of a set, each once, in order |
| `RootTables.DistinctRotations` | tools/root_to_cnf.py:195-202 | keeps, of the four rotations, exactly the first of each class that shows the same faces: all shown, none twice |
| `RootTables.FixedSides` | tools/root_to_cnf.py:378-391 | the colour the frame or a placed neighbour imposes on each side of each empty cell, or none |
| `RootTables.CandidatesOf` | tools/root_to_cnf.py:393-413 | lists exactly the placements that respect the imposed sides and, if asked, show no inner grey |
| `RootTables.FreeEdges` | tools/root_to_cnf.py:415-423 | every edge between two empty cells, once |
| `RootTables.Domains` | tools/root_to_cnf.py:433-441 | each free edge keeps exactly the colours both of its cells can show |
| `RootTables.Prune` | tools/root_to_cnf.py:443-456 | one pass keeps exactly the candidates that show a domain colour on every free side |
| `CompletionCnf.DecodeExact` | tools/root_to_cnf.py:598-603 | with one slot per cell, reading a model back gives exactly the true placement variables |
| `CompletionCnf.StatedFills` | tools/root_to_cnf.py:495-530 | every assignment that meets the constraints decodes to a filling the question asks for, each free piece used once |
| `CompletionCnf.FillsStated` | tools/root_to_cnf.py:393-530 | every filling asked for is described by an assignment: candidate filter, one-pass pruning and rotation de-duplication lose none |
| `CompletionCnf.WantedIffCompletion` | tools/root_to_cnf.py:358-373 | if grey is only forbidden on the strength of the grey structure, a filling asked for exists exactly when a completion does |
| `CompletionCnf.CompletionCounts` | tools/root_to_cnf.py:367-369 | a board with a completion has as many free pieces as empty cells, so the refusal loses nothing |
| `CompletionCnf.KeptExact` | tools/root_to_cnf.py:433-456 | the pruning pass keeps exactly the candidates that, on every free side, some candidate of the neighbour can meet |
| `RootToCnf.PlacementVars` | tools/root_to_cnf.py:458-462 | one fresh variable per kept candidate, all distinct |
| `RootToCnf.ColourVars` | tools/root_to_cnf.py:463-466 | one fresh variable per colour of each edge domain, distinct from all placement variables |
| `RootToCnf.AddDead` | tools/root_to_cnf.py:483-493 | an empty clause exactly when a cell has no candidate or an edge no colour |
| `RootToCnf.DeadEndShows` | tools/root_to_cnf.py:479-512 | the early verdict: a cell without candidate, an edge without colour or a piece without cell, exactly when the tables show one |
| `RootToCnf.AddCells` | tools/root_to_cnf.py:495-499 | adds exactly the constraint that one piece lies on each empty cell |
| `RootToCnf.AddPieces` | tools/root_to_cnf.py:501-513 | adds exactly the constraint that each free piece lies on one cell, an empty clause included |
| `RootToCnf.AddEdges` | tools/root_to_cnf.py:515-520 | adds exactly the constraint that each free edge has one colour |
| `RootToCnf.AddLinks` | tools/root_to_cnf.py:522-530 | adds exactly the implications from placements to the colours they show |
| `RootToCnf.GroupOne` | tools/root_to_cnf.py:495-520 | exactly one literal of a duplicate-free group is true exactly when exactly one of its items is chosen |
| `RootToCnf.EmitClauses` | tools/root_to_cnf.py:483-530 | the whole clause phase states neither more nor less than the filling constraints |
| `RootToCnf.Encode` | tools/root_to_cnf.py:358-542 | refuses exactly when pieces and cells do not match in number; otherwise the formula describes exactly the fillings, and its early verdict is set exactly when a dead end shows in the tables |
| `RootToCnf.EncodeRoot` | tools/root_to_cnf.py:375-530 | the same for given lists: tables, variables and clauses together |
| `RootToCnf.SatisfiableExact` | tools/root_to_cnf.py:371-530 | whatever the grey option, the formula is satisfiable exactly when a completion exists that shows no forbidden grey |
| `RootToCnf.SatisfiableIffCompletable` | tools/root_to_cnf.py:358-542 | the formula is satisfiable exactly when the partial board has a completion, and every model decodes to one |
| `VerifyModel.ReadPlacements` | tools/root_to_cnf.py:598-603 | reads back the true placements, a later one overwriting an earlier one, and reports every cell read twice |
| `VerifyModel.Overlay` | tools/root_to_cnf.py:605-609 | adds the read placements to the root and reports every cell already occupied |
| `VerifyModel.CheckPieces` | tools/root_to_cnf.py:614-623 | no fault exactly when every piece is known, used once, and turned by 0 to 3 |
| `VerifyModel.CheckColours` | tools/root_to_cnf.py:625-646 | no fault exactly when every side of every known piece agrees with its neighbour or with the frame |
| `VerifyModel.VerifyModel` | tools/root_to_cnf.py:588-647 | accepts exactly the acceptable models |
| `VerifyModel.AcceptableExact` | tools/root_to_cnf.py:588-647 | with as many pieces as cells, acceptable means: a solution without inner grey, read without overlap |
| `VerifyModel.AssignedIsDecode` | tools/root_to_cnf.py:598-603 | what the verifier reads is what the encoder meant |
| `VerifyModel.ModelAccepted` | tools/root_to_cnf.py:588-647 | a model of the formula is always a solution, and is accepted exactly when it shows no inner grey |
| `VerifyModel.StructureAccepts` | tools/root_to_cnf.py:588-647 | with the grey structure no model of the formula is ever rejected |
| `VerifyModel.CorrectButRejected` | tools/root_to_cnf.py:645-646 | four blank pieces on a board of side two: correct, yet rejected for inner grey |
| `ForkGateProtocol.StepInv` | src/app/fork_gate.c:84-223 | every step of every thread keeps the protocol invariant |
| `ForkGateProtocol.RunInv` | src/app/fork_gate.c:84-223 | hence every reachable state has it |
| `ForkGateProtocol.PassesExact` | src/app/fork_gate.c:122-148 | a step takes a thread out of a checkpoint exactly when it is the return of the fast path or, with the flag down, a step of the slow path |
| `ForkGateProtocol.HeldStep` | src/app/fork_gate.c:122-148 | while a quiescence is held no single step lets a thread past a checkpoint, and only the release ends it |
| `ForkGateProtocol.NoPassWhileHeld` | src/app/fork_gate.c:122-207 | over any run between the return of QUIESCED and the release, no thread passes a checkpoint, late lock-free reads included |
| `ForkGateProtocol.QuiescedMeansQuiet` | src/app/fork_gate.c:173-207 | when QUIESCED is returned every registered participant is parked or in a declared blocking call |
| `ForkGateProtocol.ReturnedFromCallParks` | src/app/fork_gate.c:150-161 | a participant that comes back from a blocking call during a quiescence ends up parked |
| `ForkGateProtocol.NoLostWakeup` | src/app/fork_gate.c:142-147 | in every reachable state: flag down means nobody sleeps on it; a sleeping requester means somebody still runs |
| `ForkGateProtocol.CancelWakesAll` | src/app/fork_gate.c:188-223 | giving up on timeout, like releasing, lowers the flag and wakes every parked thread, which then gets out |
| `ForkGateProtocol.RequestCanSucceed` | src/app/fork_gate.c:173-207 | from any waiting state, letting the running participants reach their checkpoint completes the request |
| `SpawnGate.StepInv` | src/app/fork_orchestrator.c:601-690 | every step of the participants, the console and the driver keeps the invariant of gate, life cycle and lot together |
| `SpawnGate.WorkInPeace` | src/app/fork_orchestrator.c:601-925 | over any run a process is only created, and the shared structures only rebuilt, with no process of an older lot left and nobody past a checkpoint since a moment at which all participants were parked or blocked |
| `SpawnGate.RefusalDoesNothing` | src/app/fork_orchestrator.c:640-652 | a refused quiescence fills no slot and rebuilds nothing: it costs one failure, or the configuration |
| `SpawnGate.LotMatches` | src/app/fork_orchestrator.c:601-745 | what the creation loop leaves in free slots is exactly what the steps of the lot filled |
| `SpawnGate.AttemptCanSucceed` | src/app/fork_gate.c:173-207 | from any attempt with time left a run of participants alone grants the quiescence |
| `ForkGate.Gate.Register` | src/app/fork_gate.c:84-108 | takes the first free slot, or reports a full table |
| `ForkGate.Gate.Unregister` | src/app/fork_gate.c:110-120 | frees the slot, free already or not, and tells a waiting requester; no effect outside the table |
| `ForkGate.Gate.ReadFlag` | src/app/fork_gate.c:122-128 | the fast path is one read of the flag and moves nothing else; an index outside the table passes at once |
| `ForkGate.Gate.ParkOrPass` | src/app/fork_gate.c:128-142 | the slow path is the locked step of the protocol: park, or pass if the flag is down |
| `ForkGate.Gate.AfterWait` | src/app/fork_gate.c:142-148 | after a wake-up: sleep again while the flag is up, else run |
| `ForkGate.Gate.MarkBlocked` | src/app/fork_gate.c:150-161 | entering and leaving a blocking call are the protocol steps of that name; no effect outside the table |
| `ForkGate.Gate.AllParticipantsQuiescent` | src/app/fork_gate.c:163-171 | true exactly when no registered participant is running |
| `ForkGate.Gate.RequestQuiesce` | src/app/fork_gate.c:173-188 | raises the flag; QUIESCED at once exactly when all are quiet |
| `ForkGate.Gate.AfterStateWait` | src/app/fork_gate.c:188-207 | after a wake-up or a timeout: QUIESCED, wait again, or lower the flag and wake everybody |
| `ForkGate.Gate.ReleaseQuiesce` | src/app/fork_gate.c:209-223 | lowers the flag and wakes everybody |
| `BackupStream.Concatenation` | src/core/backup_stream.c:348-376 | two runs of whole frames one after the other decode to the two texts one after the other (section 3 of RFC 8878) |
| `BackupStream.InsideFrame` | src/core/backup_stream.c:167-211 | a position strictly inside a frame is never a frame boundary |
| `BackupStream.BoundaryUnique` | src/core/backup_stream.c:167-211 | a byte count names at most one boundary |
| `BackupStream.WholeFile` | src/core/backup_stream.c:167-211 | a complete file ends on a boundary, and its text is the concatenated contents |
| `BackupStream.Reader.Decompress` | src/core/backup_stream.c:178-200 | one decompressor call moves along the frames and hands out the next bytes of their text, whatever amounts it takes and gives; it fails only in front of damage |
| `BackupStream.Reader.Turn` | src/core/backup_stream.c:175-210 | one turn of the loop delivers the next bytes, ends at a boundary, fails for a reason, or makes progress |
| `BackupStream.Reader.Read` | src/core/backup_stream.c:167-211 | delivers the next bytes of the text in order; end of data only at a frame boundary; an error only on an I/O failure, damaged data, or a file cut inside a frame |
| `BackupStream.Reader.ReadAll` | src/core/backup_stream.c:167-211 | for any chunking the loop of reads ends: with the text of the whole frames exactly when no read failed and the file is undamaged and ends between frames, else with an error |
| `BackupStream.Writer.ZsWrite` | src/core/backup_stream.c:130-148 | everything handed over is in the open frame, or the stream is in error |
| `BackupStream.Writer.EndFrame` | src/core/backup_stream.c:214-228 | success leaves whole frames only, whose text grew by the open content |
| `BackupStream.Writer.Write` | src/core/backup_stream.c:259-281 | what was written is the text so far plus the data, however the library splits it |
| `BackupStream.Writer.Flush` | src/core/backup_stream.c:357-359 | nothing is retained afterwards, or the stream is in error |
| `BackupStream.Writer.WriteZstdFrame` | src/core/backup_stream.c:348-376 | the ready frame ends the file as it is, after everything written before it |
| `BackupStream.Writer.Close` | src/core/backup_stream.c:230-251 | success exactly when nothing ever failed on the stream; then the file is whole frames, no more than needed, whose decoded concatenation is everything written in call order |
| `BackupStream.CloseAndRead` | src/core/backup_stream.c:130-251 | a file on whose stream nothing failed is closed with success and, read back without I/O failure, gives exactly what was written |
| `Rotations.FacesAreTurns` | tools/gen_clone.py:152-155 | rotating by r is r mod 4 quarter turns |
| `Rotations.TurnsAdd` | tools/gen_clone.py:152-155 | quarter turns add up, for any numbers of them |
| `Rotations.RotateTwice` | tools/gen_clone.py:152-155 | rotating twice is rotating by the sum, for all integers |
| `Rotations.RotateUnrotate` | tools/gen_clone.py:142-155 | `rotate` and `unrotate` undo each other both ways |
| `Rotations.CanonicalExact` | tools/gen_clone.py:157-160 | two pieces have the same canonical form exactly when one is a rotation of the other |
| `Rotations.SymmetryExact` | tools/gen_clone.py:162-164 | a piece counts as symmetric exactly when half a turn leaves it as it is |
| `Rotations.TurnedAlike` | tools/gen_clone.py:157-160 | how two pieces lie makes no difference to whether they are rotations of each other |
| `Rotations.CheckDuplicatePieces` | tools/validate_pieces.py:288-322 | reports exactly the pieces that have a rotated twin before them |
| `ValidatePieces.CheckTopology` | tools/validate_pieces.py:152-212 | no error exactly when there are 4 corners, 4(k-2) edges, (k-2)^2 inner pieces and nothing else |
| `ValidatePieces.CheckColourPairing` | tools/validate_pieces.py:215-256 | no error exactly when every colour count is even and no piece holds more of a colour than all the others |
| `ValidatePieces.SolvedTopology` | tools/validate_pieces.py:152-212 | the pieces of a correct board of side at least 2 without inner grey pass the topology check |
| `ValidatePieces.TopologyStructure` | tools/validate_pieces.py:152-212 | a set that passes has the grey structure |
| `ValidatePieces.TopologyExact` | tools/validate_pieces.py:152-212 | the pieces of a correct board pass exactly when its side is at least 2 and no inner edge is grey |
| `ValidatePieces.OneCellRefused` | tools/validate_pieces.py:152-212 | the pieces of a correct board of side 1 are refused |
| `ValidatePieces.OneBlankRefused` | tools/validate_pieces.py:152-212 | one blank piece, which is its own solution, is such a set |
| `ValidatePieces.FourBlanksRefused` | tools/validate_pieces.py:152-212 | four blank pieces are a correct board of side two, refused for the grey inside |
| `ValidatePieces.PairedEven` | tools/validate_pieces.py:215-256 | a finite set with a fixed-point-free involution has even size |
| `ValidatePieces.SolvedEven` | tools/validate_pieces.py:215-256 | on a correct board the count of a colour is the number of sides showing it, and even |
| `ValidatePieces.SolvedFair` | tools/validate_pieces.py:215-256 | on a correct board no piece holds more of a colour than all the others together |
| `ValidatePieces.SolvedPairing` | tools/validate_pieces.py:215-256 | the pieces of any correct board pass the pairing check, inner grey or not |
| `CloneGen.EdgeSlots` | tools/gen_clone.py:88-110 | every inner edge of the grid once, split into those along the outline and the others |
| `CloneGen.FrameCount` | tools/gen_clone.py:88-110 | the outline family has exactly 4(n-1) edges |
| `CloneGen.Shuffle` | tools/gen_clone.py:113-130 | a shuffle is a permutation |
| `CloneGen.CycleShares` | tools/gen_clone.py:113-130 | dealing a palette round and round gives colour k its floor share, plus one for the first few |
| `CloneGen.AssignBalanced` | tools/gen_clone.py:113-130 | every slot gets a palette colour, and each colour the floor or the ceiling of its share |
| `CloneGen.FacingEdge` | tools/gen_clone.py:133-139 | two cells drawn side by side show each other the colour of their edge |
| `CloneGen.CutSolves` | tools/gen_clone.py:171-210 | a complete cut is a solution of its own pieces without inner grey, whatever rotations were drawn |
| `CloneGen.CutBoard` | tools/gen_clone.py:191-209 | every cell gets its piece and rotation; the draw is rejected exactly when some cell shows a symmetric or repeated piece |
| `CloneGen.RejectedRedundant` | tools/gen_clone.py:200-206 | a piece refused while cutting is symmetric or shown by another cell as well |
| `CloneGen.CutNotRedundant` | tools/gen_clone.py:200-206 | when every cell was cut into a piece of its own, no cell was symmetric or repeated |
| `CloneGen.DrawInstance` | tools/gen_clone.py:171-210 | a draw that is kept is a solution with distinct pieces 1..n*n and balanced colours of the right palettes; one that is rejected has a symmetric or repeated cell |
| `CloneCheck.WritePieces` | tools/gen_clone.py:256-261 | one line per identifier, with the columns in the order of the file format |
| `CloneCheck.ReadPieces` | tools/gen_clone.py:310-333 | reads the dictionary of the lines, or refuses a bad count or line |
| `CloneCheck.PiecesRoundTrip` | tools/gen_clone.py:256-333 | writing the pieces and reading them back gives the same pieces |
| `CloneCheck.WriteSolution` | tools/gen_clone.py:271-287 | one line per cell with identifier and rotation |
| `CloneCheck.ReadSolution` | tools/gen_clone.py:290-307 | reads the board of the lines, or refuses a bad line or a missing cell |
| `CloneCheck.SolutionRoundTrip` | tools/gen_clone.py:271-307 | writing the solution and reading it back gives the same board |
| `CloneCheck.HintsApart` | tools/gen_clone.py:217-241 | the five hint positions are five cells exactly on sides 3 and 7 or more |
| `CloneCheck.BuildHints` | tools/gen_clone.py:217-249 | the hints of the first positions, refused exactly on sides 4 to 6 when any are asked for |
| `CloneCheck.CheckBoard` | tools/gen_clone.py:353-389 | no error exactly when the board part of the files is right |
| `CloneCheck.CheckHints` | tools/gen_clone.py:391-402 | no error exactly when the count and every hint agree with the board |
| `CloneCheck.CheckSolution` | tools/gen_clone.py:336-403 | finds nothing exactly when the files are right |
| `CloneCheck.BoardRightExact` | tools/gen_clone.py:368-389 | for rotations in range the board part finds nothing exactly on a solution without inner grey |
| `CloneCheck.HintsAgree` | tools/gen_clone.py:235-249 | every hint written agrees with the planted board |
| `CloneCheck.GeneratedFilesPass` | tools/gen_clone.py:256-403 | the files written for a planted solution pass the self-check |
| `CloneCheck.Generate` | tools/gen_clone.py:171-403 | draw, write, re-read, check: a kept draw never fails its own check, and is only dropped for hints on sides 4 to 6 |
| `CloneCheck.GeneratedValidates` | tools/validate_pieces.py:152-256 | a generated instance passes the topology and pairing checks, which read their columns in another order |
| `EngineFiles.ReadParts` | src/core/readdata.c:24-115 | the engine takes a piece file exactly when it has five numbers per announced piece, and keeps each piece under its own number |
| `EngineFiles.ReadIndices` | src/core/readdata.c:128-202 | the same for a hint file |
| `EngineFiles.EngineReadsPieces` | src/core/readdata.c:24-115 | a generated piece file read by the engine: each piece has its number and its own colours on its own sides |
| `EngineFiles.EngineReadsHints` | src/core/readdata.c:128-202 | a generated hint file read by the engine: each hint puts the right piece of the planted board, turned the right way, on its position, and only the centre one is mandatory |
| `EngineFiles.OfficialHints` | tools/gen_clone.py:217-232 | on side 16 the hint positions are the official ones, the centre first |
| `EngineFiles.ValidatorAccepts` | tools/validate_pieces.py:43-85 | the validator takes the left column of a generated file for the right one and accepts it all the same |
| `CloneCheck.CompletableSatisfiable` | tools/root_to_cnf.py:358-542 | with the grey structure a completable board gives a satisfiable formula |
| `CloneCheck.SelfTestSucceeds` | tools/root_to_cnf.py:697-766 | for any part of a planted solution the formula is satisfiable and every one of its models is accepted |
| `KnownClientsModel.Find` | src/app/known_clients_registry.c:102-111 | the first entry of a machine, or none |
| `KnownClientsModel.Victim` | src/app/known_clients_registry.c:127-135 | the earliest of the idle entries seen least recently, or none |
| `KnownClientsModel.StepOk` | src/app/known_clients_registry.c:156-303 | each event keeps: machines unique, clients unique per machine, counters equal to the sessions in use by role |
| `KnownClientsModel.RunOk` | src/app/known_clients_registry.c:156-429 | hence every reachable table has it |
| `KnownClientsModel.OnlyIdleEvicted` | src/app/known_clients_registry.c:120-141 | a machine leaves only a full table, only with no session in use, and only as the idle one seen least recently |
| `KnownClientsModel.AdmittedExact` | src/app/known_clients_registry.c:120-227 | after a hello or a load the machine is in the table exactly unless every entry was connected; no other event brings one in |
| `KnownClientsModel.UnnotedChange` | src/app/known_clients_registry.c:156-227 | the mutation counter misses a change exactly for a hello of a known machine whose sessions are all taken by others |
| `KnownClientsModel.UnnotedReached` | src/app/known_clients_registry.c:156-227 | a run of nine hellos reaches such a change |
| `KnownClientsModel.NotedMeans` | src/app/known_clients_registry.c:156-303 | the mutation counter counts only hellos that leave their client tracked, and reports and ends of known machines |
| `KnownClientsModel.UntrackedReport` | src/app/known_clients_registry.c:229-266 | a report of an untracked session adds to no total but still moves the best result and the last sign of life |
| `KnownClientsModel.UntrackedReportExact` | src/app/known_clients_registry.c:229-266 | a report that finds no session leaves the register and its counter alone exactly when it finds no machine either |
| `KnownClientsModel.UntrackedReached` | src/app/known_clients_registry.c:229-266 | a run of one hello after which the report of another client is not a no-op |
| `KnownClientsModel.ReplayedHello` | src/app/known_clients_registry.c:185-223 | a replayed hello opens no second session and keeps every counting base and total |
| `KnownClientsTotals.StepAgrees` | src/app/known_clients_registry.c:156-429 | one event keeps every value of a machine's entry equal to its account, whichever machine the event is about |
| `KnownClientsTotals.TotalsExact` | src/app/known_clients_registry.c:156-429 | over any run: a total is what was loaded plus the largest value each tracked session reported, the uptime what was loaded plus how long each ended session lasted since its last hello, both modulo 2^64; the best result, connections and first and last sight are those of the account |
| `KnownClientsTotals.TotalsNeverDecrease` | src/app/known_clients_registry.c:229-266 | while a machine stays in the table and the true total fits 64 bits, the total is exact and never decreases |
| `KnownClientsTotals.UptimeNeverDecreases` | src/app/known_clients_registry.c:268-303 | the uptime likewise: exact and never decreasing while it fits 64 bits |
| `KnownClients.Registry.AllocateSlot` | src/app/known_clients_registry.c:120-141 | a free entry, else the zeroed victim, else none; nothing else moves |
| `KnownClients.Registry.OnConnect` | src/app/known_clients_registry.c:156-227 | the table and the mutation counter move exactly as the event says |
| `KnownClients.Registry.OnStats` | src/app/known_clients_registry.c:229-266 | the same for a report |
| `KnownClients.Registry.OnDisconnect` | src/app/known_clients_registry.c:268-303 | the same for the end of a session |
| `KnownClients.Registry.ApplyRecord` | src/app/known_clients_registry.c:387-429 | a persisted record is added to its machine, or becomes a new disconnected entry |
| `KnownClients.Registry.Save` | src/app/known_clients_registry.c:324-340 | one record per entry in use, in table order |
| `KnownClients.SaveLoad` | src/app/known_clients_registry.c:308-464 | loading what was saved into an empty register knows the same machines with the same nine cumulative values, all disconnected |
| `ControlRegistryModel.StoredSwitches` | src/app/control_registry.c:142-163 | truncating a stored line never hides a pause or a resume |
| `ControlRegistryModel.FirstWordExact` | src/app/control_registry.c:155-163 | a line has this first word exactly when it is the word, or the word, a blank and anything |
| `ControlRegistryModel.SetRoleExact` | src/app/control_registry.c:97-134 | a machine's remembered dosage is the one set last unless the table is full of others; the dosages of others stay |
| `ControlRegistryModel.PushIsAppend` | src/app/control_registry.c:273-297 | posting appends at the end, refused exactly when the session is gone or 16 commands wait |
| `ControlRegistryModel.PopIsTail` | src/app/control_registry.c:338-351 | taking takes the oldest command and leaves the rest in order |
| `ControlRegistryModel.MatchedExact` | src/app/control_registry.c:566-606 | a target designates a session exactly when it is the only one the target can mean |
| `ControlRegistryRuns.TakenFits` | src/app/control_registry.c:273-297 | a live session takes as many offered commands as it has room for, from the front |
| `ControlRegistryRuns.WelcomeTells` | src/app/control_registry.c:218-249 | a new session is told to pause exactly when the fleet should be paused, then the dosage of its machine |
| `ControlRegistryRuns.NumbersNeverReused` | src/app/control_registry.c:181-202 | a registration hands out a number no session ever carried earlier in the run |
| `ControlRegistryRuns.SessionsFollow` | src/app/control_registry.c:181-354 | over any run each ring is first in, first out, and whether a session was told the state now wanted is exactly what a reckoning of refused and misdirected switches says; with none of them it was |
| `ControlRegistryRuns.BroadcastExact` | src/app/control_registry.c:502-523 | after a broadcast a session that agreed still agrees exactly when it had room or the wanted state did not flip |
| `ControlRegistryRuns.SendExact` | src/app/control_registry.c:566-606 | after a command to one session, a session that agreed still agrees exactly when what it took says what is wanted |
| `ControlRegistryRuns.OffersAgree` | src/app/control_registry.c:273-801 | for any posting event and any session, agreeing or not: it agrees afterwards exactly when the reckoning says so |
| `ControlRegistryRuns.BroadcastReaches` | src/app/control_registry.c:502-523 | a broadcast is appended to the queue of every live session with fewer than sixteen commands |
| `ControlRegistryRuns.SendReaches` | src/app/control_registry.c:566-606 | a command to a target is appended to the queue of the only session it can mean, if there is room, and to no other |
| `ControlRegistryRuns.DosageReaches` | src/app/control_registry.c:736-801 | a dosage order appends its two commands, or the first alone where one place is left, to every live session or the one designated |
| `ControlRegistryRuns.ToldLast` | src/app/control_registry.c:502-523 | what clients were told is the last pause or resume among their commands |
| `ControlRegistryRuns.PausedIsTold` | src/app/control_registry.c:502-523 | over any run the pause state wanted is what the broadcasts so far say |
| `ControlRegistryRuns.DosageRemembered` | src/app/control_registry.c:113-801 | over any run the dosage remembered for a machine is that of the last order both of whose commands one of its sessions took; it is forgotten only when the table was full of others |
| `ControlRegistryRuns.RegistrationFinds` | src/app/control_registry.c:181-253 | over any run a new session finds exactly a pause, if the broadcasts say so, and the two commands of the last order its machine took, if the table holds the machine |
| `ControlRegistryRuns.FullQueueMissesSwitch` | src/app/control_registry.c:502-523 | a run of one registration and sixteen broadcasts after which a broadcast pause leaves the session disagreeing |
| `ControlRegistryRuns.SendMissesFleet` | src/app/control_registry.c:566-606 | a run of one registration after which a pause sent to that session alone leaves it disagreeing |
| `ControlRegistryRuns.HalfDosage` | src/app/control_registry.c:736-801 | the pair of posts seen as one step leaves a `config` without its `configApply` exactly when one place was left |
| `ControlRegistryRuns.HalfDosageExact` | src/app/control_registry.c:736-801 | with the takes its client makes between the two posts: exactly when one place was left and nothing was taken |
| `ControlRegistryRuns.DosageLinearizes` | src/app/control_registry.c:736-801 | whatever is taken between the two posts, the session ends as if the pair were one step with some takes before and the others after it |
| `ControlRegistryRuns.DosageTakesSame` | src/app/control_registry.c:299-354 | and its client took the same commands in the same order |
| `ControlRegistryRuns.HalfDosageReached` | src/app/control_registry.c:736-801 | a run of one registration and fifteen broadcasts reaches it |
| `ControlRegistry.Registry.Register` | src/app/control_registry.c:181-253 | first free slot, next number, and the welcome commands; -1 exactly when every slot is taken |
| `ControlRegistry.Registry.Unregister` | src/app/control_registry.c:255-271 | the session ends and its queue is dropped |
| `ControlRegistry.Registry.PostCommand` | src/app/control_registry.c:273-297 | one ring write, refused exactly when it must be |
| `ControlRegistry.Registry.TakeCommand` | src/app/control_registry.c:299-354 | one turn of the wait: the oldest waiting command exactly when one waits and the wait neither ran out nor failed, else why there is none or that the session sleeps |
| `ControlRegistry.Registry.Broadcast` | src/app/control_registry.c:502-523 | every live session is offered the command, the wanted state follows, and the count is right |
| `ControlRegistry.Registry.SendTo` | src/app/control_registry.c:566-606 | only the one designated session is offered the command |
| `ControlRegistry.Registry.SetDesiredRole` | src/app/control_registry.c:113-134 | the dosage goes to the machine's entry, overwriting it, else to a free one, else nowhere |
| `ControlRegistry.Registry.DosageAll` | src/app/control_registry.c:736-767 | every live session is offered both commands; a dosage is remembered exactly for those that took both |
| `ControlRegistry.Registry.DosageOne` | src/app/control_registry.c:769-801 | the same for one designated session |
| `ServerLedger.MoveConserves` | src/app/etii_server.c:698-841 | every move between the pools keeps each copy in exactly one place |
| `ServerLedger.RunConserves` | src/app/etii_server.c:698-1154 | hence any interleaved run of moves does |
| `ServerLedger.NothingLost` | src/app/etii_server.c:698-1154 | between moves, every accepted and unacknowledged possibility is in the stock, the analysed pool or the error file; exactly once unless put back in doubt |
| `ServerLedger.EveryMoment` | src/app/etii_server.c:698-1333 | at every moment of a run, inside instructions too, every copy is in exactly one place |
| `ServerLedger.StoredStays` | src/app/etii_server.c:980-1060 | whatever other threads do, each possibility this thread told its clients is stored is acknowledged, in a pool, in the error file, or in the hand of a thread |
| `ServerLedger.WasPossible` | src/app/etii_server.c:698-1333 | every logged call was possible when it was made: what was reported absent was absent, what was counted was there, what was served was in the stock |
| `ServerProtocol.ClampPrunerBatch` | src/app/etii_server.c:54-58 | a requested batch size is kept within 1..65536; below it becomes 1, above it 65536 |
| `ServerProtocol.Hunger` | src/app/etii_server.c:60-73 | what the stock lacks for its clients, up to a cap, and nothing when it lacks nothing |
| `ServerProtocol.PlacedRun` | src/app/etii_server.c:808-841 | placing a batch registers exactly its enrolled entries and acknowledges or accepts nothing |
| `ServerProtocol.RequeuedRun` | src/app/etii_server.c:698-742 | requeueing gives each possibility back as often as its fates say and repeats only those in doubt |
| `ServerProtocol.RequeueShows` | src/app/etii_server.c:698-742 | each possibility last sent was found absent, or went to the stock or the error file |
| `ServerProtocol.AcksRun` | src/app/etii_server.c:1103-1154 | a batch of acknowledgements touches neither the stock nor the error file |
| `ServerProtocol.ServedUnlessRefused` | src/core/datamanager.c:2885-2920 | a client that asks while nothing is locked and something suits it is handed something, unless the analysed pool refuses to register it |
| `ServerStep.Server.RecordBatch` | src/app/etii_server.c:808-841 | in-place compaction: what remains is, in order, exactly the registered entries; each other one was refused by the analysed pool and given back; others may move at every call |
| `ServerStep.Server.Serve` | src/app/etii_server.c:881-978 | the calls made are one extraction of at most the number asked, unchecked if asked, and the placing of all of it; what is sent is what was registered |
| `ServerStep.Server.AcknowledgeAll` | src/app/etii_server.c:1103-1154 | the packets that arrive are acknowledged one by one, even if the transfer breaks: one call for each, withdrawn, absent or refused |
| `ServerStep.Server.Step` | src/app/etii_server.c:858-1333 | each instruction in each state of the handshake, with any moves of other threads before each of its calls: the one reply it gets or that it gets none, the calls that reply stands for with what the pools answered, and the connection afterwards |
| `ServerStep.Server.Requeue` | src/app/etii_server.c:698-742 | at the end of a connection each possibility last sent goes back unless the pool said for certain that it was gone; nothing moves for a live client |
| `ServerStep.Server.Communicate` | src/app/etii_server.c:1594-1650 | a whole connection among others: instructions are read until it is closed or turns into control, each is answered as it is owed in that state of the connection, and the end gives back what the last reply handed out |
| `ServerStep.Server.ServeAll` | src/app/etii_server.c:858-1650 | any number of connections, their instructions in any order and other threads moving inside each of them: each connection, in its own state, gets what it would get alone |
| `ServerProtocol.ToldAccounted` | src/app/etii_server.c:858-1333 | what those calls do to the pools when nobody else moves: served is registered, considered is stored, withdrawn or saved, all else leaves them alone |
| `ServerProtocol.AtRest` | src/app/etii_server.c:698-1333 | whenever no thread holds anything, every accepted and unacknowledged possibility is in the stock, the analysed pool or the error file |
| `DeathRing.HolderBounds` | src/app/app_runtime.c:858-864 | a slot holds the last record that used it, always one of the last 64 |
| `DeathRing.HolderExact` | src/app/app_runtime.c:858-889 | a record can still be read in its slot exactly while at most 64 records follow its start |
| `DeathRing.AccountedMore` | src/app/app_runtime.c:866-889 | returned and skipped records partition what was read, in order and without duplicates |
| `DeathRing.DrainExact` | src/app/app_runtime.c:866-889 | a drain reads exactly the records it means, all of them, if and only if at each read no more deaths landed than slots were free or read by then |
| `DeathRing.QuietDrain` | src/app/app_runtime.c:866-889 | in particular when all the deaths landing meanwhile fit in the slots free at its beginning |
| `DeathRing.OverrunDrain` | src/app/app_runtime.c:866-889 | with the ring full, one death landing first makes the drain read the newest record as the oldest |
| `DeathRing.Ring.Record` | src/app/app_runtime.c:858-864 | records one death; the last 64 stay readable |
| `DeathRing.Ring.Drain` | src/app/app_runtime.c:866-889 | returns the oldest unread records still held, in order, when the landing deaths leave room; skips only what is older than the last 64, and counts every skip |
| `DeathRing.Ring.DroppedCount` | src/app/app_runtime.c:891-896 | the skips since the last time it was asked |
| `Decimals.ReadShow` | src/app/server_config.c:48-70 | a number written in decimal reads back as itself, entirely, signed or unsigned |
| `Decimals.ShowShape` | src/app/server_config.c:349-457 | a 64-bit number is written with at most 21 characters, digits and a leading minus |
| `ConfigText.ReadWritten` | src/app/server_config.c:112-288 | reading the text written for a value in range gives the value, for every kind of key |
| `ConfigText.FieldRoundTrip` | src/app/server_config.c:72-288 | the line written for a field sets exactly that field to that value |
| `ConfigText.ConfigRoundTrip` | src/app/server_config.c:301-457 | reading the text of a configuration into a fresh one gives it back, for any table of keys |
| `ConfigText.MeaningFits` | src/app/server_config.c:72-288 | whatever a line assigns is a value that can be written and read back |
| `ConfigText.ReloadStable` | src/app/server_config.c:301-457 | whatever file was loaded, reading the text of the result changes nothing |
| `ConfigText.NegativeLimit` | src/app/client_config.c:123-137 | a negative limit is refused exactly when the minus comes first; behind untrimmed white space it wraps around, or saturates when too large |
| `ConfigText.NegativeLimitLine` | src/app/client_config.c:44-137 | a whole line that sets the limit to 2^64-1 |
| `ConfigGrammar.SignedExact` | src/app/server_config.c:48-70 | a conversion takes a whole text exactly when it is white space, at most one sign and digits; it gives the value or the nearest bound |
| `ConfigGrammar.UnsignedExact` | src/app/client_config.c:123-137 | the same for the unsigned conversion, with its wrap-around and saturation |
| `ConfigGrammar.ReadExact` | src/app/server_config.c:112-288 | a text is accepted for a key exactly when it stands for a value of the key's kind, and as that value: range, clamping to the near bound, and the two sort words |
| `ConfigGrammar.SplitExact` | src/app/server_config.c:72-110 | a line gives a key and a text exactly when it is blanks, key, blanks, the sign, blanks, text, blanks, and the end or a comment, within the two lengths |
| `ConfigGrammar.TooLongExact` | src/app/server_config.c:103-107 | a line is refused for its length exactly when it has that shape with a longer text |
| `ConfigGrammar.NothingExact` | src/app/server_config.c:74-80 | a line holds nothing exactly when it is blank or a comment |
| `ConfigGrammar.LineExact` | src/app/server_config.c:72-288 | a line sets a field exactly when its key is in the table and its text stands for the value |
| `ConfigGrammar.RefusedExact` | src/app/server_config.c:112-296 | a line is refused as obsolete or for its value exactly when its key is obsolete, or its text is too long or no value of the key's kind |
| `ConfigGrammar.WrittenAligned` | src/app/server_config.c:349-457 | in a written file the signs stand below each other |
| `ConfigGrammar.LinesExact` | src/app/server_config.c:301-347 | the lines of a file are the file, each up to and including its line break, the last perhaps without |
| `ConfigGrammar.LoadLast` | src/app/server_config.c:301-347 | after loading, a field has the value of the last line that sets it; a field no line sets keeps its own |
| `ConfigFiles.ServerTableOk` | src/app/server_config.c:113-288 | the server's keys are distinct, well formed and have sensible bounds |
| `ConfigFiles.ClientTableOk` | src/app/client_config.c:84-165 | the same for the client's keys |
| `ConfigFiles.ServerRoundTrip` | src/app/server_config.c:72-457 | the server's configuration survives being written and read |
| `ConfigFiles.ClientRoundTrip` | src/app/client_config.c:44-261 | the client's configuration survives being written and read |
| `ConfigFiles.ServerStable` | src/app/server_config.c:72-457 | whatever the server's file holds, reading the text of what was loaded changes nothing |
| `ConfigFiles.ClientStable` | src/app/client_config.c:44-261 | the same for the client's file |
| `ConfigFiles.SplitLine` | src/app/server_config.c:72-110 | the cursors cut a line into its trimmed key and value, or say why not |
| `ConfigFiles.ConfigFile.ParseLine` | src/app/server_config.c:72-288 | a line sets its field or changes nothing, with the status that says which |
| `ConfigFiles.ConfigFile.LoadFile` | src/app/server_config.c:301-347 | every line in turn |
| `ConfigFiles.ConfigFile.Format` | src/app/server_config.c:349-457 | the text and its length when it fits with its terminator, -1 exactly when it does not |
| `ConfigFiles.ConfigFile.Save` | src/app/server_config.c:459-497 | saving succeeds exactly when the text is shorter than 1024 characters and can be written; the file then loads back as the configuration, else it is as before |
| `ConfigFiles.LoadedButNotSaved` | src/app/client_config.c:263-268 | two names of 511 characters can be loaded and not saved |
| `OrchestratorModel.CountdownNeverReturns` | src/app/fork_orchestrator.c:39-49 | events alone never bring the countdown back |
| `OrchestratorModel.StartsAloneExact` | src/app/fork_orchestrator.c:1043-1162 | once a configuration was begun a lot starts without a further order exactly when the driver took its snapshot while the countdown ran |
| `OrchestratorModel.DeadlineExact` | src/app/fork_orchestrator.c:1149-1162 | in every reachable state where the driver counts, the deadline starts a lot exactly in the countdown or the configuration that replaced it, and does nothing exactly once a lot was ordered |
| `OrchestratorModel.LateExact` | src/app/fork_orchestrator.c:1149-1162 | on any sound state the deadline starts a lot although the countdown was left exactly when it was left for anything but a lot |
| `OrchestratorModel.LateCountdownStart` | src/app/fork_orchestrator.c:33-62 | a run in which a configuration is begun and the countdown starts a lot all the same |
| `OrchestratorModel.TransitionMeans` | src/app/fork_orchestrator.c:26-103 | a refused event changes nothing; a spawn or a stop is asked for exactly on entering that state |
| `OrchestratorModel.TransitionAccepts` | src/app/fork_orchestrator.c:26-103 | exactly which state refuses which event, and with which error |
| `OrchestratorModel.TransitionLeads` | src/app/fork_orchestrator.c:26-103 | where each accepted event leads |
| `OrchestratorModel.DriverWatches` | src/app/fork_orchestrator.c:1043-1240 | before the deadline the countdown only goes on; while a lot runs the driver only frees dead slots |
| `OrchestratorModel.StartSpawns` | src/app/fork_orchestrator.c:1105-1148 | from where no lot is, a start leads to one; a lot without a single process leads back to waiting |
| `OrchestratorModel.StopComesToRest` | src/app/fork_orchestrator.c:1240-1290 | an accepted stop ends in the waiting state with every slot free |
| `OrchestratorModel.RestartRunsAgain` | src/app/fork_orchestrator.c:1240-1290 | an accepted restart stops every process, applies the configuration and comes to a new lot by itself, or to rest when the quiescence is refused |
| `OrchestratorModel.ResolvePrunerForks` | src/app/fork_orchestrator.c:115-128 | what was asked when it lies within the lot, all of the lot when more, the default of the mode when nothing was asked |
| `OrchestratorModel.RolesMatchDosage` | src/app/fork_orchestrator.c:115-142 | exactly as many processes of a lot check the stock as the resolved dosage says, and they are the last ones |
| `OrchestratorModel.StepInv` | src/app/fork_orchestrator.c:1043-1298 | every permitted step of the driver or of the console keeps the life-cycle invariant |
| `OrchestratorModel.LotsNeverOverlap` | src/app/fork_orchestrator.c:1043-1298 | over any permitted run a lot is only spawned with every slot free, and a start is refused while a process lives |
| `OrchestratorModel.SoundNeverOverlaps` | src/app/fork_orchestrator.c:1043-1298 | from a sound state no permitted run overlaps two lots |
| `OrchestratorModel.RefusalExact` | src/app/fork_orchestrator.c:1252-1285 | after a refused application some permitted run spawns a lot over a living one exactly when a start was accepted meanwhile |
| `OrchestratorModel.RefusedStartOverlaps` | src/app/fork_orchestrator.c:1252-1285 | a run from the beginning in which a second lot is spawned over a living one |
| `Orchestrator.EscalationExact` | src/app/fork_orchestrator.c:183-201 | a process is terminated from 5 s and killed from 10 s after its last report or, if it never reported, after the start of the stop |
| `Orchestrator.Slots.ReapDead` | src/app/app_runtime.c:1110-1136 | frees exactly the slots of dead processes |
| `Orchestrator.Slots.StopRound` | src/app/fork_orchestrator.c:800-845 | one round: frees the reaped, and signals exactly the processes whose silence has come to another step |
| `Orchestrator.Slots.StopAll` | src/app/fork_orchestrator.c:773-859 | interrupts each live process; frees exactly those some round found reaped; sends, in order and once each, exactly the signals called for: to a process still there, in the round in which its silence comes to 5 or to 10 s; none without memory to escalate |
| `Orchestrator.Shared.PostEvent` | src/app/fork_orchestrator.c:329-351 | the shared state moves exactly as the transition says, under one lock |
| `Orchestrator.Shared.TakeTurn` | src/app/fork_orchestrator.c:1047-1057 | the head of a turn takes the pending spawn and the snapshot together |
| `Orchestrator.Slots.SpawnForks` | src/app/fork_orchestrator.c:601-745 | each slot holds the outcome of its last turn, a process found dead at once being tried again; the loop takes turns until a stop request, the tenth failure or the last slot, and the count is that of the slots filled |
| `Orchestrator.SettledOnce` | src/app/fork_orchestrator.c:601-745 | every slot a lot was about has exactly one turn that settles it |
| `Orchestrator.Shared.SpawnTurn` | src/app/fork_orchestrator.c:1114-1148 | the branch that spawns a lot, the console in between: which steps it takes, all permitted, ending where the next turn begins |
| `Orchestrator.Shared.StopTurn` | src/app/fork_orchestrator.c:1240-1290 | the branch that stops a lot and applies a configuration, the console in between: which steps it takes, all permitted |
| `Orchestrator.Shared.Turn` | src/app/fork_orchestrator.c:1043-1298 | one turn of the driver with whatever the console posts between its critical sections: exactly these steps, all permitted, from the head of this turn to the head of the next |
| `Orchestrator.Shared.Interfere` | src/app/fork_orchestrator.c:329-351 | what the console posts in between are steps of the life cycle too |

## Left out

SAT encoding and verification
- Packet decoding, choice of a root, DIMACS and mapping files, and the solver itself: a formula is its clause list, a model the set of its true literals.
- Bookkeeping numbers of the encoder (`stats`, reasons for early unsatisfiability): they are read by reports only.
- Order of dictionary iteration beyond what the lists fix: clause order never matters to the statements.

Generator and validator
- Header, square-number, range and identifier checks of the validator, and its summary: each is one comparison on its own.
- Texts of the error messages; only whether there is one, and for which piece where that matters, is modelled.
- Comment lines of the solution file and the seed: they are skipped when read.
- Texts in a data file that are no numbers: a file is its header number and the numbers that follow.

Quiescence gate
- Weak memory: the flag read by the fast path is a sequentially consistent read.
- `fork_gate_reset`, the trace ring and the I/O locks around `fork`.
- Thread names in the slots; the statements inside one critical section are one step.

Spliced stream
- The compressor and decompressor themselves: a frame is its bytes and their content, with at least one byte.
- Registration of open writers, formats without compression, cache dropping, worker threads, and the portability layer of the standard library.

Server registers and service
- Labels, addresses, process identifiers, last statistics and polling times of sessions: nothing is decided on them.
- Session numbers, connection counts and mutation counters are unbounded; the cumulative totals wrap at 2^64 as in the code.
- Files, headers and truncation of the persisted register: a load is the list of records that could be read.
- Who wakes a session that waits for a command: each turn of its wait is one step, whatever the reason it holds the mutex.
- The three readings of a target (number, identifier, label) are given as a triple instead of being parsed from its text.
- The stock and the analysed pool: only what their calls answer, refused exactly while maintenance holds them, which it may at any time; a sweep over the files of a pool is one step, and expiry of leases is one of the moves. The clean-up of descendants of a root is not modelled.
- ServerStep.Server.Step: does not model the backup and the exit of a server told to stop on a solution, because the process ends there; a failed send changes nothing on the server.
- The decisions on role mix and automatic backup: pure comparisons without state of their own.

Death ring, configuration, life cycle
- A record in the ring is one atomic step, as the pid and status written after the index is reserved would otherwise need weak memory.
- The chain of key comparisons is a table in the order of the formatter; a field is set when its key is in the map, so a set text field without text does not exist.
- ConfigFiles.ConfigFile.Format: does not model a formatting call that itself fails, because none of the formats used can.
- Priority between command line and file, comparison of two configurations and sending values to running processes.
- The result of each attempt to create a process, and its death, are inputs: any set of slots may be filled or found dead.
- Orchestrator.Slots.StopAll: does not promise that the stop sequence ends, because a process may survive any signal for ever; it ends exactly when each process was found reaped in some round.
- The exit of the parent loop and the diagnostics about silent processes.
