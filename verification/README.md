# A verified model of the bytecode-equivalence certifier

The scripts decide when a Luau chunk and the chunk compiled from its decompiled source are
*proved* equal. This project models the analyses and rewrites behind that verdict and proves
what the verdict is worth: each rewritten control-flow graph is bisimilar to its input, each
symbolic tree has exactly the behaviour of the bytecode it came from, an accepted capture
certificate is an invariant of every run, and the graph algorithms around them compute exactly
what they are named after.

## How it is laid out

**Register graphs** (`RegisterGraph`, `Sequences`, `Worklist`, `Definitions`, `DefinitionRuns`, `Liveness`,
`CopyCoalescing`, `Relabelling`, `Webs`, `Renaming`, `CopyCertificates`, `RegisterNumbers`, `PrivateCopies`,
`Grouping`, `ClosedReads`, `AdjacentPacks`, `ClosedPacks`, `Canonical`, `CanonicalRuns`). A node is an opcode with a list of operands; what it reads, writes and kills is
derived from the operands. The values an instruction computes and the edge it takes come from
an *oracle*: an arbitrary function of the history of operations so far, the opcode, its
immediates and the values read. A theorem "for every oracle" therefore covers every heap, every
callee and every branch outcome. A register that holds nothing is absent from the store, and
reading it is being stuck, so "never stuck" is part of every preservation result. Instructions
that a pass deletes run silently in the input machine (`hidden`); everything else must leave the
same trace of opcodes, immediates, argument values and edges. `Preserves` says each point of the
input's run is met by the output's run and each point of the output's run by the input's.
`CopyCertificates` says what the certificate *is* without the passes (liveness by walks, folded lookups,
webs by chains, names by first occurrence), and `RegisterNumbers` that it does not depend on which
registers hold the values: the law the passes exist for.

**Symbolic execution** (`Bytecode`, `FrameMeaning`, `Events`, `SymbolicTree`, `TreeRuns`,
`RegisterMachine`, `Lockstep`, `ExecSound`, `ExecAnswers`, `PrivateTables`, `SegmentRuns`, `NormalSound`,
`NormalForm`, `NormalTwice`, `NormalShape`, `Supplies`, `TreeNormal`, `ExecNormal`, `AcyclicProof`, `SymbolicExecutor`,
`ProvedVerdict`). A concrete machine with registers, an open result pack, a heap of private tables and an
environment (`World`) is run next to an interpreter for trees. The environment's answers may
depend on the whole history and on the contents of every table that has escaped to it, but not on
tables nobody outside has seen; that is what makes a redundant store to a private table
removable. Which address a new table gets is a *supply*; outcomes of two programs are compared
over all supplies, because normalisation moves allocations. When no REF capture exists and the
main function has no upvalues, upvalue cells move only with events (`steady`); this is assumed
only in that case. An operation whose callback could overwrite a pending open pack leaves the machine
stuck (`Disturbs`), as the executor refuses it. `ExecAnswers` says when there is a tree and what is
normal about it, `NormalShape` what a normal form looks like. `SymbolicExecutor` is the executor as the scripts run it: a class with the
template table and the cached capture domain as fields, a loop per path, and recursion for
branches and child prototypes.

**Capture certificates** (`CaptureEffects`, `CaptureRuns`, `ReferenceFrames`), **graph
algorithms** (`Digraph`, `Components`, `FlowShapes`, `FlowSteps`, `WriteReach`, `PrototypeMatch`,
`PrototypeRanking`, `PrototypePairs`, `PrototypeCompare`, `PrototypeConservation`, `PrototypeUnique`) and **comment edits** (`CommentEdits`).

Loops of the scripts are loops here, with the state they update; every worklist is proved to end
by a lattice or set measure, not by the scripts' step budgets.

Two things the code does that its descriptions do not say, followed here as the code has them:

- `reference_graph` puts every node in its worklist at the start, so its fixpoint counts a
  register as open at `n` when *some* graph path ending in `n` opens it, whether or not that path
  starts at the entry. `MayBeOpen` is that set exactly; `OpenOnARun` gives the condition under
  which every member of it is open on an execution, namely that all nodes can be reached.
- `translate_offset` is total outside replaced comments and on their boundaries, and two offsets
  on the two boundaries of one comment keep their order only because a replacement is never
  empty (it starts with `-- `); `InOrder` carries that fact.

## Model

| member | source | states |
|---|---|---|
| RegisterGraph.AfterKeys | scripts/bytecode_graph.py:641-644 | The transfer function of the analysis is the machine's: along each edge the store holds exactly the registers the analysis calls defined. |
| Definitions.ValidateDefinitions | scripts/bytecode_graph.py:611-663 | The worklist ends, and the graph is accepted if and only if no path from the root reaches a read of an undefined register, an open read whose top is absent or below its start, or an open read that two paths reach with different tops. |
| Definitions.AcceptedIsWellDefined | scripts/bytecode_graph.py:624-663 | A finished fixpoint that accepts every node lies below the facts of every path, so no path is bad. |
| Definitions.WellDefinedIsAccepted | scripts/bytecode_graph.py:624-663 | Conversely the fixpoint loses nothing: if no path is bad, every node is accepted (the meet over all paths is reached). |
| DefinitionRuns.SafeIffNeverFaults | scripts/bytecode_graph.py:655-663 | The facts of paths mean what the frame does: every read on every path is safe if and only if no environment, on any arguments and after any number of steps, makes the dynamic-top machine fault. |
| DefinitionRuns.AcceptedNeverFaults | scripts/bytecode_graph.py:611-663 | What the check accepts is therefore: no run faults, and all paths to an open read bring one top. |
| Liveness.LiveByWorklist | scripts/bytecode_graph.py:497-520 | The backward worklist ends with the least solution of the liveness equations, and the live-after sets that belong to it. |
| Liveness.LiveBySweeps | scripts/bytecode_graph.py:556-569 | The second computation, by whole backward sweeps, ends with the same least solution. |
| Liveness.LiveIsDefined | scripts/bytecode_graph.py:497-520 | The two analyses agree: on an accepted graph whatever is live at a node is defined at the end of every path to it. |
| Liveness.LiveAtEntryIsParameter | scripts/bytecode_graph.py:593 | Hence only parameters are live at the root, which is why naming the live parameters names everything live there. |
| Liveness.KilledIsDead | scripts/bytecode_graph.py:501-520 | Hence nothing that a node or an edge kills without rewriting it is live afterwards. |
| Liveness.LiveCarries | scripts/bytecode_graph.py:508-513 | A register live after an edge was written on the edge, by the node, or was live before the node and killed by neither. |
| CopyCoalescing.Coalesce | scripts/bytecode_graph.py:521-538 | The loop rewrites exactly the lookups followed by a mergeable MOVE, and removes exactly those MOVEs. |
| CopyCoalescing.CoalescedLive | scripts/bytecode_graph.py:556-569 | Liveness recomputed on the merged graph stays within the old one at every surviving node, and still nothing killed is live. |
| CopyCoalescing.CoalescedRun | scripts/bytecode_graph.py:521-553 | From any arguments, after any number of steps, the merged graph is at the label of the input's node with the same trace, and agrees with the input on every live register; removed MOVEs are the only difference. |
| Relabelling.Relabel | scripts/bytecode_graph.py:539-553 | Breadth-first labelling that skips removed nodes numbers exactly what can be reached, each node once, with every edge to the label of its first surviving successor; reading the edges node by node, new labels turn up in the order of their numbers. |
| Relabelling.RelabellingWellFormed | scripts/bytecode_graph.py:539-553 | The relabelled graph is again a well-formed graph, so the next pass may run on it. |
| Webs.Forest.constructor | scripts/bytecode_graph.py:570 | A new forest joins nothing. |
| Webs.Forest.Find | scripts/bytecode_graph.py:571-580 | Path compression keeps the forest acyclic and every cell's representative, and returns that representative. |
| Webs.Forest.Union | scripts/bytecode_graph.py:590-591 | Merges two classes and no others: afterwards the classes are the smallest equivalence over the old pairs and the new one. |
| Webs.UnionClasses | scripts/bytecode_graph.py:571-591 | If representatives described the smallest equivalence of some pairs, redirecting one root describes that of the pairs plus one. |
| Webs.ChainSameRegister | scripts/bytecode_graph.py:582-591 | A chain of pairs that each keep the register keeps the register end to end. |
| Renaming.JoinWebs | scripts/bytecode_graph.py:584-592 | Joins, for every edge and every register live at its target, the cell after the node with the cell at the target, and nothing else. |
| Renaming.ClassesKeepRegisters | scripts/bytecode_graph.py:582-592 | Every class of the forest holds cells of one physical register. |
| Renaming.NamesSeparate | scripts/bytecode_graph.py:593-605 | Two cells share a name only if they hold the same register, so two registers live at one node never collide. |
| Renaming.RenameWebs | scripts/bytecode_graph.py:593-609 | Gives each class one name, live parameters theirs and nobody else's, and renames every operand to the name of its own cell (the result cell for what a lookup writes); the other names are numbered from 0 in the order in which they first occur in node and operand order, and the classes are the smallest equivalence over the flows of live registers. |
| Renaming.MirrorStep | scripts/bytecode_graph.py:596-609 | One step keeps the invariant that at each node the renamed store at the name of each live register is the original store at that register. |
| Renaming.RenamedRun | scripts/bytecode_graph.py:584-609 | The invariant holds after any number of steps from any arguments, under any oracle. |
| PrivateCopies.PrivateCopyGraph | scripts/bytecode_graph.py:491-609 | The whole pass: on an accepted graph the renamed output and the input meet each other at every point, under every oracle and all arguments, and neither is ever stuck; the output is the certificate of the graph in the sense of `CopyCertificates`, and what was removed are exactly the MOVEs of folded lookups. |
| PrivateCopies.PassPreserves | scripts/bytecode_graph.py:491-609 | Composes merging, relabelling and renaming into that statement, in both directions. |
| PrivateCopies.EqualCertificatesBehaveAlike | scripts/bytecode_graph.py:694-700 | Two graphs with one certificate: each point of the one's run is a point of the other's. |
| CopyCertificates.LiveIsWanted | scripts/bytecode_graph.py:497-520 | A register is live at a node exactly when some walk leads from there to a read of it past no instruction or edge that writes or clobbers it. |
| CopyCertificates.FoldingIs | scripts/bytecode_graph.py:521-553 | Which pairs merge, without the code's test: a lookup folds with a MOVE behind it exactly when the MOVE is entered from there only, copies what was looked up to another register, and no walk wants the first register afterwards; the merged graph is the folded one, numbered breadth first. |
| CopyCertificates.CertificateIs | scripts/bytecode_graph.py:570-609 | The renamed graph is the certificate: the skeleton of opcodes, immediates and edges, one name for two operands exactly when a chain of flows of wanted registers joins them, parameters by their own webs, the rest numbered by first occurrence. |
| CopyCertificates.SameWebsSameCertificate | scripts/bytecode_graph.py:570-609 | The converse law: graphs with the same opcodes, immediates and edges, whose operands fall into corresponding webs position by position with parameters fixed, get the same certificate. |
| RegisterNumbers.RegistersDoNotMatter | scripts/bytecode_graph.py:491-609 | Renaming the registers of a graph one-to-one, parameters in place, leaves its certificate unchanged, through liveness, folding, numbering, webs and names; with the identity renaming, a graph has one certificate. |
| Grouping.GroupedIsRun | scripts/bytecode_graph.py:521-553 | A grouped run (hidden steps taken together) is a run of single steps, between one and k+1 for each group. |
| Grouping.RunIsGrouped | scripts/bytecode_graph.py:521-553 | After any number of single steps the machine settles where some number of grouped steps puts it. |
| ClosedReads.ReduceReads | scripts/bytecode_graph.py:449-472 | The in-place loop over nodes gives the graph with every closed-read triangle reduced at once, although it rewrites edges that later tests read. |
| ClosedReads.JoinStays | scripts/bytecode_graph.py:463-470 | The join of a triangle is never dropped by another one. |
| ClosedReads.DroppedIsNoHead | scripts/bytecode_graph.py:454-470 | A dropped reread never heads a triangle of its own. |
| ClosedReads.KeptLeadsToKept | scripts/bytecode_graph.py:469-470 | No edge of a kept node leads to a dropped one. |
| ClosedReads.TriangleIs | scripts/bytecode_graph.py:454-470 | Which triangles go, without the code's test: read, test and reread of one cell into one register at consecutive pcs, each entered from the one before only, the reread joining the test's other edge. |
| ClosedReads.ReductionIs | scripts/bytecode_graph.py:449-489 | The result is the input without the tests and rereads of those triangles, numbered breadth first, each head leading straight to its join and everything else unchanged. |
| ClosedReads.ReducedWellDefined | scripts/bytecode_graph.py:449-489 | Reduction never makes a well-defined graph refused. |
| ClosedReads.ReducedRun | scripts/bytecode_graph.py:449-489 | Under an environment in which a read changes no cell, the reduced graph has the input's stores and trace after any number of steps, up to the dropped test and reread. |
| ClosedReads.ClosedReadCertificate | scripts/bytecode_graph.py:389-392 | On a function without open packs, closed reads followed by the private-storage pass preserve every run of every environment in which reading a cell changes no cell, and the output is the certificate of the reduced graph. |
| AdjacentPacks.PairPacks | scripts/bytecode_graph.py:405-430 | Succeeds if and only if there is a producer, every producer has an adjacent consumer with no other way in, and every open consumer has a producer; and then records each consumer's base. |
| AdjacentPacks.PairedIs | scripts/bytecode_graph.py:405-430 | What pairing up means, without the code's tests: every call or vararg that leaves a pack from a base on is followed, by pc and by its one edge, which is the only edge into it, by a call, return or list store whose open read starts no higher; every open read is such a one; and no edge opens a pack by itself. |
| AdjacentPacks.SpanIs | scripts/bytecode_graph.py:430-447 | What a consumer is handed by register are the registers from its start up to the base, each once and in order. |
| AdjacentPacks.ExplicitIsOpened | scripts/bytecode_graph.py:431-447 | The rewritten operands: where a pack was read, those registers one by one and then the bare pack; the place of open results is dropped; nothing else changes. |
| AdjacentPacks.PackArrives | scripts/bytecode_graph.py:405-430 | Every step into a consumer comes from its producer and brings exactly the top and the pack that producer left. |
| AdjacentPacks.PackLockstep | scripts/bytecode_graph.py:431-447 | One step: with the dynamic top and with explicit prefix plus implicit pack, the consumer receives the same tuple. |
| AdjacentPacks.PackRuns | scripts/bytecode_graph.py:399-447 | The same over whole runs, for every environment. |
| AdjacentPacks.ExplicitWellDefined | scripts/bytecode_graph.py:399-447 | Making the packs explicit never makes a well-defined graph refused. |
| AdjacentPacks.AdjacentPackCertificate | scripts/bytecode_graph.py:703-709 | Succeeds exactly when the packs pair up and there is one; the pass followed by the private-storage pass then preserves runs of the dynamic-top machine under every environment, and the output is the certificate of the graph with its packs opened. |
| ClosedPacks.SilentImplicit | scripts/bytecode_graph.py:383-392 | The environment as a graph with implicit packs sees it inherits that reading a cell changes no cell, since a read hands over no pack. |
| ClosedPacks.ClosedPackCertificate | scripts/bytecode_graph.py:383-392 | All three rewrites in the order of the code: unless some open pack has no neighbour, packs are made implicit, closed reads dropped and storage renamed, and the result preserves every run of the dynamic-top machine in every environment in which reads change no cell, and is the certificate of the reduction of the graph with its packs opened. |
| Canonical.CanonicalNodes | scripts/bytecode_graph.py:153-179 | The queue loop with its labels and register names ends with the canonical node list, and refuses if and only if control can reach what is no instruction of the frame. |
| Canonical.WellCodedFinishes | scripts/bytecode_graph.py:173-179 | The breadth-first order ends and holds exactly the reachable instructions. |
| Canonical.IsomorphicSameNodes | scripts/bytecode_graph.py:153-179 | Functions that an isomorphism of reachable instructions turns into each other (root, opcodes, operand order, successor order; registers one-to-one, parameters fixed) have equal node lists. |
| Canonical.SameNodesIsomorphic | scripts/bytecode_graph.py:722-745 | Equal node lists give back such an isomorphism. |
| Canonical.SameNodesIff | scripts/bytecode_graph.py:722-745 | Canonical forms are exact: equal if and only if an isomorphism exists. |
| CanonicalRuns.RunMirrors | scripts/bytecode_graph.py:153-179 | An isomorphism carries runs to runs: for whatever roles and results the opcodes have, on all arguments and after any number of steps, the renamed instruction is next, renamed registers hold the same, and the same operations are done. |
| CanonicalRuns.SameNodesRunAlike | scripts/bytecode_graph.py:690-691 | What the exact-storage comparison proves: functions with equal node lists run, return and get stuck alike, with the same trace. |
| PrivateTables.NormalizePrivateTables | scripts/bytecode_private_tables.py:7-77 | The loop over events with its `private`, `allocations` and `kept` state computes the normal form that the lemmas below are about; a segment that does not return is refused. |
| NormalSound.HoistedSound | scripts/bytecode_private_tables.py:30-64 | Dropping redundant stores and hoisting allocations, identities kept, leaves the same history, the same tables and the same returned values in every environment. |
| NormalForm.NormalizeSound | scripts/bytecode_private_tables.py:7-77 | So does the renumbered normal form, when each table is born at the address its event had before. |
| NormalForm.NormalRefsEarlier | scripts/bytecode_private_tables.py:64-77 | Every reference in the normal form points to an earlier event. |
| NormalTwice.NormalizeTwice | scripts/bytecode_private_tables.py:7-77 | Normalising twice is normalising once, on events and on the returned pack. |
| NormalShape.ScanKnows | scripts/bytecode_private_tables.py:30-62 | What the scan holds, said without it: exactly the tables born in the segment that nothing has shown since, each with what was last written under every string key. |
| NormalShape.NormalFormIs | scripts/bytecode_private_tables.py:30-65 | In a normal form every empty table and every template of zeros is born before anything else happens, such templates are kept in one encoding, and no store puts under a string key of an unseen table the scalar it already has there. |
| FrameMeaning.PackIs | scripts/bytecode_dataflow.py:135-140 | A pack of a fixed count is the `count - 1` registers from its start, and exists exactly when all of them hold something; any other is the registers up to the base of the open pack, and that pack. |
| FrameMeaning.PlaceIs | scripts/bytecode_dataflow.py:264-280 | After a call the registers below `a` stay, those from `a` on are its results or gone, and an open pack starts at `a` exactly for an open count. |
| FrameMeaning.FastCallSiteIs | scripts/bytecode_dataflow.py:231-238 | A fast call falls back to a call behind it whose results fit the frame, and to nothing else. |
| FrameMeaning.WriteIs | scripts/bytecode_dataflow.py:115-120 | A write goes through exactly in the frame and below the open pack, and changes its own register only. |
| FrameMeaning.FastOperandsAre | scripts/bytecode_dataflow.py:239-250 | The operands of each form of fast call; the third form splits its word into two registers of a byte each and refuses a longer one. |
| FrameMeaning.FastNamesDiffer | scripts/bytecode_dataflow.py:231-262 | Two fast calls go by one name exactly when they are of one form. |
| FrameMeaning.CapturesAre | scripts/bytecode_dataflow.py:296-311 | A closure takes exactly the next captures, one for each upvalue of the child, in order. |
| Lockstep.PackRel | scripts/bytecode_dataflow.py:135-140 | The symbolic pack denotes the machine's pack, whose registers `FrameMeaning.PackIs` lists: the explicit prefix followed by the open results. |
| Lockstep.GetUpvalRel | scripts/bytecode_dataflow.py:176-184 | A reused upvalue read has the value the machine reads, since nothing but reads happened since. |
| Lockstep.CallRel | scripts/bytecode_dataflow.py:264-280 | Calls and varargs forget every register from `a` up on both sides and leave the same results or open pack. |
| Lockstep.ClosureRel | scripts/bytecode_dataflow.py:281-317 | Closures capture related values, including a closure that captures itself, and share templates alike. |
| Lockstep.ContinueRel | scripts/bytecode_dataflow.py:142-317 | Every instruction that neither branches nor returns takes related states to related states with the events the executor emitted. |
| ExecSound.ForkStep | scripts/bytecode_dataflow.py:320-347 | A branch asks the machine the same question, with the polarity of the opcode, and leads to related states on both sides. |
| ExecSound.AttemptStep | scripts/bytecode_dataflow.py:231-263 | A fast call keeps both outcomes: the builtin with its result registers, and the untouched fallback. |
| ExecSound.RawSound | scripts/bytecode_dataflow.py:102-355 | Before normalisation and merging, the machine's run is the interpretation of the tree, from any related states. |
| ExecNormal.ContinueLive | scripts/bytecode_dataflow.py:102-317 | Every reference the executor holds stays a reference to an earlier event. |
| ExecNormal.ExecEquivalent | scripts/bytecode_dataflow.py:343-353 | Normalising return segments and collapsing equal truthiness arms on the way up changes no outcome, and never turns a refusal into a tree. |
| TreeNormal.LeafEquivalent | scripts/bytecode_dataflow.py:348-353 | A return segment and its normal form have the same outcomes over all address supplies, both ways. |
| TreeNormal.CollapseCovers | scripts/bytecode_dataflow.py:345-346 | Collapsing a truthiness test with equal arms loses no outcome. |
| TreeNormal.ExpandCovers | scripts/bytecode_dataflow.py:345-346 | And adds none. |
| TreeNormal.SameBirths | scripts/bytecode_private_tables.py:64-65 | Normalisation neither loses, adds nor repeats an allocation. |
| Supplies.PermutedSupply | scripts/bytecode_private_tables.py:64-65 | For two orders of the same births there is a supply of distinct addresses that gives each table the address it had. |
| AcyclicProof.TreeSound | scripts/bytecode_dataflow.py:38-360 | Whatever the machine does on a function with a tree, in any environment on any arguments, the tree says. |
| AcyclicProof.TreeComplete | scripts/bytecode_dataflow.py:38-360 | Whatever the tree says, the machine does. |
| AcyclicProof.TreeReturns | scripts/bytecode_dataflow.py:102-355 | The interpretation of a tree always returns, so by TreeSound the machine on a function with a tree is never stuck on an undefined register. |
| AcyclicProof.DepthIrrelevant | scripts/bytecode_dataflow.py:44-45 | The tree of a prototype is the same at every nesting depth at which it exists. |
| ExecAnswers.StepAccepts | scripts/bytecode_dataflow.py:102-355 | The executor goes on past an instruction exactly when its registers are in the frame, defined and not under an open pack, and the instruction's own conditions hold; every refusal has one of these reasons. |
| ExecAnswers.TreeExists | scripts/bytecode_dataflow.py:38-65 | There is a tree exactly when the main function has no upvalues, the nesting is within 32, a vararg function starts by preparing them, and every symbolic path goes well: inside the code, without coming back, past accepted instructions only. |
| ExecAnswers.AnswerIsNormal | scripts/bytecode_dataflow.py:343-353 | The tree is the raw one with each return segment normalised and each truthiness test with equal arms collapsed, from the leaves up, and nothing else done to it. |
| ExecAnswers.ReadsAreShared | scripts/bytecode_dataflow.py:176-184 | Where captures are closed, no path of the tree reads one upvalue twice with only reads and truthiness tests between. |
| AcyclicProof.EqualTreesBehaveAlike | scripts/bytecode_dataflow.py:363-378 | Equal trees: every behaviour of the one function is a behaviour of the other, in every environment and on all arguments. |
| SymbolicExecutor.Executor.constructor | scripts/bytecode_dataflow.py:46-48 | A new executor has no templates and an unknown capture domain. |
| SymbolicExecutor.Executor.ClosedDomain | scripts/bytecode_dataflow.py:50-59 | The cached answer is right: true if and only if no instruction of the chunk captures by reference and the main function has no upvalues. |
| SymbolicExecutor.Executor.CloseOver | scripts/bytecode_dataflow.py:281-317 | Captures, then the child's tree, then the template number: what the specification says under every numbering that extends the table. |
| SymbolicExecutor.Executor.Outcomes | scripts/bytecode_dataflow.py:231-263 | Both outcomes of a fast call, with separate register maps and numbering. |
| SymbolicExecutor.Executor.Arms | scripts/bytecode_dataflow.py:318-347 | Both arms, each on its own copy of the registers and reusable reads, merged when the merge is allowed. |
| SymbolicExecutor.Executor.Execute | scripts/bytecode_dataflow.py:102-356 | The imperative loop ends and returns exactly the specified segment, or refuses exactly when it does, whatever template numbers are given out later. |
| SymbolicExecutor.Executor.SymbolicTree | scripts/bytecode_dataflow.py:38-65 | The same for a whole prototype; template numbers, once given, never change. |
| SymbolicExecutor.CompareAcyclic | scripts/bytecode_dataflow.py:363-378 | Unknown if a side has no tree, otherwise proved exactly for equal trees, under template numberings that give no two templates one number. |
| ProvedVerdict.ProvedBehaveAlike | scripts/bytecode_dataflow.py:363-378 | A proved verdict: each behaviour of either main function, in any environment and on any arguments, is a behaviour of the other. |
| ProvedVerdict.ClosuresInterchange | scripts/bytecode_dataflow.py:312-317 | Closures whose bodies have equal trees are seen as the same, and when the environment calls one, it cannot tell which of the two it was given. |
| CaptureEffects.ReadClaims | scripts/capture_effects_audit.py:27-39 | Rows are accepted if and only if they name known slots of non-main prototypes, none twice, and the claims are what the rows name. |
| CaptureEffects.ReadConstructors | scripts/capture_effects_audit.py:40-89 | The scan accepts exactly the chunks whose captures follow their constructors, and then has every write and every constructor edge of the chunk and no other. |
| CaptureEffects.CarryWrites | scripts/capture_effects_audit.py:91-96 | The backward closure ends with exactly the slots from which some chain of forwarded captures leads to a written slot. |
| CaptureEffects.Establish | scripts/capture_effects_audit.py:109-119 | Kahn's algorithm empties the claims if and only if their forwarding has no cycle. |
| CaptureEffects.Verify | scripts/capture_effects_audit.py:15-120 | A completed proof is accepted if and only if chunk and rows are in order, the slot count is the number of upvalues of all prototypes, and each claim is unwritten, justified by value captures or claims, and not by itself. |
| CaptureEffects.SlotCount | scripts/capture_effects_audit.py:24-26 | There are as many slots as upvalues, added up prototype by prototype. |
| CaptureRuns.StepKeeps | scripts/capture_effects_audit.py:99-119 | Creating closures, writing registers or upvalues, calling and returning keep the invariant that ties every claimed slot of every closure instance to a cell nothing writes. |
| CaptureRuns.ClaimsNeverChange | scripts/capture_effects_audit.py:15-120 | In every run, the value in a claimed slot of any closure instance never changes after creation. |
| CaptureRuns.CertificateHolds | scripts/capture_effects_audit.py:15-120 | The same from the verdict itself: rows that pass the check are true of every run. |
| ReferenceFrames.OpenRegisters | scripts/bytecode_reference_graph.py:47-74 | The forward worklist ends with exactly the registers that some node of a path to the node captures by reference and no later node of the path closes. |
| ReferenceFrames.FramesClear | scripts/bytecode_reference_graph.py:76-93 | Passes if and only if all of those lie below the frame base of every CALL, FORGPREP and FORGLOOP, and none is open at a fast call. |
| ReferenceFrames.CertifyReferences | scripts/bytecode_reference_graph.py:29-93 | Accepts if and only if every function is certified: clear at every frame, and free of open packs if it owns references. |
| ReferenceFrames.RunsStayClear | scripts/bytecode_reference_graph.py:81-93 | On every execution path of a certified function an open register is clear of the frame about to start. |
| ReferenceFrames.CallsKeepReferences | scripts/bytecode_reference_graph.py:76-93 | In every run of a machine whose started frames may write any cell from their base up, nothing that runs in a frame of a certified function changes the cell behind an open reference. |
| ReferenceFrames.UnclearFrameWrites | scripts/bytecode_reference_graph.py:92-93 | Conversely, where an open register on a path from the entry is not clear of the frame at its end, some run changes the cell behind it. |
| ReferenceFrames.OpenOnARun | scripts/bytecode_reference_graph.py:47-74 | When every node can be reached, whatever the set holds is open on some execution path. |
| Components.Finish | scripts/module_summaries.py:78-88 | The explicit (node, done) stack lists every node once, in an order in which the last node to finish of those that can reach each other bounds them all: a true depth-first postorder. |
| Components.FinishEscapes | scripts/module_summaries.py:82-88 | Finishing a node keeps the promise that every finished node with a way out of the finished part reaches a node still on the stack. |
| Components.FinishKeepsOrder | scripts/module_summaries.py:83-84 | Appending a node whose descendants are finished keeps the postorder property. |
| Components.Gather | scripts/module_summaries.py:97-105 | Collects exactly the unseen nodes with a backward path to the start, closed under unseen predecessors. |
| Components.GatheredIs | scripts/module_summaries.py:94-106 | What is gathered from the last unseen node to finish is its strongly connected component. |
| Components.StronglyConnected | scripts/module_summaries.py:76-107 | Every node is in exactly one group, two nodes share a group if and only if each reaches the other, groups are ascending and ordered by their first nodes. |
| FlowSteps.StepHasShape | scripts/bytecode_roundtrip.py:1085-1149 | A machine given opcode by opcode, by number: every step goes along an edge of the flow tables and changes only registers of the written range. |
| FlowSteps.EdgeHasStep | scripts/bytecode_roundtrip.py:1126-1149 | Conversely every edge is taken by a step from some registers: taken and untaken branches, loop back edges, skips. |
| FlowSteps.RangeHasStep | scripts/bytecode_roundtrip.py:1102-1123 | And every register of a written range is changed by some step. |
| WriteReach.CaptureFlow | scripts/bytecode_roundtrip.py:1092-1149 | For decoded instructions of any opcode the three tables are those of the machine: the successors are exactly the targets of its steps, the ranges hold exactly the registers some step changes, and the bounds are the registers of CLOSEUPVALS. |
| WriteReach.SuccessWrites | scripts/bytecode_roundtrip.py:1097-1099 | Letting a fast call fall through misses no write: what it writes on success, the call on the way through writes. |
| WriteReach.SuccessGoesOn | scripts/bytecode_roundtrip.py:1097-1099 | And whatever can be written after success can be written after that call. |
| WriteReach.WriteReachable | scripts/bytecode_roundtrip.py:1152-1169 | Ends on every graph, and is true if and only if some control-flow path from the start reaches an instruction that writes the register with nothing on the path closing it first. |
| WriteReach.ChangesAreFound | scripts/bytecode_roundtrip.py:1060-1169 | Every run of that machine, successful fast calls included, that changes the register before a CLOSEUPVALS closes it has a path the search finds. |
| PrototypeMatch.RemapSubtrees | scripts/bytecode_roundtrip.py:646-653 | Popping and re-inserting permuted sibling subtrees finds every entry under its new key and nothing under another, whatever order the moves are in. |
| PrototypeMatch.OriginBack | scripts/bytecode_roundtrip.py:646-653 | Moving the subtrees back restores every key: no collision, no loss. |
| PrototypePairs.Prepare | scripts/bytecode_roundtrip.py:622-641 | The listing holds each prototype of the tree once, under its own path. |
| PrototypeRanking.RankCandidates | scripts/bytecode_roundtrip.py:701-705 | All candidates in the order of the sort key: most similar first, then same place, then by place; no other list satisfies the contract. |
| PrototypePairs.PairRanked | scripts/bytecode_roundtrip.py:706-710 | Of every two children left over that are similar enough or at one place, one ends in a pair that suits too and comes no later in the order of the sort key. |
| PrototypePairs.PairKids | scripts/bytecode_roundtrip.py:687-720 | All children of both sides are paired, each once: those of equal fingerprint first and in order; then the best pairs that are similar enough or at one place; then the rest in order; and no two pairs could exchange partners so that two similar children both gain. |
| PrototypeConservation.PairTopDown | scripts/bytecode_roundtrip.py:671-733 | The breadth-first phase, with its re-keyed map, pairs the roots first and, below every pair with equally many children, the children with each other as `PairKids` promises; what it pairs is found from the roots down, and no prototype is used twice. |
| PrototypeConservation.PairChildren | scripts/bytecode_roundtrip.py:722-733 | One parent's turn keeps the matching and the pairs made before, pairs the children with those of the partner as `PairKids` promises, and re-keys the partner's subtrees so that the children queued are found under the original paths. |
| PrototypeConservation.BestFree | scripts/bytecode_roundtrip.py:738-746 | The first of the most similar unused candidates, or none if and only if all unused ones are below one half. |
| PrototypeConservation.PairTheRest | scripts/bytecode_roundtrip.py:735-749 | Pairing the rest by similarity keeps every pair made before and uses nothing twice; in tree order each original gets the most similar rebuilt prototype that is free at its turn, the first of several, and none exactly when all free ones are below one half. |
| PrototypeConservation.ComparePrototypes | scripts/bytecode_roundtrip.py:664-751 | Each original prototype is in exactly one pair or missing, each rebuilt one in exactly one pair or extra, and nothing missing is similar to anything extra; the first pair is that of the main functions, below every pair found from there down with equally many children these are paired with each other as `PairKids` promises, and every other original has got the best that was free at its turn, or nothing. |
| PrototypeUnique.WellPairedOnce | scripts/bytecode_roundtrip.py:687-720 | Twins first, then the best that suit, then the rest in order: there is one such pairing of two lists of children. |
| PrototypeUnique.ComparedOnce | scripts/bytecode_roundtrip.py:664-749 | So the comparison has one answer: any two results that meet its contract pair the same prototypes. |
| CommentEdits.SpliceBackwards | scripts/call_reconstruction_audit.py:41-42 | Splicing from the last edit to the first is the left-to-right rewrite of the original. |
| CommentEdits.TranslateOffset | scripts/call_reconstruction_audit.py:45-48 | Refuses exactly the offsets strictly inside a replaced comment, and shifts the rest by the edits before them. |
| CommentEdits.SplitsAt | scripts/call_reconstruction_audit.py:41-48 | At every translated offset the output splits: what follows is the rewrite of what followed in the original. |
| CommentEdits.ByteAtTranslation | scripts/call_reconstruction_audit.py:41-48 | Each byte outside the edits appears unchanged at its translated offset. |
| CommentEdits.EndAtTranslation | scripts/call_reconstruction_audit.py:41-48 | The end of the text goes to the end of the text. |
| CommentEdits.TranslationIncreases | scripts/call_reconstruction_audit.py:45-48 | Translation is strictly increasing on outside positions and edit boundaries. |

## Left out

- Step budgets and size limits (`spend`, `remaining`, row, slot and edge budgets): each is an early refusal that adds no acceptance; the nesting limit of 32 prototypes is modelled because the executor's recursion rests on it.
- The full opcode table (except for the flow of control and written registers of `FlowShapes`), instruction decoding, float and struct packing, string and import decoding: constants are opaque values, and the instruction set is a representative one (loads, moves, globals, imports, upvalues, tables, arithmetic, calls, varargs, closures and captures, branches, fast calls, return). Loop opcodes appear only as nodes of register graphs and in `WriteReach`.
- Fingerprints, statistics, JSON reports, command lines, files, compilers and the Rust decompiler passes: plumbing around the cores.
- `Graph.function`'s table of per-opcode facts: a node carries its operands and kills, and the passes are proved for every assignment of them that fits the frame.
- Definitions.ValidateDefinitions: assumes that every node can be reached from the root, which the breadth-first construction of the graph gives (`Canonical.WellCodedFinishes`).
- ClosedReads.ClosedReadCertificate: like `ClosedPacks.ClosedPackCertificate`, holds in environments where reading an upvalue changes no cell; the scripts give no other reason for dropping a reread.
- Capture fields in graph nodes, prototype and template numbering across prototypes: isomorphism is stated per function for given numberings.
- Reference certificates: the second, relaxed graph that `reference_graph` builds is the private-storage pass above; function bodies are reduced to what they open, close and where their frames start.
- Real allocation timing, garbage collection and table layout: two outcomes are compared over all supplies of addresses; closures are observed as the tree of their body; arguments carry no private table.
- CaptureEffects.CarryWrites: pops an arbitrary element of a set where the script pops the end of a list made from a set; so does `Establish`.
- CaptureEffects.Verify: certificates with status `refused` and the type tests on parsed JSON are not modelled.
- WriteReach.WriteReachable: registers are below the frame top, as every register of a frame is.
- WriteReach.CaptureFlow: assumes one instruction for each program counter, as the parser produces them.
- PrototypeConservation.ComparePrototypes: the prototypes form trees with distinct identities; `similarity` is an arbitrary function, so every result holds for whichever the script uses. The result tiers and the opcode-multiset triage are left out.
- CommentEdits.SpliceBackwards: the edits are sorted, disjoint and not empty, as the annotations they come from are; line and column numbers and the comparison of the rest of the metadata are left out.
