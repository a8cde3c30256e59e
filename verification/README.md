# Thaw: verified models of the runtime arena, the clone analysis, the module graph, strings and publication

This project models the parts of the Thaw compiler and runtime that carry its correctness, and proves what they
promise. `dafny verify dfyconfig.toml` checks everything.

**The tracing bump arena** (`Arena*.dfy`, `Closure.dfy`). `ArenaModel` is the abstract state, one map of records for
all allocation events, and what each operation does to it. `ArenaHeap.Arena` is the arena as it is written: an ordered
map next to an unsorted pending list, root slots, pins, side edges, generations and hooks, each method proved to do
the abstract step. Reachability is over byte addresses: an interior pointer keeps its allocation alive, a side edge is
followed only from its exact owner address. The allocator is a contract: fresh bytes of the current bump are disjoint
from what it handed out since its own last reset, and bumps are disjoint. On top of that: the invariant of all
reachable states, survival of reachable allocations over whole runs, the exact partition of a reset, prediction of a
reset from a snapshot, and the amortised cost of marking, the bound on garbage, and what each operation means to a
client (`ArenaLaws`). `ArenaSettling` says when pending allocations move into the ordered table, and `ArenaTiming`
what that timing can change.

**The in-bounds and read-only analysis** (`Clone*.dfy`). A first-order subset of JavaScript with a big-step semantics
over a heap, in which a computed read outside the bounds of an array is a distinct outcome. Globals such as `Math`,
functions outside the program, built-in methods and operators on strings may answer anything, each time anew, and a
run goes on where JavaScript would throw a TypeError, so it makes at least the reads of the real one. `CloneAnalysis`
threads the visitor's tables as a value; `CloneVisitor` is the visitor with its mutable fields, proved to compute it.
Soundness goes through a judgement: acceptance implies the judgement (`CloneCounting`, `CloneAcceptance`,
`CloneBodies`, `CloneJoin`), the judgement implies safe execution (`CloneSoundness`), and
`CloneTheorem.AnalysisIsSound` puts them together: in the function checked, in helpers that are given a container and
in the other helpers that are checked to read nothing, no read of any array is out of bounds, and containers neither
change nor escape. The property is false of the code in general, so it is stated for programs in which the functions a
container can get to, and the helpers that read nothing, are disciplined: no name changes its role (parameters and
loop indices are not declared again where they are in use, a loop header declares each name once, a name that holds a
length holds only that length), emptiness guards stand in the outermost list, and the positions that the visitor skips
hold nothing to visit. `CloneLimits` and `CloneRebinding` hold twelve functions that break these conditions, are
accepted, and read out of bounds; there is none for a container parameter that is declared again, which loses the
container instead. The condition is sufficient, not necessary: unreachable code may violate it harmlessly.
`CloneCompleteness` is the converse: judged code whose loops have the shape the visitor matches is accepted with every
read proven.

**The module graph** (`Module*.dfy`). Loading, emission order, reachability and export tables. In `ModuleExports`
modules are numbered in emission order, so that the sources of re-exports come earlier, which `ModuleBundle` derives
from the emission order; tables are compared with ResolveExport of section 16.2.1.6.3 of ECMA-262 (2023) through the
set of bindings a name leads to. Loader and emission order are both pinned down as walks, and `ModuleSequence` draws
the consequence: imports are carried out in the order they are written.

**Strings** (`Wtf8.dfy`, `ErrorWire.dfy`, `StringReplace.dfy`, `StringAppend.dfy`). The WTF-8 codec, the error frame
counted in UTF-16 units, substitution (sections 22.1.3.19 to 22.1.3.20 of ECMA-262 (2023)), and the append buffer that
grows in place.

**Publication** (`Publication.dfy`). Moving build outputs into place when any file operation may fail.

Two places where the code and its stated intent differ are kept as the code has them. The pending list of the arena is
meant to be unobservable, and is, except that the threshold for the next automatic reset sums the ordered table only
(`ArenaTiming.LookupMovesThreshold` is a run in which that shows, `ArenaTiming.TimingShowsExactly` says when it does).
A zero-size allocation is recorded with size 1 and may repeat the base of a live record, which it then replaces
(`ArenaRuns.ZeroSizeTakesOver`); the run theorems assume traced sizes of at least 1.

## Model

| member | source | states |
|---|---|---|
| `Closure.MarkingSteps` | crates/thaw-arena/src/lib.rs:748-781 | one worklist iteration keeps "every start node and every successor of a visited node is visited or queued", whatever order successors are pushed in |
| `Closure.MarkingEnds` | crates/thaw-arena/src/lib.rs:736-781 | an empty worklist leaves exactly the least set that contains the start nodes and is closed under successors |
| `Closure.SameReach` | crates/thaw-arena/src/lib.rs:736-781 | two graphs with one start set that agree on the nodes one of them reaches reach the same nodes |
| `ArenaMarking.Mark` | crates/thaw-arena/src/lib.rs:736-781 | the worklist of a traced reset terminates (unvisited nodes of a finite universe, then queue length) with `owners` and `live` exactly the least closure of root contents, root slots and pins under heap words, side references and identity-matched edges |
| `ArenaMarking.MarkOne` | crates/thaw-arena/src/lib.rs:748-781 | one popped node: it joins the owners, its side children are followed on the first visit only, the words of its allocation only when that becomes live |
| `ArenaMarking.MarkNativeGraph` | crates/thaw-arena/src/lib.rs:562-589 | marking a snapshot ends with exactly the nodes reached from its roots and the extra ones, the allocations holding them and their generations |
| `ArenaMarking.ReadWords` | crates/thaw-arena/src/lib.rs:776-780 | the conservative scan reads every whole word of an allocation |
| `ArenaIndex.ScanAnswers` | crates/thaw-arena/src/lib.rs:373-405 | scanning the unsorted pending list next to the ordered map answers like one map of all allocation events, newest record winning |
| `ArenaIndex.SettledLookupAnswers` | crates/thaw-arena/src/lib.rs:338-360 | so does the lookup inside a reset over the sorted and deduplicated list |
| `ArenaIndex.SettleKeeps` | crates/thaw-arena/src/lib.rs:723-735 | stable sort and newest-wins deduplication of the pending list keep what it folds to |
| `ArenaIndex.NearestAnswers` | crates/thaw-arena/src/lib.rs:338-360 | the settled lookup finds the nearest record at or below a pointer |
| `ArenaIndex.FoldSplit` | crates/thaw-arena/src/lib.rs:320-336 | folding the pending list in two parts, at any point, gives the same map: flush timing does not show |
| `ArenaSweep.Merge` | crates/thaw-arena/src/lib.rs:802-841 | the sorted merge of ordered map and pending list splits all records into live ones and dead ranges, none lost or duplicated, a recent record replacing a settled one |
| `ArenaSweep.Compact` | crates/thaw-arena/src/lib.rs:842-868 | the kept bumps are those of live generations, in order |
| `ArenaSweep.RankGrows` | crates/thaw-arena/src/lib.rs:842-868 | the new number of a kept generation grows strictly with the old one |
| `ArenaSweep.LastRangeDecides` | crates/thaw-arena/src/lib.rs:311-317 | with disjoint ascending ranges the binary search answers membership in any range |
| `ArenaSweep.SweepAsks` | crates/thaw-arena/src/lib.rs:782-801 | the lookups of the sweep see the same generations and edges as the merged index |
| `ArenaHeap.Arena.constructor` | crates/thaw-arena/src/lib.rs:82-113 | an arena starts empty |
| `ArenaHeap.Arena.Alloc` | crates/thaw-arena/src/lib.rs:640-674 | hands out bytes of the current bump, counts them, and records base, size, generation and a serial when tracing |
| `ArenaHeap.Arena.RecordAllocation` | crates/thaw-arena/src/lib.rs:656-670 | appends to the pending list; the abstract index gains exactly that record |
| `ArenaHeap.Arena.FlushPending` | crates/thaw-arena/src/lib.rs:320-336 | moves the pending list into the ordered map; the abstract value does not change |
| `ArenaHeap.Arena.Locate` | crates/thaw-arena/src/lib.rs:373-405 | answers like the abstract index; it flushes exactly when more than 32 allocations are pending, and the abstract value does not change |
| `ArenaHeap.Arena.ContainsAllocation` | crates/thaw-arena/src/lib.rs:410-416 | true exactly inside a recorded extent |
| `ArenaHeap.Arena.AllocationIdentity` | crates/thaw-arena/src/lib.rs:418-427 | the identity of the record that holds the pointer, none if its serial is lost |
| `ArenaHeap.Arena.WasReclaimed` | crates/thaw-arena/src/lib.rs:311-317 | true exactly when the pointer lies in a range the last reset reclaimed |
| `ArenaHeap.Arena.Pin` | crates/thaw-arena/src/lib.rs:160-168 | counts a pin when tracing, none otherwise |
| `ArenaHeap.Arena.Unpin` | crates/thaw-arena/src/lib.rs:179-190 | drops one count and forgets the address at zero |
| `ArenaHeap.Arena.ReplaceReference` | crates/thaw-arena/src/lib.rs:204-218 | removes the first occurrence of the old child and appends the new one |
| `ArenaHeap.Arena.ForgetReferences` | crates/thaw-arena/src/lib.rs:220-224 | drops every child of the owner |
| `ArenaHeap.Arena.ReplaceAllocationReference` | crates/thaw-arena/src/lib.rs:228-252 | refuses, and changes nothing, unless the owner address still belongs to that identity |
| `ArenaHeap.Arena.RemoveAllocationReference` | crates/thaw-arena/src/lib.rs:256-270 | touches the edges of that identity only |
| `ArenaHeap.Arena.RegisterRoot` | crates/thaw-arena/src/lib.rs:277-285 | adds a slot once and turns tracing on |
| `ArenaHeap.Arena.UnregisterRoot` | crates/thaw-arena/src/lib.rs:294-308 | removes the slot and its side references; false if it was not registered |
| `ArenaHeap.Arena.RegisterHook` | crates/thaw-arena/src/lib.rs:599-606 | adds a hook once |
| `ArenaHeap.Arena.RegisterMetadataHook` | crates/thaw-arena/src/lib.rs:617-624 | adds a metadata hook once |
| `ArenaHeap.Arena.SnapshotNativeGraph` | crates/thaw-arena/src/lib.rs:463-559 | succeeds exactly when the epoch and every serial are available, and then copies tables, words and merged edges |
| `ArenaHeap.Arena.Sweep` | crates/thaw-arena/src/lib.rs:723-868 | the state after the mark and sweep of a traced reset is the abstract one: survivors, renumbered generations, dead ranges, filtered edges |
| `ArenaHeap.Arena.RunHooks` | crates/thaw-arena/src/lib.rs:608-631 | calls the given hooks in order |
| `ArenaHeap.Arena.Reset` | crates/thaw-arena/src/lib.rs:704-873 | the whole reset, hooks included; a reset inside a reset does nothing |
| `ArenaHeap.Arena.ResetIfGrown` | crates/thaw-arena/src/lib.rs:683-696 | resets exactly when enough was handed out, runs the hooks of a reset, and sets the next threshold from what the ordered table then records |
| `ArenaHeap.Arena.Perform` | crates/thaw-arena/src/lib.rs:204-308 | every client operation does what the abstract step says |
| `ArenaHeap.CopyAllocations` | crates/thaw-arena/src/lib.rs:463-520 | copies every record with its words, or reports that a serial is missing |
| `ArenaHeap.MergeEdges` | crates/thaw-arena/src/lib.rs:520-559 | merges edges of live incarnations into the copied side references, owner by owner |
| `ArenaHeap.FilterEdges` | crates/thaw-arena/src/lib.rs:786-801 | keeps references of visited owners and edges of live incarnations, and nothing else |
| `ArenaHeap.Renumber` | crates/thaw-arena/src/lib.rs:802-868 | survivors, ascending dead ranges and kept bumps fit together |
| `ArenaInvariant.BaseKeeps` | crates/thaw-arena/src/lib.rs:640-674 | every operation keeps: recorded extents disjoint and inside the bump their generation names, bumps disjoint, serials unique and issued, edges inside their incarnation |
| `ArenaInvariant.CompactionKeeps` | crates/thaw-arena/src/lib.rs:842-868 | after renumbering every record still names the bump that holds its bytes |
| `ArenaInvariant.CoreKeeps` | crates/thaw-arena/src/lib.rs:704-873 | a reset keeps the invariant, traced or not |
| `ArenaRuns.RunIsTrace` | crates/thaw-arena/src/lib.rs:640-873 | every client run, hooks and nested calls included, is a sequence of elementary steps |
| `ArenaRuns.RunKeepsInvariant` | crates/thaw-arena/src/lib.rs:640-873 | the invariant holds in every reachable state |
| `ArenaRuns.ReachableSurvives` | crates/thaw-arena/src/lib.rs:640-873 | over any trace an allocation reachable at each reset keeps base, size and serial, and none of its bytes is handed out again |
| `ArenaRuns.RunKeepsReachable` | crates/thaw-arena/src/lib.rs:640-873 | the same for client runs whose resets run arbitrary hooks |
| `ArenaRuns.AllocDisturbsOnlyItsBase` | crates/thaw-arena/src/lib.rs:656-670 | an allocation leaves all other records alone; it replaces one exactly when it repeats its base |
| `ArenaRuns.ZeroSizeTakesOver` | crates/thaw-arena/src/lib.rs:656-670 | a zero-size allocation at a recorded base does replace the record of a pinned allocation |
| `ArenaRuns.StaleForever` | crates/thaw-arena/src/lib.rs:228-270 | a dead incarnation stays dead in every run: its identity is never found again, edge updates under it are refused, and edges stored for it never lead anywhere |
| `ArenaTheorems.FindIsMembership` | crates/thaw-arena/src/lib.rs:338-360 | with disjoint records a lookup succeeds exactly for pointers inside a record |
| `ArenaTheorems.ResetPartitions` | crates/thaw-arena/src/lib.rs:802-841 | every pointer into a recorded allocation is afterwards found in the same allocation, size and serial unchanged, or reported as reclaimed, never both; the numbers of records and of bytes add up |
| `ArenaTheorems.ReclaimedExactly` | crates/thaw-arena/src/lib.rs:311-317 | `was_reclaimed(p)` holds if and only if p lay in a dead extent |
| `ArenaTheorems.HooksKeepClassification` | crates/thaw-arena/src/lib.rs:134-155 | that answer stays fixed while hooks allocate, pin, edit edges or call reset again |
| `ArenaTheorems.HooksRunOnceInOrder` | crates/thaw-arena/src/lib.rs:599-631 | each hook registered when its list is read runs exactly once, metadata hooks first |
| `ArenaTheorems.CompactionIsExact` | crates/thaw-arena/src/lib.rs:842-868 | renumbering is total on survivors, strictly increasing and onto the kept bumps, and every kept bump holds a survivor |
| `ArenaPrediction.SameVisits` | crates/thaw-arena/src/lib.rs:736-801 | the graph a reset leaves behind visits exactly the same nodes |
| `ArenaPrediction.SecondResetReclaimsNothing` | crates/thaw-arena/src/lib.rs:782-868 | a second reset with no change in between reclaims nothing and moves nothing |
| `ArenaPrediction.SnapshotPredictsReset` | crates/thaw-arena/src/lib.rs:463-589 | a successful snapshot, marked with no extra roots, names exactly the owners, live starts and generations of the reset, although the two merge edges and skip revisits differently |
| `ArenaTiming.TraceConsistent` | crates/thaw-arena/src/lib.rs:320-405 | over every trace the ordered table and the pending list together hold exactly the records of the view, pending ones under bases not settled yet, whenever they were flushed |
| `ArenaTiming.ResetTablesAreTrace` | crates/thaw-arena/src/lib.rs:704-873 | the tables a reset and its hooks leave are those of its elementary steps |
| `ArenaTiming.ResetCovers` | crates/thaw-arena/src/lib.rs:683-696 | the ordered table a threshold is computed from covers the survivors of the reset, through all hooks |
| `ArenaTiming.ThresholdsAgree` | crates/thaw-arena/src/lib.rs:683-696 | the threshold, which sums the ordered table alone, is the one all records give if and only if nothing is pending, all records fit half the floor, or the settled ones saturate it |
| `ArenaTiming.TimingShowsExactly` | crates/thaw-arena/src/lib.rs:683-696 | the same of every reset with arbitrary hooks: that is exactly when flush timing shows |
| `ArenaTiming.LookupMovesThreshold` | crates/thaw-arena/src/lib.rs:373-405 | a run in which it shows: a reset hook allocates 33 times and then looks one up, or not; the final values are equal, the thresholds differ |
| `ArenaTiming.FlushTimingShows` | crates/thaw-arena/src/lib.rs:683-696 | the same run on two arenas |
| `ArenaCost.MarkingIsAmortised` | crates/thaw-arena/src/lib.rs:683-696 | over any run in which only growth triggers resets, saturated thresholds included, twice the bytes marked is at most three times the bytes handed out; each threshold is computed from the ordered table as the run left it |
| `ArenaCost.Drive` | crates/thaw-arena/src/lib.rs:683-696 | an arena driven through such a run has the value, tables and threshold the accounting says, so the bound holds of it |
| `ArenaBound.GarbageIsBounded` | crates/thaw-arena/src/lib.rs:683-696 | after every check in such a run, the bytes recorded are at most what the last reset left plus the larger of one mebibyte and twice what that reset and its hooks left |
| `ArenaBound.NoEarlyReset` | crates/thaw-arena/src/lib.rs:683-696 | and no check resets before one mebibyte was handed out since the last reset |
| `ArenaLaws.BytesAddUp` | crates/thaw-arena/src/lib.rs:653-653 | between resets the counter is the bytes handed out, added up, or its maximum |
| `ArenaLaws.SerialsAddUp` | crates/thaw-arena/src/lib.rs:654-674 | with tracing on every allocation takes one serial and one epoch, until the counters are full |
| `ArenaLaws.WorkThenCollect` | crates/thaw-arena/src/lib.rs:683-687 | an arena that works and then checks resets if and only if the bytes handed out since the last reset, added up, reach the threshold |
| `ArenaLaws.ReferenceReplaced` | crates/thaw-arena/src/lib.rs:204-218 | as multisets: the children of the owner lose one `previous`, if there was one, and gain `next`, unless it is null; other owners keep theirs |
| `ArenaLaws.EdgeReplaced` | crates/thaw-arena/src/lib.rs:228-252 | the same for the edges of the identity the owner address has now; any other identity changes nothing |
| `ArenaLaws.EdgeRemoved` | crates/thaw-arena/src/lib.rs:256-270 | one edge fewer at that key, all others kept |
| `ArenaLaws.KeptIsLeast` | crates/thaw-arena/src/lib.rs:736-781 | read without the graph: visited is what every set holds that has root slots, root contents and pins, and with an address its references, the edges of the incarnation it lies in, and the whole words of the allocation; alive is an allocation some visited address lies in |
| `ArenaLaws.StoredChildSurvives` | crates/thaw-arena/src/lib.rs:204-218 | a child stored for a visited owner is visited, and the allocation holding it survives |
| `ArenaLaws.StoredEdgeSurvives` | crates/thaw-arena/src/lib.rs:228-252 | so is a child stored as an edge of an incarnation |
| `ArenaLaws.PinsAddUp` | crates/thaw-arena/src/lib.rs:158-192 | over any trace, resets included, as many pins are left as were placed and not dropped |
| `ArenaLaws.PinHolds` | crates/thaw-arena/src/lib.rs:158-192 | while more pins were placed than dropped, the address is visited and its allocation survives |
| `ArenaLaws.RootHolds` | crates/thaw-arena/src/lib.rs:277-290 | a registered root slot and its contents are visited until the slot is unregistered |
| `ArenaLaws.HookIsCalled` | crates/thaw-arena/src/lib.rs:599-631 | a registered hook of either kind is called by every later reset |
| `CloneSyntax.Strip` | crates/thaw-js-infer/src/clone.rs:429-434 | removes every outer parenthesis |
| `CloneVisitor.ReadOnly.constructor` | crates/thaw-js-infer/src/clone.rs:745-760 | the visitor starts with empty tables |
| `CloneVisitor.ReadOnly.Expression` | crates/thaw-js-infer/src/clone.rs:684-726 | visits an expression with exactly the effect on counters and tables that the analysis defines |
| `CloneVisitor.ReadOnly.Chain` | crates/thaw-js-infer/src/clone.rs:692-716 | walks the links of a rooted member chain, counting each computed one |
| `CloneVisitor.ReadOnly.CountRead` | crates/thaw-js-infer/src/clone.rs:696-709 | counts a read, proven in bounds or failing the check |
| `CloneVisitor.ReadOnly.Member` | crates/thaw-js-infer/src/clone.rs:684-726 | member expressions, rooted in a container or not |
| `CloneVisitor.ReadOnly.NamedCall` | crates/thaw-js-infer/src/clone.rs:645-662 | arguments of a call by name; bare containers are passed on |
| `CloneVisitor.ReadOnly.Method` | crates/thaw-js-infer/src/clone.rs:663-674 | method calls; on containers only pure ones |
| `CloneVisitor.ReadOnly.Declarators` | crates/thaw-js-infer/src/clone.rs:609-616 | declarators, recording length aliases |
| `CloneVisitor.ReadOnly.Header` | crates/thaw-js-infer/src/clone.rs:532-547 | the declarators of a loop header: the index, or no match; aliases seen stay recorded |
| `CloneVisitor.ReadOnly.Pattern` | crates/thaw-js-infer/src/clone.rs:528-574 | recognises `for (i = K; i < p.length; i++)`, with the bound an alias or not |
| `CloneVisitor.ReadOnly.ForLoop` | crates/thaw-js-infer/src/clone.rs:589-602 | the index pair is known in the header and body and popped afterwards |
| `CloneVisitor.ReadOnly.Statement` | crates/thaw-js-infer/src/clone.rs:588-726 | visits a statement |
| `CloneVisitor.ReadOnly.Statements` | crates/thaw-js-infer/src/clone.rs:500-507 | visits a list; an emptiness guard counts from there on |
| `CloneVisitor.Check` | crates/thaw-js-infer/src/clone.rs:792-842 | this function and every function a container is passed to, at most `depth` calls deep, with the reads of all of them summed |
| `CloneCounting.StmtGrows` | crates/thaw-js-infer/src/clone.rs:588-726 | a visit only grows its tables: failures stick, unproven reads and unaccounted assignments never shrink, enclosing loops are restored |
| `CloneCounting.LoopEntryGrows` | crates/thaw-js-infer/src/clone.rs:589-602 | at a matched loop body the index update has made up for the loop it was counted as |
| `CloneCounting.StmtQuiet` | crates/thaw-js-infer/src/clone.rs:617-638 | a visit that counted no assignment of a name met none |
| `CloneCounting.StmtLoops` | crates/thaw-js-infer/src/clone.rs:589-602 | a statement that does not declare a name counts no loop over it |
| `CloneBodies.IndexUnwritten` | crates/thaw-js-infer/src/clone.rs:577-586 | by counting alone: in an accepted function the body of a matched loop never writes its index |
| `CloneBodies.BodyJudged` | crates/thaw-js-infer/src/clone.rs:588-726 | a disciplined function whose visit ends well only reads its containers, each computed read in one of the proven forms |
| `CloneJoin.JoinList` | crates/thaw-js-infer/src/clone.rs:822-840 | positions checked one at a time are sound together, because a body accepted for two containers holds no computed read |
| `CloneSoundness.EvalSound` | crates/thaw-js-infer/src/clone.rs:684-726 | judged expressions never leave bounds, never change a container cell, never let a reference to one escape |
| `CloneSoundness.ListSound` | crates/thaw-js-infer/src/clone.rs:500-507 | judged bodies likewise, with guards taking effect where they stand |
| `CloneSoundness.GuardHolds` | crates/thaw-js-infer/src/clone.rs:454-480 | after an emptiness guard falls through, the array is not empty |
| `CloneSoundness.PairLoopSound` | crates/thaw-js-infer/src/clone.rs:589-602 | in a matched loop the index denotes an element throughout the body |
| `CloneTheorem.SumParts` | crates/thaw-js-infer/src/clone.rs:822-842 | the sums agree only if the function and every callee prove all their reads |
| `CloneTheorem.HelpersJudged` | crates/thaw-js-infer/src/clone.rs:792-842 | every disciplined function a container is passed to is judged for every combination of accepted positions |
| `CloneTheorem.AnalysisIsSound` | crates/thaw-js-infer/src/clone.rs:1375-1391 | if the check returns (n, n) and the functions concerned are disciplined, then on every input, for every fuel and whatever globals and built-ins answer: no computed read of any array is out of bounds in the function, in helpers given a container and in helpers checked to read nothing, no container cell changes and none escapes |
| `CloneTheorem.QuietJudged` | crates/thaw-js-infer/src/clone.rs:1488-1501 | a helper that got no container and shows no element read on its own is judged to read none |
| `CloneCompleteness.BodyAccepted` | crates/thaw-js-infer/src/clone.rs:500-726 | the converse of `CloneBodies.BodyJudged`: a judged body whose counted loops have the shape the visitor matches, with indices assigned only by their loops and bounds never assigned, is accepted with every read proven |
| `CloneCompleteness.AcceptableIsProved` | crates/thaw-js-infer/src/clone.rs:792-842 | lifted over passes: if that holds of every function a container is passed to, `depth` calls deep, the check answers (n, n) |
| `CloneCompleteness.PatternIs` | crates/thaw-js-infer/src/clone.rs:528-575 | the loop pattern matches exactly the loops `for (var i = K; i < bound; i++)` whose other declarators are lengths of containers and whose bound is such a length or a name declared as one |
| `CloneCompleteness.StmtTables` | crates/thaw-js-infer/src/clone.rs:588-726 | what a visit does to the tables is told by the statement alone: lengths recorded, counted loops, bounds noted, and no more assignments than the text holds |
| `CloneCompleteness.GuardForms` | crates/thaw-js-infer/src/clone.rs:454-480 | all five written forms of an emptiness guard count, with the exit alone or last in a block |
| `CloneCompleteness.LoopForms` | crates/thaw-js-infer/src/clone.rs:528-575 | loops from any literal up to a length, or a name declared as one in the header or before, are counted |
| `CloneCompleteness.EndsAccepted` | crates/thaw-js-infer/src/clone.rs:510-525 | the last and the first element after a guard are proven reads |
| `CloneLimits.SourceEscapes` | crates/thaw-js-infer/src/clone.rs:676-683 | without the discipline the property fails: a read in the source of `for (x of p[5])` is not visited |
| `CloneLimits.ReceiverEscapes` | crates/thaw-js-infer/src/clone.rs:663-674 | nor is one in the receiver of a pure method, `p[5].indexOf()` |
| `CloneLimits.ParenthesisEscapes` | crates/thaw-js-infer/src/clone.rs:712-716 | nor behind a parenthesis, `(p[5]).x` |
| `CloneLimits.OperandEscapes` | crates/thaw-js-infer/src/clone.rs:631-638 | nor in an update operand, `q[p[5]]++` |
| `CloneLimits.TargetEscapes` | crates/thaw-js-infer/src/clone.rs:617-630 | nor in the object of an assignment target, `q[p[5]].x = 0` |
| `CloneLimits.NestedGuardEscapes` | crates/thaw-js-infer/src/clone.rs:500-507 | a guard in a nested list is taken to hold afterwards |
| `CloneLimits.RedeclaredIndexEscapes` | crates/thaw-js-infer/src/clone.rs:609-616 | a redeclaration is not counted as an assignment of the index |
| `CloneLimits.RedeclaredAliasEscapes` | crates/thaw-js-infer/src/clone.rs:609-616 | a length alias outlives a redeclaration |
| `CloneRebinding.ReboundIndexEscapes` | crates/thaw-js-infer/src/clone.rs:676-683 | a `for-of` variable that rebinds the index of an enclosing loop is not counted as an assignment |
| `CloneRebinding.ReboundAliasEscapes` | crates/thaw-js-infer/src/clone.rs:676-683 | nor is one that rebinds a length alias |
| `CloneRebinding.RedeclaredParameterEscapes` | crates/thaw-js-infer/src/clone.rs:609-616 | a parameter that is also declared as a length, on some path, is taken for the length on all |
| `CloneRebinding.RepeatedHeaderEscapes` | crates/thaw-js-infer/src/clone.rs:532-547 | a header that declares its index twice is taken to start at the literal |
| `ModuleOrder.Emission.constructor` | crates/thaw-cli/src/module_graph.rs:1897-1899 | nothing is visited |
| `ModuleOrder.Emission.Visit` | crates/thaw-cli/src/module_graph.rs:1860-1896 | finishes a module and everything below it, in post-order with lower dependencies first, and restores the stack, or returns a static cycle |
| `ModuleOrder.EmissionOrder` | crates/thaw-cli/src/module_graph.rs:1859-1904 | succeeds if and only if the static graph is acyclic; then the order lists every module once, after its static dependencies, and is the post-order of a depth-first walk that takes dependencies in ascending order; otherwise the error is a real static cycle |
| `ModuleOrder.OrderExcludesCycles` | crates/thaw-cli/src/module_graph.rs:1859-1904 | an order with dependencies first rules out cycles |
| `ModuleOrder.EmitsOnce` | crates/thaw-cli/src/module_graph.rs:1859-1904 | there is only one such post-order |
| `ModuleOrder.LowerFirst` | crates/thaw-cli/src/module_graph.rs:1883-1891 | of two static dependencies of a module not listed before, the lower one comes first, unless the other was listed or something up to the lower one needs it |
| `ModuleOrder.EntryDependenciesAscend` | crates/thaw-cli/src/module_graph.rs:1883-1904 | so it is for the entry in every emission order returned |
| `ModuleOrder.EdgeDescends` | crates/thaw-cli/src/module_graph.rs:1859-1904 | a static dependency has a smaller position in the order, which is what building export tables in that order relies on |
| `ModuleOrder.ReachableModules` | crates/thaw-cli/src/module_graph.rs:1840-1857 | the least set that holds the entry and is closed under the chosen dependencies |
| `ModuleLoading.Loader.Load` | crates/thaw-cli/src/module_graph.rs:953-1087 | loads a module and everything it needs, reserving its index first; existing modules keep index and content; the modules stand in the order in which a depth-first walk along the imports meets them |
| `ModuleLoading.Loader.Follow` | crates/thaw-cli/src/module_graph.rs:1066-1082 | follows one import and files it under its flags; other specifiers are skipped |
| `ModuleLoading.LoadProgram` | crates/thaw-cli/src/module_graph.rs:1049-1087 | succeeds exactly when every needed file can be read and all its relative imports resolve; then there is one module per needed path with exactly the edges its imports name, numbered in the order of first meeting |
| `ModuleLoading.LoadsOnce` | crates/thaw-cli/src/module_graph.rs:953-1087 | there is only one such order |
| `ModuleSequence.ImportsInOrder` | crates/thaw-cli/src/module_graph.rs:953-1904 | from files to emission: of two static imports of the entry the first is carried out first, unless the target of the second is needed by something imported up to the first |
| `ModuleExports.MergeStar` | crates/thaw-cli/src/module_graph.rs:2938-2982 | `export *`: explicit names win, equal targets merge, differing or inherited-ambiguous ones become ambiguous, `default` is skipped |
| `ModuleExports.Target` | crates/thaw-cli/src/module_graph.rs:2754-2778 | an explicit export has a target exactly when its name leads to one binding |
| `ModuleExports.MergeExports` | crates/thaw-cli/src/module_graph.rs:2652-2984 | the table built item by item shows each name exactly as it leads; it fails exactly when an explicit export does not resolve |
| `ModuleExports.ExportTables` | crates/thaw-cli/src/module_graph.rs:2652-2984 | tables exist if and only if every explicit export resolves under ResolveExport, and then answer every name as ResolveExport does |
| `ModuleExports.ResolveIsExact` | crates/thaw-cli/src/module_graph.rs:2938-2982 | ResolveExport, with its shared resolve set that cuts off repeated visits, finds nothing, the one binding, or an ambiguity exactly according to the bindings the name leads to |
| `ModuleExports.MergeOrderIrrelevant` | crates/thaw-cli/src/module_graph.rs:2652-2984 | tables do not depend on the order of a module's items when explicit exports of one name agree, as they must under ECMA-262 |
| `ModuleExports.DisagreeingOrderMatters` | crates/thaw-cli/src/module_graph.rs:2686-2690 | and only then: in a module that links, if two explicit exports of one name disagree, exchanging two items gives a program that still links and another table |
| `ModuleBundle.EmissionIsOrdered` | crates/thaw-cli/src/module_graph.rs:2652-2984 | renumbered along an emission order, every source of a re-export comes before the modules that use it |
| `ModuleBundle.BundleExports` | crates/thaw-cli/src/module_graph.rs:2255-2984 | order, renumber and build the tables of loaded modules: stops at a static cycle exactly if there is one, or at an export without a binding; else the tables answer as ResolveExport |
| `Wtf8.DecodeUtf16` | crates/thaw-arena/src/strings.rs:386-447 | the index loop computes the decoding |
| `Wtf8.Character` | crates/thaw-arena/src/strings.rs:389-445 | one character or stray byte at an index |
| `Wtf8.EncodeUtf16` | crates/thaw-arena/src/strings.rs:472-492 | the index loop computes the encoding |
| `Wtf8.PushDecodes` | crates/thaw-arena/src/strings.rs:451-467 | one encoded code point decodes to its units, whatever bytes follow |
| `Wtf8.DecodeInvertsEncode` | crates/thaw-arena/src/strings.rs:386-492 | decoding inverts encoding for every sequence of UTF-16 units |
| `Wtf8.StrayByteReplaced` | crates/thaw-arena/src/strings.rs:383-447 | a byte that starts no whole sequence decodes to U+FFFD alone and decoding goes on with the next byte; a whole sequence is consumed entirely |
| `Wtf8.OverlongDecodes` | crates/thaw-arena/src/strings.rs:405-420 | an overlong sequence of three bytes is decoded by its bits |
| `Wtf8.ConcatenationDecodes` | crates/thaw-arena/src/strings.rs:386-492 | encodings concatenate, even between the halves of a surrogate pair |
| `Wtf8.RoundTripIffCanonical` | crates/thaw-arena/src/strings.rs:386-492 | encoding inverts decoding exactly on canonical WTF-8: shortest forms, no pair spelled as two surrogates |
| `ErrorWire.Utf16Units` | crates/thaw-arena/src/error_wire.rs:37-46 | counts units with checked addition; refuses exactly malformed or overflowing input |
| `ErrorWire.FindBoundary` | crates/thaw-arena/src/error_wire.rs:48-60 | the byte position after exactly so many units, or none |
| `ErrorWire.ParseDecimal` | crates/thaw-arena/src/error_wire.rs:62-74 | checked arithmetic refuses exactly the numbers that overflow |
| `ErrorWire.EncodeTagged` | crates/thaw-arena/src/error_wire.rs:76-101 | frames exactly the countable texts |
| `ErrorWire.WireLayout` | crates/thaw-arena/src/error_wire.rs:76-101 | the layout byte by byte |
| `ErrorWire.UnitsAreDecoded` | crates/thaw-arena/src/error_wire.rs:37-46 | an accepted count is the number of units the decoder yields |
| `ErrorWire.CutIsCounted` | crates/thaw-arena/src/error_wire.rs:48-60 | what a boundary cuts off has exactly the units asked for |
| `ErrorWire.DecimalReads` | crates/thaw-arena/src/error_wire.rs:62-74 | a spelled number in front of a colon reads back |
| `ErrorWire.RoundTrip` | crates/thaw-arena/src/error_wire.rs:76-130 | parsing inverts encoding in front of any suffix, for chains without byte 1 |
| `ErrorWire.RoundTripIffChainClean` | crates/thaw-arena/src/error_wire.rs:76-130 | and only for those |
| `ErrorWire.AcceptedIsExact` | crates/thaw-arena/src/error_wire.rs:103-130 | an accepted frame is exactly its parts, its texts hold exactly the declared units, and cutting there splits no surrogate pair |
| `StringReplace.Substitute` | crates/thaw-arena/src/strings.rs:510-531 | the unit loop computes GetSubstitution without captures |
| `StringReplace.Locate` | crates/thaw-arena/src/strings.rs:499-507 | the leftmost match at or after the cursor |
| `StringReplace.PositionsPlaced` | crates/thaw-arena/src/strings.rs:497-541 | match positions are matches and do not overlap |
| `StringReplace.ReferenceValues` | crates/thaw-arena/src/strings.rs:510-528 | by value: the part before the match, the part after it, the match, and one dollar sign |
| `StringReplace.ReferenceThenRest` | crates/thaw-arena/src/strings.rs:510-528 | a reference in front of a template gives its value and then the substitution of the rest |
| `StringReplace.LiteralThenRest` | crates/thaw-arena/src/strings.rs:510-528 | any other unit is copied, a dollar sign that starts no reference included |
| `StringReplace.LiteralTemplate` | crates/thaw-arena/src/strings.rs:510-528 | a template without a dollar sign stands for itself in front of any other |
| `StringReplace.ReplaceByItself` | crates/thaw-arena/src/strings.rs:495-545 | replacing every match, or the first, by itself gives the value back |
| `StringReplace.ReplaceFirst` | crates/thaw-arena/src/strings.rs:495-545 | with a template without a dollar sign only the first match goes |
| `StringReplace.ReplaceNothing` | crates/thaw-arena/src/strings.rs:495-545 | without a match the value comes back |
| `StringReplace.PositionsCover` | crates/thaw-arena/src/strings.rs:497-541 | no match is missed: each overlaps a position, and an empty pattern matches at every index |
| `StringReplace.Replace` | crates/thaw-arena/src/strings.rs:495-543 | terminates and equals the two-stage definition of ECMA-262, for single and all modes and an empty search string |
| `StringAppend.StringVariable.constructor` | crates/thaw-arena/src/strings.rs:226-231 | at loop entry nothing is owned |
| `StringAppend.StringVariable.Append` | crates/thaw-arena/src/strings.rs:235-295 | the variable then holds the concatenation, every string handed out keeps its text, and the copy is in place exactly when the buffer is owned, the operand clean and the room there; without memory nothing changes |
| `StringAppend.StringVariable.GrowInPlace` | crates/thaw-arena/src/strings.rs:246-260 | growing in place changes no string anyone else holds |
| `StringAppend.StringVariable.Move` | crates/thaw-arena/src/strings.rs:261-295 | a fresh buffer with spare room: none for texts with NUL, doubling for an owned one, a margin otherwise |
| `StringAppend.StringVariable.Read` | crates/thaw-arena/src/strings.rs:226-231 | a read gives up the right to grow in place |
| `StringAppend.MoveIsProportionate` | crates/thaw-arena/src/strings.rs:264-273 | doubling pays for the moves before it |
| `StringAppend.RunLoop` | crates/thaw-arena/src/strings.rs:226-295 | over every sequence of appends and reads, where an append may take what an earlier read of the same run handed out: the concatenation, every string handed out before or by a read during the run still has the text it had then, and at most 3.5 times the final length copied in read-free NUL-free runs |
| `Publication.Publisher.Publish` | crates/thaw-cli/src/build.rs:1371-1453 | under every pattern of failures: success installs program and sidecar state; failure with a clean rollback leaves both paths as they were; otherwise scratch is kept and each old artifact is at its path or in scratch; refused requests change nothing; without failures it succeeds; scratch is to be kept only if an operation after the first failed |
| `Publication.Publisher.MoveSidecar` | crates/thaw-cli/src/build.rs:1404-1440 | the old sidecar moves out and the new one in, or everything is put back as far as the file system lets it |
| `Publication.Publisher.Rollback` | crates/thaw-cli/src/build.rs:1456-1495 | restores what was saved; scratch is kept exactly if one of its operations failed |
| `Publication.Publisher.Drop` | crates/thaw-cli/src/build.rs:1348-1354 | scratch is gone unless it must be kept or its removal fails; public paths are untouched |
| `Publication.Publisher.Build` | crates/thaw-cli/src/build.rs:1302-1302 | the three outcomes hold after scratch is let go, and nothing of it is left unless it must be kept or its removal fails |

## Left out

- Layout and alignment, raw pointer reads and thread-local borrow conflicts in the arena; memory is a function from addresses to words, the bump allocator a contract. Tracing is assumed on before the first allocation in the run theorems.
- `CAPACITIES` and `allocation_span_identity` in the arena: a lookup table and a variant of the identity query that add only easy members.
- ArenaCost.MarkingIsAmortised: assumes that the sizes of surviving records sum to at most the counter's maximum, as the sum that the threshold is computed from does.
- ArenaInvariant.BaseKeeps: does not cover zero-size traced allocations, which are recorded with size 1 at a byte the bump did not hand out; see `ArenaRuns.AllocDisturbsOnlyItsBase` and `ArenaRuns.ZeroSizeTakesOver`.
- ArenaRuns.RunKeepsInvariant: does not cover zero-size traced allocations, for the same reason.
- ArenaRuns.ReachableSurvives: does not cover zero-size traced allocations, for which it is false.
- ArenaRuns.RunKeepsReachable: does not cover zero-size traced allocations, for which it is false.
- ArenaTiming.TraceConsistent: does not cover zero-size traced allocations, which may repeat a base among pending records.
- ArenaTiming.ResetCovers: does not cover hooks that allocate zero bytes, for the same reason.
- ArenaTiming.ThresholdsAgree: does not cover pending records that repeat a base, which only zero-size allocations cause.
- ArenaTiming.TimingShowsExactly: does not cover hooks that allocate zero bytes, for the same reason.
- Closures, function values, exceptions caught by `try`, generators, destructuring, spread and labelled jumps in the clone analysis. A named function passed to a pure method such as `forEach` receives the container as its third argument, which the analysis does not look at; function values are outside the subset.
- CloneTheorem.AnalysisIsSound: a helper that is given a container at one call and none at another is covered only in the activations that are given one; the check at clone.rs:1488-1501 skips such a helper too.
- CloneTheorem.AnalysisIsSound: an element update such as `q[i]++` or `q[i] += x` is a write, and the read inside it is not counted, as the visitor does not count it (clone.rs:617-638); it concerns arrays that are no containers, which cannot be updated at all.
- CloneCompleteness.BodyAccepted: the judgement also covers positions the visitor does not look at, so the visitor accepts more than is judged; how much more is what the discipline is about.
- Computed reads of records and of primitives: the analysis counts them as element reads, the semantics lets them answer any primitive. `delete` leaves a record that is no container as it is.
- Numbers in the clone semantics are reals with one NaN; strings and infinities are opaque values, and what is asked of the surroundings may answer anything that holds only references it was given.
- Resolution of a callee name to a function of the program, and the clone extraction around the check.
- `RenameReferences`, `CreatedRequireCallRewriter`, external packages, namespace and default specifiers, type-only re-export cycles, parsing and source transforms in the module graph; a bare specifier is skipped, an unreadable or unparsable file is an absent one, and the set of watched paths is not kept.
- ModuleExports.ExportTables: an imported name that is exported again is modelled as the re-export it abbreviates.
- ModuleBundle.BundleExports: re-exports that are only types are not static dependencies and are not modelled.
- The text of error messages; errors carry the cycle, path or item they are about.
- Wtf8.EncodeUtf16: code points are at most U+10FFFF, as all callers in the file guarantee.
- StringAppend.StringVariable.Append: the address of a fresh buffer is a parameter, assumed unused so far; clearing of recorded lengths at arena resets is not modelled.
- Owned strings, exception packets, graph wire transfers and case mapping of strings: tables around foreign calls.
- Publication.Publisher.Publish: file contents and link targets are identities, and other processes do not touch the paths involved; creation of the scratch directory is not modelled.
- stack_guard.rs, exception.rs, event_emitter_base.ts, linking, package management, the development server, internationalisation, the JIT and the bridge: input and output plumbing or thin layers over other libraries.
