# ApexCrew kernels in Dafny

ApexCrew is a durable coordinator for coding agents. This project models the parts of it on which safety rests
and proves what they promise. Each module names the source file it follows; loops and objects of the source are
methods and classes here, each proved against a function or a protocol whose own properties are then proved.

- **Plans.** `Globs`, `Graphs`, `Plans`: the path matcher, the syntactic inclusion and disjointness proofs, the
  hazard graph, the cycle check, and the theorem that joins them: two tasks of an accepted plan, with patterns
  that these proofs serve rightly, never share a path they may write.
- **Patches and granted actions.** `HunkHeaders`, `PatchLines`, `UnifiedDiff`, `PatchHunks`, `PatchReversal`,
  `PatchConservation`, `EmptyHunks`, `PatchExactness`: applying and reversing a unified diff, and exactly when the one
  undoes the other. `GrantedWorkspace`, `GrantedActions`: how a world is classified, what the four handlers do, and the journal
  protocol that delivers a grant across crashes.
- **Git's files.** `ByteStrings`, `GitConfig`, `GitConfigPrinting`, `GitVarints`, `GitIndex`, `GitIndexFormat`,
  `WorktreePorcelain`: parsers of bytes, each next to a writer; for the index and the worktree list the parser
  accepts exactly what the writer can produce.
- **Protocols.** `Reservations`: creating the worktree that reserves the target branch, with failures on either
  side of an effect. `PhaseLoop`, `RuntimeRecovery`, `RuntimeDelivery`: one delivery of a runtime permit against
  arbitrary ports. `ModelRetry`: reserve, call, settle and retry.
- **Budgets.** `Ledger`: conservation and prices. `Allowances`: a task's calls, its progress, and resuming.
- **Reading.** `Search`: scoped search and bounded output. `Handles`: the cache of no-follow handles.

`dafny verify dfyconfig.toml` checks everything.

## Where the code does not keep a promise

The model follows the code; where a promise fails, the failing input is a lemma and the exact condition a theorem.

- The design asks that disjointness be proved. `prove_disjoint` compares segments by position, so that `**/a` and
  `x/b/**` are called disjoint although both match `x/b/a`, and a plan may let two tasks write that path. A pattern is
  served rightly, among patterns that are, exactly if no literal segment follows a `**` in it ("anchored"); a `**` only
  at the end is a special case of that.
- A patch without empty hunks that applies to some text is undone by its reversal on every text exactly if its headers
  are consistent and no body line begins with `+++` or `---`. Consistent means that the new start of each hunk follows
  from its old start and the hunks before it, which the code does not check; the `+0,0` header of a patch that empties
  a file and the `-1,0 +2,1` header of an insertion without context are not consistent in this sense. An empty hunk
  changes no text, but its positions must be in order and within the text, so that its new start only has to lie in a
  window. The theorem covers every patch.
- Recovery takes a file for patched if reversal gives the recorded source. If any text can be reversed, that is right
  for all files exactly if the old positions fit in the same way and no body line begins with `+++` or `---`.
- An observation that is both pre-state and post-state, which is an executable bit that already has the wanted value,
  becomes UNAVAILABLE, and the grant ends INDETERMINATE. The effect of an executable-bit grant without a recorded mode
  is not recognised after a crash for the same reason.
- A stop that asks for an approval is never built, because its pending subject is never filled in; such a
  decision ends in the fault handler, as PAUSED or INDETERMINATE.
- The adapter counts reasoning tokens on top of output tokens. A provider whose output count already includes
  them may be charged above the maxima, and a rejected response of a model that was not allowed may be charged
  above the reservation.
- A resume after an approved higher budget looks only at the metrics that had run out when the task was paused.
- A task's 48 calls bound what it is granted exactly if the journal adds the calls of a resume to the allocated ones.
  Neither journal of the repository does: they store such a grant apart, so that a task may be granted 64 calls. The
  calls it makes come out of its tranches and stay within 48.

## Model

| member | source | states |
|---|---|---|
| Globs.SegmentMatchIsSplit | src/apexcrew/domain/plan.py:100-112 | one pattern segment matches a name exactly when the name splits into pieces taken by its characters, `*` taking any piece |
| Globs.MatchIsSplit | src/apexcrew/domain/plan.py:100-112 | the recursive matcher accepts exactly the paths that can be cut into one piece per pattern segment, `**` taking any number of segments |
| Globs.InclusionIsSound | src/apexcrew/domain/plan.py:124-135 | PROVEN inclusion: every path of the left pattern is a path of the right one, for all patterns |
| Globs.DisjointnessIsSound | src/apexcrew/domain/plan.py:138-150 | PROVEN disjointness is real when no literal segment stands after a `**` in either pattern |
| Globs.UnanchoredHasFalseProof | src/apexcrew/domain/plan.py:138-150 | every other pattern has an anchored partner that is wrongly called disjoint, with a common path |
| Globs.DisjointnessIsSoundExactlyWhenAnchored | src/apexcrew/domain/plan.py:138-154 | a pattern's disjointness proofs against anchored patterns are all real if and only if it is anchored itself |
| Globs.LiteralCalledDisjointFromItsOwnPattern | src/apexcrew/domain/plan.py:138-150 | the code's false proof on a literal: `x/b/a` matches `**/a` and is called disjoint from it |
| Graphs.AcyclicExactlyWithoutClosedWalk | src/apexcrew/domain/plan.py:247-263 | a topological rank exists exactly when no walk along the edges returns to its start |
| Graphs.RankOrStuck | src/apexcrew/domain/plan.py:247-263 | peeling nodes without predecessors ends with a rank or with a set in which every node has a predecessor |
| Graphs.StuckHasClosedWalk | src/apexcrew/domain/plan.py:247-263 | such a set contains a closed walk, so giving up on it is right |
| Plans.RejectCycle | src/apexcrew/domain/plan.py:247-263 | the loop terminates and rejects exactly unknown dependencies and graphs without a topological rank |
| Plans.FindScopeError | src/apexcrew/domain/plan.py:219-226 | the first task that fails coverage or lacks check inputs decides the error |
| Plans.CollectHazards | src/apexcrew/domain/plan.py:227-239 | the nested loops collect every ordered pair of tasks whose writes may overlap what the other observes |
| Plans.ValidatePlan | src/apexcrew/domain/plan.py:211-244 | the answer of validation: task set, order, scope, hazard order and cycle check, in this order, with the cycle check stated by its meaning |
| Plans.WritersObserve | src/apexcrew/domain/plan.py:219-224 | what a covered task may write it also observes |
| Plans.ConflictsAreOrdered | src/apexcrew/domain/plan.py:227-242 | in an accepted plan a task that may write, by an anchored pattern, what another observes by an anchored one is its hazard and is promoted before it, whatever else the plan contains |
| Plans.AcceptedWritesAreDisjoint | src/apexcrew/domain/plan.py:211-244 | no path is matched by write patterns of two tasks of an accepted plan whose own write and read patterns are anchored; dependency patterns, check inputs and other tasks may be anything |
| Plans.UnanchoredIsShared | src/apexcrew/domain/plan.py:211-244 | every other valid pattern is a write pattern in an accepted plan that shares one of its valid paths with another task |
| Plans.WritesAreDisjointExactlyWhenAnchored | src/apexcrew/domain/plan.py:211-244 | a valid pattern is anchored if and only if no accepted plan, the other write and read patterns of its two tasks being anchored, lets a second task write a path of it |
| Plans.UnanchoredPlanIsAcceptedWithSharedWrite | src/apexcrew/domain/plan.py:211-244 | without anchoring the guarantee fails: a concrete accepted plan whose two tasks may both write x/b/a |
| Plans.FromValidatedPlan | src/apexcrew/domain/coordination.py:180-249 | the proposal is refused for the first fault in the order of the code, or carries all dependency and hazard edges |
| Plans.PromotionOrderIsTopological | src/apexcrew/domain/coordination.py:239-249 | the order of an accepted proposal lists every task once and puts every dependency and hazard edge forward |
| HunkHeaders.ParsePrintedHeader | src/apexcrew/adapters/repository/granted_workspace.py:27 | a printed hunk header is read back as the same four numbers, whatever their length |
| PatchLines.ReversedLineFacts | src/apexcrew/adapters/repository/granted_workspace.py:185-202 | what reversal does to one line: a header is swapped and a body line flipped, except those that begin with `+++` or `---` |
| PatchLines.FileHeaderIsKept | src/apexcrew/adapters/repository/granted_workspace.py:197-201 | file header lines are left as they are |
| UnifiedDiff.ApplyBody | src/apexcrew/adapters/repository/granted_workspace.py:159-175 | the inner loop over a hunk body computes the functional reading of it: context checked, lines taken and given, both counts kept |
| UnifiedDiff.ApplyHunk | src/apexcrew/adapters/repository/granted_workspace.py:144-177 | one hunk: the header's target position is checked, the gap copied, the body run, both counts compared |
| UnifiedDiff.ApplyUnifiedDiff | src/apexcrew/adapters/repository/granted_workspace.py:129-181 | the cursor loop computes `Apply`, errors included |
| PatchHunks.BodyMeaning | src/apexcrew/adapters/repository/granted_workspace.py:159-175 | running a body succeeds exactly if the source starts with the old text of the body, and then gives its new text |
| PatchHunks.ApplyFromMeaning | src/apexcrew/adapters/repository/granted_workspace.py:138-178 | the running cursor agrees with the declarative rewriting of the remaining lines by the parsed hunks |
| PatchHunks.ApplyMeaning | src/apexcrew/adapters/repository/granted_workspace.py:129-181 | applying a patch is parsing it into hunks and replacing, at each hunk's place, its old text by its new text; it fails exactly if this does |
| PatchReversal.ReverseLines | src/apexcrew/adapters/repository/granted_workspace.py:185-202 | the loop over the patch lines computes the line-by-line reversal |
| PatchReversal.ReverseUnifiedDiff | src/apexcrew/adapters/repository/granted_workspace.py:184-203 | reversal is applying the reversed lines |
| PatchReversal.ReversedIsMirror | src/apexcrew/adapters/repository/granted_workspace.py:185-202 | the reversed patch has the same structure with headers swapped and body lines mirrored |
| PatchReversal.OppositeUndoes | src/apexcrew/adapters/repository/granted_workspace.py:129-181 | hunks with swapped texts and consistent positions undo each other, hunk by hunk, over any number of hunks |
| PatchReversal.ReversalIsInverse | src/apexcrew/adapters/repository/granted_workspace.py:129-203 | for every patch with consistent headers and no body line beginning `+++` or `---`, and all texts: the patch turns one into the other if and only if the reversed patch turns the other into the one |
| PatchConservation.LinesAreConserved | src/apexcrew/adapters/repository/granted_workspace.py:138-180 | of every line text, the result has as many as the source, less those in the hunks' old texts, plus those in the new ones |
| EmptyHunks.AppliedWithoutEmptyHunks | src/apexcrew/adapters/repository/granted_workspace.py:138-178 | hunks apply exactly if they are in order, the text reaches to the last of them, and those that change something apply; and these alone make the result |
| PatchExactness.AppliesSomewhereExactly | src/apexcrew/adapters/repository/granted_workspace.py:138-178 | there is a text that a patch applies to if and only if it is well formed and its hunks are in order |
| PatchExactness.UndoneMeansFlippable | src/apexcrew/adapters/repository/granted_workspace.py:184-203 | a patch undone on one text it applies to has no body line beginning `+++` or `---` |
| PatchExactness.UndoneEverywhereExactly | src/apexcrew/adapters/repository/granted_workspace.py:129-203 | for every patch: it is undone on every text it applies to if and only if it applies to none, or no body line begins `+++` or `---`, the new starts of the hunks that change something follow from the old ones, and those of empty hunks stay in order and within the shortest result |
| PatchExactness.RedoneEverywhereExactly | src/apexcrew/adapters/repository/granted_workspace.py:129-203 | for every patch: it changes back whatever its reversal yields if and only if nothing can be reversed, or the same holds with old and new positions exchanged |
| PatchExactness.InverseExactly | src/apexcrew/adapters/repository/granted_workspace.py:129-203 | applying and reversing are inverse on all texts exactly for the patches that satisfy both |
| PatchExactness.FittingIsConsistent | src/apexcrew/adapters/repository/granted_workspace.py:148-155 | without empty hunks these conditions are that the headers are consistent |
| PatchExactness.EmptyHunkIsUndoneExactly | src/apexcrew/adapters/repository/granted_workspace.py:148-155 | a patch of one empty hunk needs the lines before its old start, and is undone everywhere exactly if its new start is not beyond the old one, consistent or not |
| PatchExactness.ZeroContextInsertionIsMisread | src/apexcrew/adapters/repository/granted_workspace.py:148-155 | a failing input: the header `-1,0 +2,1` of an insertion after the first line inserts before it, and its reversal undoes the insertion that was meant |
| PatchExactness.DashedExample | src/apexcrew/adapters/repository/granted_workspace.py:197-200 | a failing input: `--x` replaced by `++y` |
| PatchExactness.EmptyingAFileIsNotUndone | src/apexcrew/adapters/repository/granted_workspace.py:148-155 | a standard `-1,1 +0,0` patch that empties a file applies, and its reversal fails |
| PatchExactness.ReplacingDashedLineIsNotUndone | src/apexcrew/adapters/repository/granted_workspace.py:197-200 | replacing a line that begins with `--` applies and is not undone |
| GrantedWorkspace.ObserveWorld | src/apexcrew/adapters/repository/granted_workspace.py:226-321 | the branch-by-branch flags give exactly the classification by pre-state and post-state, a world that is both being unavailable |
| GrantedWorkspace.EffectIsIntended | src/apexcrew/adapters/repository/granted_workspace.py:323-540 | a handler that takes effect reaches the granted state, for all four operations |
| GrantedWorkspace.PostVerdictIsIntended | src/apexcrew/adapters/repository/granted_workspace.py:250-302 | EXACT_POST means that the granted state holds; for a patch that changes back what its reversal yields, that the file is exactly the patched source |
| GrantedWorkspace.PostVerdictsAreRightExactly | src/apexcrew/adapters/repository/granted_workspace.py:250-302 | the EXACT_POST verdicts on an action are right for all pre-states and worlds if and only if it is no patch, or a patch that changes back whatever its reversal yields |
| GrantedWorkspace.UnflippedVerdictIsWrong | src/apexcrew/adapters/repository/granted_workspace.py:284-302 | on a patch with a body line beginning `+++` or `---` an EXACT_POST verdict is always wrong |
| GrantedWorkspace.MisreadInsertionIsExactPost | src/apexcrew/adapters/repository/granted_workspace.py:284-302 | a failing input: the zero-context insertion, EXACT_POST in a world that its handler would not have made |
| GrantedWorkspace.UnavailableExactly | src/apexcrew/domain/tools.py:400-404 | an observation is UNAVAILABLE exactly for executable bits that already have the granted value in the pre-state |
| GrantedWorkspace.ChangeIsFinal | src/apexcrew/adapters/repository/granted_workspace.py:323-540 | after a handler changed anything, no handler of the same grant changes anything again |
| GrantedWorkspace.ChangeLeavesPre | src/apexcrew/adapters/repository/granted_workspace.py:226-321 | after a handler changed anything, its world is not EXACT_PRE |
| GrantedWorkspace.EffectIsRecognisedExactly | src/apexcrew/adapters/repository/granted_workspace.py:226-321 | recovery recognises a handler's effect exactly unless it is an executable bit without a recorded mode, or a patch that changes nothing |
| GrantedWorkspace.EffectFromPre | src/apexcrew/adapters/repository/granted_workspace.py:323-540 | from a pre-state only a patch that does not apply keeps a handler from taking effect |
| GrantedActions.DispatchIsJournaledFirst | src/apexcrew/application/runtime.py:314-324 | in every run the handler is entered only under a journaled dispatch |
| GrantedActions.ClosedIntentStaysClosed | src/apexcrew/application/runtime.py:287-354 | a settled or indeterminate intent never changes again, and no delivery of it takes a step |
| GrantedActions.AtMostOneChange | src/apexcrew/application/runtime.py:287-354 | over every interleaving of deliveries, crashes and interference that does not restore the pre-state, the handler changes the world at most once |
| GrantedActions.OverlappingHandlersChangeOnce | src/apexcrew/application/runtime.py:325-331 | the same however deliveries overlap and whatever they have observed, unless somebody else makes the world changeable again |
| GrantedActions.SettledIsIntended | src/apexcrew/application/runtime.py:287-354 | a success settlement implies the granted state, then and for the rest of the run |
| GrantedActions.SettlementsAreTrueExactly | src/apexcrew/application/runtime.py:287-354 | success settlements of an action are true in all runs in which nobody undoes it if and only if it is no patch, or a patch that changes back whatever its reversal yields |
| GrantedActions.FaultFreeSettlesExactly | src/apexcrew/application/runtime.py:287-354 | which worlds a fault-free delivery settles: post, or pre unless the bits have their value already or the patch does not apply; every other one ends INDETERMINATE, untouched |
| GrantedActions.NoOpGrantEndsIndeterminate | src/apexcrew/application/runtime.py:300-312 | a failing input: an executable file that is granted its executable bits |
| GrantedActions.SettledOnceExactly | src/apexcrew/application/runtime.py:287-354 | undisturbed, a settled intent changed the world exactly once, into the handler's effect on the first world |
| GrantedActions.FaultFreeIsRun | src/apexcrew/application/runtime.py:287-354 | the fault-free delivery is a run of the protocol |
| GrantedActions.CrashedChangeIsSettledExactly | src/apexcrew/application/runtime.py:287-339 | after a crash behind the change the next delivery settles it without touching the world, unless the change is one that recovery cannot recognise |
| GrantedActions.GrantedActionRuntime.ExecuteGranted | src/apexcrew/adapters/repository/granted_workspace.py:323-540 | the handler call succeeds with its effect, or is uncertain with the effect or without it |
| GrantedActions.GrantedActionRuntime.Dispatch | src/apexcrew/application/runtime.py:313-339 | from an observed pre-state: dispatch journaled, handler entered, intent closed, each a step of the protocol |
| GrantedActions.GrantedActionRuntime.Execute | src/apexcrew/application/runtime.py:287-354 | one delivery is a run of the protocol whatever fails, its decision tells the new journal state both ways, it dies only in one of the steps where it may, and without faults it reaches the fault-free outcome |
| GitConfig.FindWithoutComment | src/apexcrew/adapters/repository/git.py:395-407 | the loop cuts a line at the first `#` or `;` outside quotes |
| GitConfig.JoinLines | src/apexcrew/adapters/repository/git.py:415-438 | physical lines are joined at backslashes and bounded, as the function of the unread lines says |
| GitConfig.ReadQuoted | src/apexcrew/adapters/repository/git.py:451-470 | quoted text with escapes is read up to its closing quote, or refused |
| GitConfig.ReadSectionHeader | src/apexcrew/adapters/repository/git.py:473-497 | a header line gives its lower-cased section and unescaped subsection, or is refused |
| GitConfig.ReadConfigValue | src/apexcrew/adapters/repository/git.py:500-521 | a value's quoting and escapes are resolved, blanks outside quotes stripped |
| GitConfig.ReadEntries | src/apexcrew/adapters/repository/git.py:529-545 | the loop over logical lines gives the entries under their sections, within the bound |
| GitConfig.ReadGitConfig | src/apexcrew/adapters/repository/git.py:524-546 | the whole parser equals its specification on all byte strings |
| GitConfigPrinting.QuotedBodyEscaped | src/apexcrew/adapters/repository/git.py:451-470 | escaping and unescaping quoted text is the identity and stops at the closing quote |
| GitConfigPrinting.HeaderMeaning | src/apexcrew/adapters/repository/git.py:473-497 | a printed header line, comment included, opens the section and subsection it was printed from |
| GitConfigPrinting.KeyMeaning | src/apexcrew/adapters/repository/git.py:500-545 | a printed key line, in pieces or without a value, sets the entry it was printed from |
| GitConfigPrinting.PiecesJoin | src/apexcrew/adapters/repository/git.py:415-438 | an entry printed over several physical lines is joined into one logical line |
| GitConfigPrinting.ParsePrinted | src/apexcrew/adapters/repository/git.py:395-546 | printing any list of entries within the limits, in any layout (continued values, comments, omitted values, indentation, either line ending), and parsing it gives the list back |
| GitConfigPrinting.ParsedIsPrintable | src/apexcrew/adapters/repository/git.py:395-546 | conversely, the entries of every accepted file are printable and not too many; if the printed lines and file are not too long, reading them gives the same entries again |
| GitVarints.ReadStripCount | src/apexcrew/adapters/repository/git.py:633-644 | the cursor loop computes the number at an offset and where it ends, without reading outside the bytes |
| GitVarints.StripCountInvertsEncoding | src/apexcrew/adapters/repository/git.py:633-644 | the reader returns a number and a length if and only if these bytes are the number's encoding and its part above seven bits is within the limit |
| GitVarints.EncodingIsPrefixFree | src/apexcrew/adapters/repository/git.py:633-644 | each number has one encoding and none begins another |
| GitIndex.ReadPackedName | src/apexcrew/adapters/repository/git.py:676-682 | a version 4 name is the shared prefix of the previous path and the bytes up to a NUL |
| GitIndex.ReadPlainName | src/apexcrew/adapters/repository/git.py:683-695 | a version 2 or 3 name ends at a NUL, has its declared length, and is padded from the start of its entry |
| GitIndex.ReadEntry | src/apexcrew/adapters/repository/git.py:664-701 | one entry: header, extended flags, name, path and mode checks, in this order |
| GitIndex.ReadEntries | src/apexcrew/adapters/repository/git.py:662-702 | the loop over the entries reads the whole list and ends where it ends |
| GitIndex.ReadExtensions | src/apexcrew/adapters/repository/git.py:703-717 | the loop over extensions finds the first that does not add up or must be understood |
| GitIndex.ValidateGitIndex | src/apexcrew/adapters/repository/git.py:647-717 | the validator equals its specification on all byte strings |
| GitIndexFormat.WrittenIndexIsRead | src/apexcrew/adapters/repository/git.py:647-717 | every index that a writer of entries and extensions can produce is accepted, and the paths visited are those written |
| GitIndexFormat.AcceptedIndexIsWritten | src/apexcrew/adapters/repository/git.py:647-717 | every accepted byte string is such an index, entry for entry and extension for extension |
| GitIndexFormat.PlainRecordsAreAligned | src/apexcrew/adapters/repository/git.py:690-695 | in versions 2 and 3 every entry takes a multiple of eight bytes from its start |
| GitIndexFormat.AllPackedAreAcceptable | src/apexcrew/adapters/repository/git.py:676-682 | a writer that shares each longest common prefix makes acceptable entries that stand for its paths |
| GitIndexFormat.PrefixSharingRoundTrip | src/apexcrew/adapters/repository/git.py:647-717 | the output of that version 4 writer is accepted and reconstructs exactly the written list of paths |
| WorktreePorcelain.ParseWorktreePorcelain | src/apexcrew/adapters/repository/git.py:310-367 | the loops over records and fields compute the specification on all byte strings |
| WorktreePorcelain.PrintedIsParsed | src/apexcrew/adapters/repository/git.py:310-367 | records written with their fields in any order are read as those records |
| WorktreePorcelain.ParsedIsPrinted | src/apexcrew/adapters/repository/git.py:310-367 | everything accepted is written that way |
| Reservations.ClassifyMeaning | src/apexcrew/domain/effects.py:135-155 | which worktrees lead to an add, a lock or success: an absent one, exactly the registered unlocked one, exactly the locked one |
| Reservations.RunIsSound | src/apexcrew/domain/admission.py:460-499 | in every run an operation is under way only for a recorded intent, and an outcome is the one that its last observation has |
| Reservations.OnceEachPerDelivery | src/apexcrew/domain/admission.py:462-477 | whatever fails and whoever meddles, each delivery asks for an add and for a lock at most once |
| Reservations.OnceEachForever | src/apexcrew/domain/admission.py:450-499 | undisturbed, over any number of deliveries, failures and crashes, the worktree is added and locked at most once each, and a journaled success means that it is locked |
| Reservations.SuccessWasReal | src/apexcrew/domain/admission.py:478-499 | even with interference, success is journaled only if the worktree was registered and locked at some moment |
| Reservations.IndeterminateIsClosed | src/apexcrew/domain/admission.py:592-661 | once the journal is indeterminate nothing is asked of Git again |
| Reservations.RecoversUnlessClosed | src/apexcrew/domain/admission.py:592-661 | after any faults and crashes that left the intent open, one good delivery ends with a locked worktree and a journaled success |
| Reservations.ContinuesMeansLocked | src/apexcrew/domain/admission.py:608-661 | a good delivery reports success exactly when it leaves a locked worktree and a journaled success |
| Reservations.TargetReservationService.TryCreation | src/apexcrew/domain/admission.py:460-477 | observe, add, observe, lock, observe, each only on the observation that asks for it, as steps of the protocol; every call but the last has returned, and the last one's fault or reply decides between death, effect error and outcome |
| Reservations.TargetReservationService.ExecuteCreation | src/apexcrew/domain/admission.py:450-499 | an effect error is followed by one more observation; the outcome is that of the last observation, blind only if that was, or failed after a failure; it dies exactly with the process; without faults absent, registered and locked worktrees all end locked |
| Reservations.TargetReservationService.InitializeTargetReservation | src/apexcrew/domain/admission.py:592-661 | one delivery, with faults and death anywhere, is a run of the protocol; its decision tells the journal it leaves, and it dies exactly with the process or on an effect error of the first observation; without faults it has the outcome of `Delivered`, and reports success exactly then |
| PhaseLoop.AwaitingFallsIntoFault | src/apexcrew/domain/commands.py:361-379 | so a trace that asks to await an approval ends in the fault handler, and the others end in the stop they ask for |
| PhaseLoop.DriverCallsAreSeparated | src/apexcrew/application/runtime.py:716-783 | any two driver calls of a delivery are separated by a boundary that goes on, a clear post-barrier check and another boundary, in this order |
| PhaseLoop.OnlyPermittedDrivers | src/apexcrew/application/runtime.py:738-773 | a driver is called only in the permit's state, or in its licensed successor after the transition was reported; terminal administration drives nothing |
| PhaseLoop.AllowedStateHasDriver | src/apexcrew/application/runtime.py:774-775 | an allowed state always has a driver, so that the TERMINAL fall-through is unreachable |
| PhaseLoop.TerminalWasStated | src/apexcrew/application/runtime.py:522-541 | a TERMINAL stop was stated by pending controls or by a driver |
| RuntimeRecovery.OneRecoveryDriver | src/apexcrew/application/runtime.py:620-714 | at most one recovery driver answers, and none has when one is due |
| RuntimeRecovery.LoopComesAfterRecovery | src/apexcrew/application/runtime.py:620-714 | the loop is entered only on a draft, after all four searches found nothing, or after the one recovery driver went on |
| RuntimeRecovery.UnsequencedDoesNotGoOn | src/apexcrew/application/runtime.py:680-696 | never after a granted action without a sequence |
| RuntimeRecovery.UnsequencedIsInterrupted | src/apexcrew/application/runtime.py:680-691 | a granted action without a sequence ends INTERRUPTED, even if the run time is used up |
| RuntimeDelivery.RuntimeService.PassGate | src/apexcrew/application/runtime.py:721-753 | the checks before a driver call leave exactly their three events, or end the delivery as the trace asks |
| RuntimeDelivery.RuntimeService.DriveTurn | src/apexcrew/application/runtime.py:754-783 | a driver call, the boundary and the decision: the turn goes on, or the delivery ends as the trace asks |
| RuntimeDelivery.RuntimeService.DrivePermittedPhase | src/apexcrew/application/runtime.py:716-783 | against arbitrary ports that may raise, and death at any call: the trace is what the ports that were due replied, moment by moment, the ending is the one it asks for, faults are real and in the phase of the last call, and the process dies only at the end of its life |
| RuntimeDelivery.RuntimeService.SettleRecovery | src/apexcrew/application/runtime.py:680-714 | after a recovery driver: a used-up run time stops unless a granted action has no sequence; such an action is interrupted in any case; then the decision counts |
| RuntimeDelivery.RuntimeService.RunConsumedPermit | src/apexcrew/application/runtime.py:620-714 | the log is what the calls that were due replied, and the delivery ends in the failure of the next one, in the stop that the log asks for, or as the loop ends, which is entered exactly when recovery is done |
| RuntimeDelivery.RuntimeService.RunUntilBlocked | src/apexcrew/application/runtime.py:573-609 | without ownership or a permit nothing is driven; otherwise the reason is that of the stop concluded with, or after a fault INDETERMINATE or PAUSED as the barrier is; none only if the process dies or a port raises outside the handler |
| RuntimeDelivery.NoStopAwaits | src/apexcrew/application/runtime.py:535-541 | no delivery concludes with a stop that awaits an approval |
| Ledger.ChargeMeaning | src/apexcrew/domain/model.py:435-556 | for every provider outcome: the whole reservation without usage, otherwise one call and the reported tokens, at the reserved price on a mismatch; completed exactly for the requested and an allowed model |
| Ledger.CountersAreConserved | src/apexcrew/domain/model.py:226-241 | over any history the counters are the charges of closed attempts plus the reservations of open ones |
| Ledger.TotalAfterSettlement | src/apexcrew/domain/model.py:235-241 | settling one attempt anywhere in the journal moves the total by its charge less its reservation |
| Ledger.HonestCountersStayInRange | src/apexcrew/domain/model.py:226-241 | with honest settlements no counter is below zero or above what was ever reserved |
| Ledger.HonestHistoryKeepsCeilings | src/apexcrew/domain/model.py:226-241 | with honest settlements no counter passes the ceiling that reservations are checked against, in any order of operations |
| Ledger.ModelJournal.Reserve | src/apexcrew/domain/model.py:226-233 | reserving adds an open attempt and its amounts, within the ceilings |
| Ledger.ModelJournal.Settle | src/apexcrew/domain/model.py:235-241 | an attempt is settled once, and only with a well-formed result |
| Ledger.ModelReservationAmounts | src/apexcrew/domain/authority.py:628-648 | the reserved price is the greatest over the allowed models, and it is refused exactly for no models or a missing price |
| Ledger.HonestUsageFits | src/apexcrew/domain/authority.py:628-648 | an allowed model's usage within the maxima is charged no more than was reserved, in every component |
| Ledger.CoveredExactly | src/apexcrew/adapters/model/deepseek_responses.py:119-145 | what the adapter reports is covered by the reservation for every price table if and only if it is an allowed model's usage within the maxima, reasoning counted on top, or a foreign model's usage of nothing |
| Ledger.ReasoningIsCountedTwice | src/apexcrew/adapters/model/deepseek_responses.py:133-145 | a failing input: ten output tokens, one of them for reasoning, are charged as eleven |
| Ledger.ForeignRejectionIsChargedMore | src/apexcrew/adapters/model/deepseek_responses.py:216-235 | a failing input: a malformed answer of a dearer model that was not allowed is charged more than was reserved |
| Ledger.CompletionIsHonest | src/apexcrew/domain/model.py:435-505 | a completion is settled within its reservation even when its model does not match |
| ModelRetry.EventsAreInPlace | src/apexcrew/domain/coordination.py:856-932 | every event of a run stands at its place: six to an attempt, numbered consecutively |
| ModelRetry.AtMostThreeAttempts | src/apexcrew/domain/coordination.py:861-932 | attempts are numbered from one, there are at most three, and every run ends |
| ModelRetry.OneBarrierAtATime | src/apexcrew/domain/coordination.py:862-910 | at most one barrier is open, and none at the end |
| ModelRetry.CallsAreCovered | src/apexcrew/domain/coordination.py:872-902 | the provider is called only for a granted reservation within the barrier opened for it |
| ModelRetry.WaitsAreBounded | src/apexcrew/domain/coordination.py:915-922 | all backoff together is at most three seconds |
| ModelRetry.AuthorityModelClient.TryAttempt | src/apexcrew/domain/coordination.py:863-910 | one attempt: barrier, reservation, call, settlement and barrier end, the ledger staying balanced; refused only without the authority or room, broken exactly if a port raised or the answer cannot be settled |
| ModelRetry.AuthorityModelClient.Complete | src/apexcrew/domain/coordination.py:856-932 | it raises if and only if a port raised or an answer cannot be settled; otherwise the reply is the settlement of the last attempt's answer or its refusal, every attempt is closed, every barrier settled, and no retry is due; at most eighteen port calls, and the closing assertion is never reached |
| Allowances.ProgressChainsEnd | src/apexcrew/domain/authority.py:1149-1165 | a chain of progress verdicts in one lifecycle state over a set of checks has at most twice as many steps as there are checks |
| Allowances.LongestProgressChain | src/apexcrew/domain/authority.py:1149-1165 | the bound is met for every set of checks |
| Allowances.AssessCapacity | src/apexcrew/domain/authority.py:1660-1687 | the loop lists exactly the metrics without room in their order, fixed maxima before revision ceilings, and reports capacity exactly when there is room everywhere |
| Allowances.ResumeDenial | src/apexcrew/domain/authority.py:1789-1850 | a paused task may be resumed exactly under the stated condition, and which cap is named |
| Allowances.ResumedHasCapacityExactly | src/apexcrew/domain/authority.py:1690-1706 | a resumed task has room in every metric if and only if no metric other than those that ran out at the pause is at its ceiling |
| Allowances.ResumedWithoutCapacity | src/apexcrew/domain/authority.py:1690-1706 | it need not have: a concrete resume while another metric is at its ceiling |
| Allowances.AllowanceIsBounded | src/apexcrew/domain/authority.py:2266-2298 | over any tranches and resumes of a fresh task, in grants of eight, at most two bootstraps and two resumes: at most 48 calls in six grants if the journal counts resumed calls, at most 64 in eight if it does not |
| Allowances.SixtyFourCallsAreGranted | src/apexcrew/adapters/state/memory.py:1724-1743 | a failing input: with a journal that does not count resumed calls, as both journals of the repository, five used tranches, two resumes and a sixth tranche grant 64 calls |
| Allowances.CeilingHoldsExactly | src/apexcrew/domain/authority.py:1745-1787 | the ceiling of 48 bounds what is granted, over every life, if and only if the journal counts resumed calls |
| Allowances.CallsMadeAreBounded | src/apexcrew/adapters/state/memory.py:3937-3948 | the calls that are made stay within 48 with either journal, because they come out of the active tranche |
| Allowances.GrantsAreEarned | src/apexcrew/domain/authority.py:2266-2298 | over a whole life every grant but two bootstraps and two resumes is matched by a tranche asked for with progress; without any at most 32 calls are granted; with either journal |
| Allowances.TaskAuthorityService.AllocateTranche | src/apexcrew/domain/authority.py:2266-2298 | the tranche given and the new counters |
| Allowances.TaskAuthorityService.ResumeTask | src/apexcrew/domain/authority.py:1745-1787 | a resume is accepted exactly under that condition and grants at least one call; whether the allocated calls grow by them is up to the journal |
| Search.VisitedAreLeftmost | src/apexcrew/domain/tools.py:992-1003 | repeated searching visits non-overlapping occurrences that every other occurrence overlaps from the left |
| Search.LeftmostIsUnique | src/apexcrew/domain/tools.py:992-1003 | and there is only one such list |
| Search.SearchFile | src/apexcrew/domain/tools.py:991-1003 | matches of one file are added as far as both limits allow, and no further than they must |
| Search.Scan | src/apexcrew/domain/tools.py:970-1005 | in scan order the answer is everything, or the longest beginning of it within both limits; a fault counts only if everything before it fits |
| Search.AnswerIsUnique | src/apexcrew/domain/tools.py:958-1017 | that determines the answer |
| Search.MatchesAreReadable | src/apexcrew/domain/tools.py:813-820 | a reported match is an occurrence in an allowed file of the snapshot whose path is matched by a read pattern |
| Search.SearchSnapshot | src/apexcrew/domain/tools.py:958-1017 | scope, policy and snapshot are checked in this order; then the scan; every reported path is readable |
| Search.BoundedChunks | src/apexcrew/domain/tools.py:185-203 | the captured output is the beginning of the joined chunks, however they are cut, and truncation is reported exactly |
| Search.CaptureOutput | src/apexcrew/domain/tools.py:242-246 | standard output and error together are cut like one stream |
| Handles.PrefixIsCached | src/apexcrew/adapters/repository/no_follow.py:44-139 | every ancestor of a cached name is cached |
| Handles.StableHandleTree.Walk | src/apexcrew/adapters/repository/no_follow.py:54-104 | opening keeps the cache prefix-closed, drops and replaces nothing, adds only prefixes of the path, and owns what it opened even when the kind is wrong; it fails only for a malformed path, a call that raised, or a node of the wrong kind on the way |
| Handles.StableHandleTree.Open | src/apexcrew/adapters/repository/no_follow.py:54-69 | an opened node has its kind, and every name before it is a directory |
| Handles.StableHandleTree.TryOpen | src/apexcrew/adapters/repository/no_follow.py:71-88 | the same, a missing child being no error |
| Handles.StableHandleTree.TryOpenAny | src/apexcrew/adapters/repository/no_follow.py:90-104 | of whatever kind |
| Handles.StableHandleTree.ProbeNames | src/apexcrew/adapters/repository/no_follow.py:119-131 | the parent's probe is always there; every name is probed from it |
| Handles.StableHandleTree.AssertNameBindings | src/apexcrew/adapters/repository/no_follow.py:112-134 | success means that every cached name, opened anew from the root down, has the cached identity; it fails only if a call did not open what it was asked for or found another identity; either way each probe is closed once and nothing else |
| Handles.StableHandleTree.Close | src/apexcrew/adapters/repository/no_follow.py:136-139 | each owned handle is released once, and no other |

## Left out

- Paths and patterns: parsing, Unicode normalisation and case folding (case folding is that of ASCII here), and
  the decision which protected names may be touched.
- Texts are sequences of lines: decoding, splitting and joining them is not modelled; `\d` in a hunk header is
  an ASCII digit.
- SHA-256, JSON and the confirmation codes: a digest stands for its content; a checksum function, the test for a
  canonical path and the test for valid UTF-8 are parameters.
- Decimals are exact; the 28-digit context of Python's decimal module is not modelled.
- The state stores: only the protocol the services rely on is stated, with reservations checked against ceilings
  and settled once. Compare-and-set on audit sequences is not modelled, because one delivery owns a run at a time.
- GrantedActions.GrantedActionRuntime.ExecuteGranted: checks the pre-state and changes the world in one step; the
  temporary files and re-checks inside a handler are not modelled.
- GrantedActions: the bindings of permit, run and intent, which are compared field by field before anything else.
- GitConfig: the denial of unsafe keys after parsing, a list of names.
- GitIndex: hashing; and splitting a file into payload and checksum by digest name.
- Reservations.TargetReservationService.InitializeTargetReservation: the binding checks of permit and owner; an
  effect error of the first observation counts as the death of the delivery, because nothing catches it there.
- RuntimeDelivery.RuntimeService.RunUntilBlocked: offers a reason to the store; what the store makes of it, and the
  digests that bind a recovered turn, are not modelled.
- Ledger: task counters and the global usage table beside the run counters.
- ModelRetry.AuthorityModelClient.Complete: deadlines, identifiers and the refreshed counter snapshots of a retry;
  the client without barriers (src/apexcrew/domain/model.py) has the same loop.
- Allowances.TaskAuthorityService.ResumeTask: the digests that make a request stale.
- Search.SearchSnapshot: the final sort of the matches and the fingerprint of the files read.
- Handles.StableHandleTree.ProbeNames: probes equally long names in any order; the source sorts them.
- Closing a handle never fails here.
- Subprocesses, the network, the keyring, the command line, the web service and its interface.
- Freshness, candidates, cleanup, retention and leases.
