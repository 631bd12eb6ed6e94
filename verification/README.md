# Rotaris: configuration and tool gate, modelled and proved

A Dafny model of the parts of `packages/config` and `packages/agent-tools` where one algorithm must agree with another, or
where state moves through many interleaved steps, and proofs of what those parts promise. `dafny verify dfyconfig.toml`
checks everything.

| file | what it models |
|---|---|
| `Wrappers.dfy` | the option datatype and a fact about finite sets |
| `ConfigTree.dfy`, `Merge.dfy`, `Overlay.dfy` | documents as trees, the merge of layers under their key classes, and the section overlay |
| `MergeLaws.dfy` | what the merge means, key by key, over one layer and over any fold, and the order of the keys |
| `OrderedOverlay.dfy`, `OrderedMerge.dfy` | the overlay and the merge over documents that keep key order |
| `OverlayMemory.dfy`, `MergeMemory.dfy` | the overlay and the merge over objects written in place |
| `Provenance.dfy` | the search that tells, after the fact, which file a merged value came from |
| `SavedRead.dfy` | the fingerprint-checked cache in front of a load that discovers its own inputs |
| `Approvals.dfy`, `GateProtocol.dfy`, `GateSafety.dfy` | the wait registry; the gate and its broker as interleaved steps; what every run keeps |
| `GateHistory.dfy`, `GateRefines.dfy` | what a run comes to, told from its actions alone; that every interleaving arrives at it |
| `Policy.dfy`, `PolicyLaws.dfy` | the three built policies, evaluation by first match, session approvals; how they compare over a run |
| `PolicyTables.dfy` | the three modes as decision tables over a call; when a rule fires; which paths a call gives; what an approval covers |
| `Glob.dfy`, `Scanner.dfy` | the memoised token matchers; the command-line splitter, tokeniser, classifier and matchers |
| `HookPattern.dfy` | how a hook matcher reads a command line, and how far that agrees with the permission scanner |
| `ShellWords.dfy`, `ShellRules.dfy` | the words a line spells and that both tokenisers read them back; what the classifier and the matchers decide |
| `SchemaRewrite.dfy`, `SchemaMeaning.dfy`, `SchemaLaws.dfy` | dropping unreadable patterns from a JSON Schema; what a schema accepts; why the rewrite only widens |
| `SchemaPlaces.dfy` | what the rewrite removes, by keyword position, and what it leaves in its place |
| `Walks.dfy`, `Slots.dfy` | chains of names; slot substitution and reasoning copies |
| `Delegation.dfy` | the delegation-cycle search |
| `Instructions.dfy`, `InstructionLaws.dfy` | the byte-budgeted merge of instruction files; what is kept of each and said about it |

Loops and classes of the source are methods and classes here, each proved against a specification function or stated
outright; the laws are lemmas about those functions and about every run of the classes' steps.

## What the proofs show about the code

- Provenance: the file named is the last one that holds anything at the path, and it holds exactly the merged value, for any
  number of documents and for paths that go through list indices too.
- Saved reads: the answer served is what a fresh load would compute from each recorded file as it stood at its own stat. The
  assumption is that a changed file never shows an earlier non-null fingerprint again; it has to cover the `absent` print
  as well, since a file may be created and removed between two stats.
- Merge: run over objects in memory, the whole fold leaves every layer as it was and shares no object with any of them,
  even where a layer meets one object twice or two layers share some.
- Gate: what a run comes to is a function of its actions. `GateHistory.dfy` says it without any state: who can be asked, how
  each wait ends, what the broker answers, when the user is away, what each call logs. Every interleaving arrives there.
- Gate: "each opened record is settled exactly once" is false of the code. The ports asked ahead of the approval's wait and
  `hooks.preTool` and `hooks.postTool` are called outside any `try`, so one that throws leaves the record open for good
  (`HookThrowLeavesRecordOpen`). It holds exactly when no such port threw: then a call that is over has its record settled
  once, and before that not at all. What it is settled with is the executor's status, or failed for a malformed call and
  blocked for any other that did not run.
- Gate: a call whose wait was withdrawn is never run, but "never audited" is false (`WithdrawnCanBeAudited`). It is audited,
  as a denial, exactly when the broker failed it: its presenter threw, or replied outside a quit that it could not show the
  request, or threw as it was closed on the ended wait.
- Policies: `restricted` is at least as strict as `ask` for every call. `ask` is at least as strict as `autonomous` exactly
  when the fetch pair, which stands first in `ask` and is missing from `autonomous`, does not get ahead of a deny starter.
- Scanner: any list of words, each character bare, escaped or quoted either way, is read back as those words. The pipe
  matcher composes too, but for a seam that is itself a pipe into a shell.
- Scanner: pattern matchers fire on `a op b` exactly when they fire on `a` or on `b`. The escalation matcher does too except
  beside lines that split into blank parts only: such a line falls back to one segment holding the whole line, so
  `" "` does not escalate and `" ; "` does. `EscalationAgrees` is the exact condition.
- Hook matchers: on lines without a backslash they cut a line where the permission scanner does, except that `;;` is two
  separators to them with an empty segment between.
- Delegation: no message means no cycle, and no set of roles is reported twice. Every set of roles that forms a cycle is
  reported exactly when the joined keys tell those sets apart; a role name holding `|` can hide a cycle.
- Schema rewrite: the exclusion of `not`, `oneOf`, `if` and `maxContains` is needed, each by a concrete schema.
- Slots: an unset fallback leads where the small slot led. Where the small slot itself leads to the unset fallback the two
  close a circle, so a chain that ended in nothing is then reported as circular.

## Model

| member | source | states |
|---|---|---|
| OverlayLaws.OverlayAtPath | packages/config/src/merge.ts:47-59 | at every key path of any depth: a path the patch does not state keeps the target's value, a stated one takes the patch's, overlaid where both hold a mapping |
| OverlayLaws.OverlayIdempotent | packages/config/src/merge.ts:47-59 | overlaying one patch twice is overlaying it once |
| OverlayLaws.OverlaySelf | packages/config/src/merge.ts:47-59 | a document overlaid with itself is unchanged |
| Merge.OverlaySectionInto | packages/config/src/merge.ts:52-59 | the field-by-field recursive loop computes the section overlay |
| Merge.MergeNamedInto | packages/config/src/merge.ts:100-108 | the loop over a named key's entries overlays one level of fields onto inherited mappings and replaces the rest |
| Merge.MergeOneLayer | packages/config/src/merge.ts:91-126 | one layer's loop gives every key what its merge class says, and warns of exactly the unknown keys |
| Merge.MergeLayers | packages/config/src/merge.ts:87-129 | the fold over the layers in order, with each layer's warnings |
| Merge.MergeSnoc | packages/config/src/merge.ts:87-129 | merging one layer more is merging it onto the merge of those before it |
| MergeLaws.LayerLeaves | packages/config/src/merge.ts:93-124 | a layer leaves a key as it was when it says nothing of it: null for a replaced key or a section, no mapping for a named one, or a class no file may state |
| MergeLaws.LayerReplaces | packages/config/src/merge.ts:93-112 | a replaced key, and a section stated as no mapping, takes the layer's value whole |
| MergeLaws.LayerOverlays | packages/config/src/merge.ts:109-117 | at every key path of a section: a stated value is taken, a path stated away is gone, and any other stays as it was |
| MergeLaws.LayerNames | packages/config/src/merge.ts:97-108 | an entry onto an inherited mapping gives its immediate fields whole and inherits the rest; any other entry stands alone; entries not stated stay |
| MergeLaws.LayerWarns | packages/config/src/merge.ts:122-124 | exactly the unknown keys of the layer are warned of, under its source |
| MergeLaws.MergedIff | packages/config/src/merge.ts:87-129 | over any number of layers a key is merged exactly when some layer contributes to it, so computed, separate and unknown keys never are |
| MergeLaws.LastReplaces | packages/config/src/merge.ts:87-129 | over any number of layers a replaced key holds what the last layer to state it says |
| OrderedOverlay.OverlayKeepsOrder | packages/config/src/writers.ts:113-136 | the overlaid document keeps its own keys in place and gains the patch's new keys after them in the patch's order |
| OrderedOverlay.OverlayForgets | packages/config/src/writers.ts:113-136 | with the order forgotten, the overlay over ordered documents is the overlay over plain values |
| OrderedOverlay.OverlayWellFormed | packages/config/src/writers.ts:113-136 | no key is ever doubled, at any depth |
| OverlayMemory.Memory.Clone | packages/config/src/merge.ts:29-37 | the copy stands for the same document, is made of new objects only, and writes no object that was there |
| OverlayMemory.Memory.SetCopy | packages/config/src/merge.ts:57 | a copy of the patch's value set under its key: the mapping becomes the specified document out of its own and new objects |
| OverlayMemory.Memory.OverlayPair | packages/config/src/merge.ts:53-58 | one field set or overlaid in place: the mapping becomes the specified document out of its own and new objects, nothing else changes |
| OverlayMemory.Memory.OverlaySection | packages/config/src/merge.ts:52-59 | the in-place overlay: the target becomes the ordered overlay, the patch stands unchanged, and the two own no object in common |
| OverlayMemory.SharesNothing | packages/config/src/merge.ts:16-23 | any layer apart from the target before an overlay is unchanged by it and still shares no object with the target |
| OverlayMemory.BecameTwice | packages/config/src/merge.ts:52-59 | the frame composes: over a run of overlays only the target's own and new objects are ever written |
| MergeMemory.OverlayEntryInto | packages/config/src/merge.ts:65-67 | an entry's immediate fields set in place, each as a copy |
| MergeMemory.MergeEntries | packages/config/src/merge.ts:100-104 | the loop over a named key's entries, in place: fields onto inherited mappings, copies for the rest, in the layer's order |
| MergeMemory.MergeMapping | packages/config/src/merge.ts:99-114 | a mapping merged onto the one under the key, or onto a new one that is then set there: the merged value becomes the specified document out of its own and new objects |
| MergeMemory.MergeKeyInto | packages/config/src/merge.ts:92-125 | one key by its class, in place |
| MergeMemory.MergeLayerInto | packages/config/src/merge.ts:91-126 | one layer, key after key, and nothing written but the merged value |
| MergeMemory.MergeLayersInto | packages/config/src/merge.ts:87-129 | the whole fold: out comes the ordered merge of the layers, made of new objects only, and no object that was there is written |
| MergeMemory.LayersStand | packages/config/src/merge.ts:21-23 | so every layer still reads as the document it was and shares no object with the merged value |
| OrderedMerge.LayerForgets | packages/config/src/merge.ts:91-126 | with the order forgotten, one ordered layer is the layer over plain values, and no key is doubled |
| OrderedMerge.MergeForgets | packages/config/src/merge.ts:87-129 | and the ordered fold of any number of layers is the merge of the plain ones |
| MergeLaws.LayerKeepsOrder | packages/config/src/merge.ts:91-126 | a layer leaves the merged keys in place and those it adds follow in its own order |
| MergeLaws.NamesKeepOrder | packages/config/src/merge.ts:97-108 | so it is with the entries of a named key |
| MergeLaws.FieldsKeepOrder | packages/config/src/merge.ts:65-67 | and with the fields of an entry |
| Provenance.StatedPrefixLength | packages/config/src/load.ts:403-429 | the walk down one document gives how many steps of the path it can follow, and none when its top-level key is missing or null |
| Provenance.ReplacedPrefixLength | packages/config/src/load.ts:440-483 | the walk down both documents in step gives the prefix at which the later one takes over |
| Provenance.ReplacedMirrorsMerge | packages/config/src/load.ts:430-483 | a prefix answered means everything at and beneath it in `mergeLayers([below, doc])` is the document's; none answered means a merged value that is no mapping is the one below held |
| Provenance.ReplacedMirrorsLayer | packages/config/src/load.ts:430-483 | the same over an already merged value, and then the document itself holds nothing at the path |
| Provenance.SearchFollowsTheMerge | packages/config/src/load.ts:515-534 | at every iteration the search's running merge is the merge of the documents so far and its candidate is the last holder of the merged value |
| Provenance.StatingFileHoldsTheMergedValue | packages/config/src/load.ts:485-534 | for every run of documents and every path whose merged value is not a mapping, the named document holds exactly that value there and no later one holds anything |
| Provenance.NoFileMeansNoneStates | packages/config/src/load.ts:504-534 | no file is named exactly when no document states the path's top-level key |
| Provenance.DepthIs | packages/config/src/load.ts:403-429 | a document holds something at every prefix of the path up to its counted depth, and at no longer one |
| Provenance.NoLaterAsFar | packages/config/src/load.ts:504-534 | whatever is merged at the path, every document after the named one that states the top-level key follows the path less far than it |
| Provenance.RemergeIsOneLayer | packages/config/src/load.ts:523-531 | merging the running merge and the next document from nothing is merging that document onto it |
| Provenance.FindStatingFile | packages/config/src/load.ts:515-534 | the loop over the candidates, with both promises above |
| SavedRead.SavedConfigurations.constructor | packages/config/src/saved-read.ts:116-117 | nothing is kept at the start, and the invariant holds |
| SavedRead.SavedConfigurations.CheckFiles | packages/config/src/saved-read.ts:44 | true exactly when every recorded file shows its recorded print, each at its own stat |
| SavedRead.SavedConfigurations.StatFixedInputs | packages/config/src/saved-read.ts:50-51 | each fixed input's print is taken, at its own tick, before any read |
| SavedRead.SavedConfigurations.RunLoad | packages/config/src/saved-read.ts:52-61 | every path the load reads, fixed or discovered, has a print taken no later than its read, whatever writers do in between |
| SavedRead.SavedConfigurations.Recheck | packages/config/src/saved-read.ts:63-68 | steady exactly when every input has a trusted print and shows it again |
| SavedRead.SavedConfigurations.LoadAndKeep | packages/config/src/saved-read.ts:49-74 | an answer is kept exactly when the load answered and every input was steady: it is then last, after the earlier ones without the first exactly when there were sixteen; a loaded answer is answered with its own configuration and the time elapsed, a fatal one unchanged |
| SavedRead.SavedConfigurations.NothingChanged | packages/config/src/saved-read.ts:26-37 | so an answer is kept only when each input held one state at every tick from its print to its own second stat |
| SavedRead.SavedConfigurations.Keep | packages/config/src/saved-read.ts:69-72 | the answer becomes the last one, and of those before it the first goes exactly when there were sixteen |
| SavedRead.SavedConfigurations.KeptAnswer | packages/config/src/saved-read.ts:42-44 | an answer is served exactly when its environment and every print match, and then it is what a fresh load would compute from each file at its own stat |
| SavedRead.SavedConfigurations.ReadSavedConfiguration | packages/config/src/saved-read.ts:38-74 | hit and miss in full: the configuration answered is the entry's own, with the time elapsed, and a fatal report is answered unchanged; what is kept, in what order, when every input was looked at; and a hit equals a fresh load up to its load time |
| SavedRead.SteadyMeansUnchanged | packages/config/src/saved-read.ts:26-37 | an input steady around a load did not change at any tick in between |
| SavedRead.SteadyMeansJustified | packages/config/src/saved-read.ts:50-72 | so every read saw its recorded state: the kept answer is a run of the load on the recorded files |
| SavedRead.UnchangedMeansFresh | packages/config/src/saved-read.ts:26-47 | unchanged prints later mean a load of the files as they now stand, its own discovery included, gives the kept answer |
| SavedRead.WithoutKeepsTheRest | packages/config/src/saved-read.ts:45-49 | dropping a key's entry drops nothing else |
| SavedRead.WithoutCutsOut | packages/config/src/saved-read.ts:45-49 | a key's one entry is cut out and the order of the others kept |
| SavedRead.PrintMissing | packages/config/src/saved-read.ts:83-92 | a file has no print exactly when no stat answers for it or its modification time in decimal ends in six zeros |
| SavedRead.PrintTells | packages/config/src/saved-read.ts:83-92 | two prints are equal exactly when both files are absent or they agree in time, size, inode and kind |
| Approvals.PendingApprovals.constructor | packages/agent-tools/src/approvals.ts:53-58 | an empty registry meets the invariant |
| Approvals.PendingApprovals.Create | packages/agent-tools/src/approvals.ts:61-77 | an empty or already pending id is refused and changes nothing; otherwise one wait and, for a positive budget, one timer are added |
| Approvals.PendingApprovals.MarkShown | packages/agent-tools/src/approvals.ts:78-81 | the wait alone is marked |
| Approvals.PendingApprovals.Finish | packages/agent-tools/src/approvals.ts:82-97 | the wait is removed, its timer cancelled and its outcome settled; an unknown id has no effect and is reported |
| Approvals.PendingApprovals.FinishAll | packages/agent-tools/src/approvals.ts:98-109 | every pending wait settled with the outcome, in creation order, no timer left, and the count |
| Approvals.PendingApprovals.Fire | packages/agent-tools/src/approvals.ts:68-74 | a held expiry arms one timer again for the same wait; any other settles it timed out |
| Approvals.StepKeepsInv | packages/agent-tools/src/approvals.ts:53-128 | every call and every expiry keeps: distinct ids, live timers matching pending budgeted waits one to one, created equal to pending plus settled, no wait settled twice |
| Approvals.RunKeepsInv | packages/agent-tools/src/approvals.ts:53-128 | so does every sequence of them |
| Approvals.ExpireIsFinish | packages/agent-tools/src/approvals.ts:69-72 | an expiry that is not held does what `finish` would: the fired timer is the one it would cancel |
| Approvals.StepReaches | packages/agent-tools/src/approvals.ts:82-128 | an event settles exactly the waits it reaches, with its outcome, and leaves the others pending |
| Approvals.SettledByTheFirst | packages/agent-tools/src/approvals.ts:53-128 | over every run a wait is settled once, by the first outcome to reach it, or is still pending when none has |
| Approvals.EveryWaitAccountedFor | packages/agent-tools/src/approvals.ts:53-128 | every wait ever created is pending or settled, never both and never neither |
| Approvals.CreateSays | packages/agent-tools/src/approvals.ts:61-77 | an empty or pending id changes nothing; any other adds one unshown wait at the end, and for a positive budget one new timer of that budget |
| Approvals.ShownSays | packages/agent-tools/src/approvals.ts:78-81 | the wait of the id is shown, and every other is as it was |
| Approvals.FinishSays | packages/agent-tools/src/approvals.ts:82-127 | the one wait of the id is taken out of its place, the timer it held cancelled and its settlement recorded; an id not pending changes nothing |
| Approvals.FinishAllSays | packages/agent-tools/src/approvals.ts:98-109 | no wait and no timer is left, and the settlements follow in creation order |
| Approvals.ExpireSays | packages/agent-tools/src/approvals.ts:68-74 | outside a hold a wait ends timed out after its budget in seconds; held, only its timer is replaced by one of the same budget |
| GateSafety.NextSafe | packages/agent-tools/src/gate.ts:286-511 | every step of every call, timer, answer, mark and release keeps the invariant |
| GateSafety.EveryRunIsSafe | packages/agent-tools/src/gate.ts:286-677 | it holds after every interleaving from the start |
| GateSafety.SettledExactlyOnce | packages/agent-tools/src/gate.ts:314-322 | over every run an opened record is settled once exactly when its call is over and no port outside a `try` threw in the run, and otherwise not at all |
| GateSafety.ThrownFrom | packages/agent-tools/src/gate.ts:372-490 | a call ends unsettled by an exception exactly when one of its hooks, or of the ports asked ahead of its approval's wait, threw in the run |
| GateSafety.SettledAs | packages/agent-tools/src/gate.ts:318-508 | over every run a record is settled with its executor's status, or, with nothing executed, failed exactly when the call was malformed and else blocked; so ok only after a run, and blocked for a call denied, withdrawn or stopped by a hook |
| GateSafety.HookThrowLeavesRecordOpen | packages/agent-tools/src/gate.ts:458-463 | a concrete run whose hook throws: the call is over, and its record is never settled whatever follows |
| GateSafety.RunsOnlyAfterAuditedAllow | packages/agent-tools/src/gate.ts:441-478 | an executor runs at most once, directly after an audited allow |
| GateSafety.AskAllowedOnlyByAPerson | packages/agent-tools/src/gate.ts:541-660 | an ask is allowed only through a person's `once` or `session`, which is the one outcome its wait was settled with |
| GateSafety.WithdrawnIsNeverRun | packages/agent-tools/src/gate.ts:426-439 | a call whose wait was withdrawn never runs, and is audited only as the denial its failed broker caused |
| GateSafety.WithdrawnAuditedIff | packages/agent-tools/src/gate.ts:426-635 | over every run a finished call whose wait was withdrawn was audited exactly when the run holds its presenter's exception, its presenter's refusal outside a quit, or the exception of a port the broker asks once the wait has ended |
| GateSafety.WithdrawnCanBeAudited | packages/agent-tools/src/gate.ts:600-632 | three concrete runs in which one is, by each of those failures |
| GateSafety.InterruptedIsNeitherAuditedNorRun | packages/agent-tools/src/gate.ts:426-439 | a call answered as withdrawn settles blocked with neither audit nor execution |
| GateSafety.MirrorIsPending | packages/agent-tools/src/gate.ts:579-635 | the last mirrored list is the payloads of the pending waits, one for one and in order, whenever no broker step is outstanding |
| GateSafety.MarkEndsOutstandingWaits | packages/agent-tools/src/gate.ts:592-599 | the step that marks the user away outside a quit settles every outstanding wait but the exempt ones as away |
| GateSafety.OnlyExemptWaitWhileAway | packages/agent-tools/src/gate.ts:561-599 | while that mark stands only exempt waits are pending: none slips between the check and the listener |
| GateSafety.NoWaitBeginsWhileAway | packages/agent-tools/src/gate.ts:565-575 | until the mark clears no call that is not exempt begins a wait |
| GateSafety.NoCallIsStuck | packages/agent-tools/src/gate.ts:286-511 | a call that is not over has its next step open, or waits on a wait that is still pending |
| GateSafety.ReleaseFreesEveryCall | packages/agent-tools/src/approvals.ts:98-109 | after a bulk release every waiting call can take its outcome |
| GateRefines.LogIsTold | packages/agent-tools/src/gate.ts:312-511 | over every run the log of a call, and where it stands, are exactly what the run's actions tell: opened, refused, asked about, audited with the one decision its verdict or its broker came to, run, settled |
| GateRefines.WaitIsTold | packages/agent-tools/src/gate.ts:541-635 | over every run a wait begins exactly for an ask that can be made, and ends with the outcome of the first action that reaches it: an answer, a cancellation, a release, its timer outside a quit, its broker's failure, or another's timeout that marks the user away; until then it is pending with the timer and the shown flag its history gives it |
| GateRefines.AwayIsTold | packages/agent-tools/src/gate.ts:565-646 | over every run the user is marked away exactly from the end of a shown wait that ran out until the user returns |
| GateRefines.OpenIsTold | packages/agent-tools/src/gate.ts:286-635 | after every run just those steps may follow which the history leaves open, a timer's firing among them exactly when its wait is pending |
| GateRefines.VerdictDecides | packages/agent-tools/src/gate.ts:312-463 | over every run a refused, malformed or cut-short call is neither audited nor run; a denied one is audited as the rule's denial alone and never run; an allowed one as the rule's allow alone; and a call its hook stopped is never run |
| Policy.ValidatePolicy | packages/agent-tools/src/policy.ts:170-181 | true exactly when the preset and every rule id are not blank and no two rules share an id |
| Policy.CollectPaths | packages/agent-tools/src/policy.ts:236-247 | the path arguments in key order, whether any was carried, and whether all could be read |
| Policy.ResolvePathSet | packages/agent-tools/src/policy.ts:225-260 | the set of real paths, none without a path key, unresolvable when any value or path cannot be read |
| Policy.ScopeMatches | packages/agent-tools/src/policy.ts:360-384 | outside when some path is, inside when all are, silent without paths, and a throw when the root's resolution throws |
| Policy.ApplyRules | packages/agent-tools/src/policy.ts:436-443 | the loop over the rules is first match, else the preset's default, else fail-closed |
| Policy.EvaluatePolicy | packages/agent-tools/src/policy.ts:421-448 | meta tools first, then validity, then the most recent matching approval, then the rules |
| Policy.GrantMatches | packages/agent-tools/src/policy.ts:262-301 | what an approval matches later: the paths alone when both calls cover paths, else the same call in every argument |
| PolicyLaws.BuiltAreValid | packages/agent-tools/src/policy.ts:143-168 | each of the three built policies meets the validity conditions, for any catalogue |
| PolicyLaws.DenyStartersSay | packages/agent-tools/src/policy.ts:103-139 | the five deny starters deny exactly the facets one of their matchers hits |
| PolicyLaws.FetchPairSays | packages/agent-tools/src/policy.ts:148-153 | the fetch pair decides every call it governs, by the host alone |
| PolicyLaws.RestrictedAsStrictAsAsk | packages/agent-tools/src/policy.ts:143-168 | for every call, environment and set of approvals `restricted` decides at least as strictly as `ask` |
| PolicyLaws.AskAsStrictAsAutonomousIff | packages/agent-tools/src/policy.ts:143-168 | `ask` is at least as strict as `autonomous` exactly when no gated call is both governed by the fetch pair and hit by a deny starter |
| PolicyLaws.FetchGetsAhead | packages/agent-tools/src/policy.ts:148-155 | a concrete fetch that `autonomous` denies and `ask` does not |
| PolicyLaws.ApprovalOnlyAllows | packages/agent-tools/src/policy.ts:421-435 | one more approval changes a decision only to allow, and exactly for the calls it matches under a valid policy |
| PolicyLaws.GrantLasts | packages/agent-tools/src/policy.ts:450-486 | over every run without a discard a granted call stays allowed under whatever valid policy is in force, unless its paths were or are unresolvable or now resolve elsewhere |
| PolicyLaws.GrantDecides | packages/agent-tools/src/policy.ts:262-301 | over every run from any context a grant allows the calls it covers until a discard, and every other call is ruled as in the run without the grant |
| PolicyLaws.RuledByTheLastCover | packages/agent-tools/src/policy.ts:421-486 | over every run a call is ruled by an approval exactly when some grant since the last discard covers it, by the number of the last such grant; every other call is ruled as with no approvals |
| PolicyLaws.NumbersStay | packages/agent-tools/src/policy.ts:465-474 | over every run approvals are numbered from 1 in grant order, so ids are distinct |
| PolicyLaws.ApprovalsStay | packages/agent-tools/src/policy.ts:461-486 | replacing the policy keeps every approval, and never puts an invalid policy in force |
| PolicyLaws.PolicyContext.Replace | packages/agent-tools/src/policy.ts:461-464 | an invalid policy is refused and the old one stays; nothing else changes |
| PolicyLaws.PolicyContext.Grant | packages/agent-tools/src/policy.ts:465-474 | the approval is appended under the next number |
| PolicyLaws.PolicyContext.Evaluate | packages/agent-tools/src/policy.ts:478-480 | the decision under the policy and approvals in force, neither of which it changes |
| PolicyLaws.PolicyContext.Discard | packages/agent-tools/src/policy.ts:481-485 | approvals and numbering start over |
| PolicyTables.ModesSay | packages/agent-tools/src/policy.ts:103-168 | for every call that no approval covers, in every environment, each mode's decision and the rule that made it, as a table over the call's tool, facet and paths |
| PolicyTables.RestrictedReads | packages/agent-tools/src/policy.ts:156-159 | under `restricted` a read-only call without a facet is asked about exactly when some path it gives does not resolve inside the root, and allowed otherwise |
| PolicyTables.RuleFiresIff | packages/agent-tools/src/policy.ts:360-419 | a rule fires exactly when the call meets every condition it states, over the paths the call gives; and throws exactly when the root's resolution does for a scoped rule that gets so far |
| PolicyTables.FirstToFire | packages/agent-tools/src/policy.ts:438-442 | the first rule that is not silent decides |
| PolicyTables.NoneToFire | packages/agent-tools/src/policy.ts:438-443 | where all are silent none decides |
| PolicyTables.InvalidFailsClosed | packages/agent-tools/src/policy.ts:422-447 | an invalid policy decides no call but those of loop control: it asks where a person attends and denies elsewhere |
| PolicyTables.PathsAreGiven | packages/agent-tools/src/policy.ts:341-349 | the path arguments of a call are the texts under the seven path keys, alone or in a list, and nothing else |
| PolicyTables.PathSetSays | packages/agent-tools/src/policy.ts:236-260 | no path set exactly without a path key, none resolved exactly with an illegible value or a path that does not resolve, and else exactly the real paths given |
| PolicyTables.ScopedSays | packages/agent-tools/src/policy.ts:214-265 | approvals are scoped by paths exactly for calls of the two public tools that write by path, under each of their names |
| PolicyTables.GrantCovers | packages/agent-tools/src/policy.ts:262-312 | which later calls a grant covers, by the call it was given for: for two writes by path of one tool and persona the same real places, and for any other the same tool, persona, facet and arguments |
| Glob.MatchesIsDenotes | packages/agent-tools/src/scanner.ts:155-171 | the matchers' recursion is the declarative relation: one piece of the token for each character of the pattern |
| Glob.GlobToken | packages/agent-tools/src/scanner.ts:156-171 | the memoised matcher ends and answers that relation for all patterns and tokens |
| Glob.HookGlob | packages/config/src/command-pattern.ts:67-81 | so does the hook matcher, with `*` alone special |
| Glob.Go | packages/agent-tools/src/scanner.ts:158-169 | every memo entry stays sound |
| Glob.AgreeWithoutQuestionMark | packages/config/src/command-pattern.ts:61-81 | the two matchers agree on every pattern without `?` |
| Glob.QuestionMarkTellsApart | packages/config/src/command-pattern.ts:61-81 | and on no other: for every pattern with a `?` some token tells them apart |
| Scanner.SplitLine | packages/agent-tools/src/scanner.ts:85-107 | the position-by-position loop gives the parts of the specification |
| Scanner.TokeniseText | packages/agent-tools/src/scanner.ts:35-77 | the tokeniser's loop, escapes, quotes and substitution depth included |
| Scanner.SplitLossless | packages/agent-tools/src/scanner.ts:85-107 | operators and raw parts concatenate back to the line |
| Scanner.SplitCutsAtOperators | packages/agent-tools/src/scanner.ts:85-107 | no raw part holds an operator character that is neither quoted nor escaped, and every part but the last ends outside quotes |
| Scanner.LexTracksQuotes | packages/agent-tools/src/scanner.ts:35-107 | the tokeniser and the splitter are in the same quote after the same text |
| Scanner.OnlyTheLastCanFail | packages/agent-tools/src/scanner.ts:35-107 | only the last part of a line can fail to tokenise |
| Scanner.SubstitutionEscalates | packages/agent-tools/src/scanner.ts:35-144 | an unescaped backtick or `$(` outside single quotes always makes some segment unconfident, and the escalation matcher fires |
| Scanner.SplitComposes | packages/agent-tools/src/scanner.ts:85-107 | across a clean seam the parts of `a op b` are those of `a` followed by those of `b`, the first introduced by `op` |
| Scanner.SplitComposesIff | packages/agent-tools/src/scanner.ts:85-107 | and across no other: they are, for an `a` that ends outside quotes, exactly when no operator character at the seam doubles another |
| Scanner.SegmentsCompose | packages/agent-tools/src/scanner.ts:127-144 | so are the segments that are not blank |
| Scanner.PatternComposes | packages/agent-tools/src/scanner.ts:188-190 | a pattern matcher fires on `a op b` exactly when it fires on `a` or on `b` |
| Scanner.EscalationComposes | packages/agent-tools/src/scanner.ts:127-144 | the escalation matcher does exactly when the stated condition on blank lines holds |
| Scanner.HollowLinesDisagree | packages/agent-tools/src/scanner.ts:140-144 | a concrete pair of blank lines for which it does not |
| Scanner.EscalationOnALine | packages/agent-tools/src/scanner.ts:127-193 | on any line it fires exactly when some part that is not blank escalates, or the line has only blank parts and is itself more than blank |
| Scanner.BlankIsConfident | packages/agent-tools/src/scanner.ts:110-125 | a blank part is always read with confidence |
| ShellWords.ReadsBack | packages/agent-tools/src/scanner.ts:35-78 | every list of words, each character bare, behind a backslash or inside quotes of either kind, and with any blanks between, is tokenised into just those words |
| ShellRules.OperatorIsOne | packages/agent-tools/src/scanner.ts:26-98 | the operator cut at is the longest of the seven that begins there |
| ShellRules.PartsHaveOperators | packages/agent-tools/src/scanner.ts:85-107 | every part but the first is introduced by one of the seven |
| ShellRules.RedirectionIs | packages/agent-tools/src/scanner.ts:80-82 | a redirection is a token that begins with `&>`, or with digits and an angle bracket |
| ShellRules.CommandIs | packages/agent-tools/src/scanner.ts:134-136 | the command is the tokens ahead of the first redirection |
| ShellRules.ConfidentIff | packages/agent-tools/src/scanner.ts:110-125 | a text is read with confidence exactly when it is blank, or closed, free of substitution, and its command neither runs another nor is a shell alone or with an inline script |
| ShellRules.PipeComposes | packages/agent-tools/src/scanner.ts:194-196 | the pipe matcher fires on `a op b` exactly when it fires on a side, or the seam is a pipe and `b` begins with a shell |
| ShellRules.WordsMatch | packages/agent-tools/src/scanner.ts:173-185 | a pattern that spells its words out matches the command of just those words, the first in any case, and with a trailing `*` each command that begins with them |
| HookPattern.SegmentCommandLine | packages/config/src/command-pattern.ts:14-35 | the loop divides a line at the six separators outside quotes as specified |
| HookPattern.TokenizeHookPattern | packages/config/src/command-pattern.ts:37-64 | the tokens as specified, and none exactly when a quote is left open |
| HookPattern.TokensMatchPattern | packages/config/src/command-pattern.ts:83-92 | position by position, a trailing bare `*` taking any number of further tokens |
| HookPattern.CommandPatternMatches | packages/config/src/command-pattern.ts:94-104 | true exactly when the pattern can be read and some segment that can be read matches it |
| HookPattern.HookMatchComposes | packages/config/src/command-pattern.ts:94-104 | across a clean separator a pattern matches exactly when it matches on one side |
| HookPattern.OnlyTheLastIsPassedOver | packages/config/src/command-pattern.ts:14-64 | only the last segment can fail to tokenise, exactly when the line leaves a quote open |
| HookPattern.SegmentsAreParts | packages/config/src/command-pattern.ts:7-10 | on a line without a backslash the hook segments are the permission scanner's parts, with an unquoted `;;` cut twice; they are as many exactly when there is none |
| ShellWords.HookReadsBack | packages/config/src/command-pattern.ts:36-64 | every list of words, each character bare or inside quotes of either kind, is tokenised into just those words, backslashes included |
| ShellRules.SegmentsLoseNothing | packages/config/src/command-pattern.ts:14-34 | the segments and the separators between them are the line, and no segment holds a separator outside quotes |
| ShellRules.HookWordsMatch | packages/config/src/command-pattern.ts:83-92 | a pattern without `*` matches just its own words, with a trailing `*` each list they begin, and an empty one nothing |
| SchemaRewrite.StripNode | packages/agent-tools/src/advertised-schema.ts:89-112 | the walk with its counters: the rewritten document, patterns dropped, the first keyword that is not monotone, or the name that stops it |
| SchemaRewrite.StripMembers | packages/agent-tools/src/advertised-schema.ts:93-111 | the loop over a schema's keywords, by keyword position |
| SchemaRewrite.StripValue | packages/agent-tools/src/advertised-schema.ts:102-109 | a keyword's value walked as a schema, a list or a map of them, or kept |
| SchemaRewrite.StripMap | packages/agent-tools/src/advertised-schema.ts:108 | a map's names are names, whatever they spell |
| SchemaRewrite.AdvertisedSchemaCheck | packages/agent-tools/src/advertised-schema.ts:146-160 | which schema, if any, calls are checked against |
| SchemaPlaces.RewriteRemoves | packages/agent-tools/src/advertised-schema.ts:89-112 | no keyword position of the rewritten document, at any depth, holds `$async` or a pattern that cannot be read, and every other member stands in its place under its key |
| SchemaPlaces.CheckedIff | packages/agent-tools/src/advertised-schema.ts:103-160 | a call is checked exactly when every `patternProperties` name can be read, no pattern was dropped beside a keyword that may then refuse more, and the rewritten document compiles |
| SchemaLaws.RewriteCompares | packages/agent-tools/src/advertised-schema.ts:89-112 | to every depth and for every instance, keyword by keyword: the rewritten schema's verdict and evaluated properties and items are the same, or wider |
| SchemaLaws.ReadableMeansTheSame | packages/agent-tools/src/advertised-schema.ts:27-43 | a schema whose every pattern is readable keeps its meaning |
| SchemaLaws.MonotoneOnlyWidens | packages/agent-tools/src/advertised-schema.ts:31-37 | without `not`, `oneOf`, `if` and `maxContains` every instance the original accepts the rewritten one accepts |
| SchemaLaws.CheckNeverRefusesMore | packages/agent-tools/src/advertised-schema.ts:146-172 | the check never refuses an object the advertised schema accepts, and refuses just the others when no pattern was dropped |
| SchemaLaws.ResolveRewritten | packages/agent-tools/src/advertised-schema.ts:66-112 | a reference along keyword positions leads, in the rewritten document, to the rewriting of what it led to |
| SchemaLaws.ContainsCompares | packages/agent-tools/src/advertised-schema.ts:72-73 | `contains` with `minContains` widens, as long as nothing bounds the count from above |
| SchemaLaws.RestCompares | packages/agent-tools/src/advertised-schema.ts:66-73 | `unevaluatedProperties` and `unevaluatedItems` widen: less is left to them, and all is evaluated in the end |
| SchemaLaws.NotCanNarrow | packages/agent-tools/src/advertised-schema.ts:72-73 | `not` over a dropped pattern refuses what the original accepted |
| SchemaLaws.OneOfCanNarrow | packages/agent-tools/src/advertised-schema.ts:72-73 | so does `oneOf` |
| SchemaLaws.IfCanNarrow | packages/agent-tools/src/advertised-schema.ts:72-73 | so does `if` |
| SchemaLaws.MaxContainsCanNarrow | packages/agent-tools/src/advertised-schema.ts:72-73 | so does `maxContains` |
| Slots.ResolveSlotBase | packages/config/src/slots.ts:41-53 | the base the chain ends at with the chain's length, and a cycle exactly when the chain never ends |
| Slots.SyntheticOriginOf | packages/config/src/slots.ts:105-122 | where the recorded origins end, which is no copy unless they run in a circle |
| Slots.SubstituteAllKeepsEnds | packages/config/src/slots.ts:61-69 | substituting the reference slots changes no chain's end and breaks no cycle |
| Slots.SubstituteAllIs | packages/config/src/slots.ts:69 | each reference slot gets its own value's substitute by the aliases registered at the start, and the tiers keep theirs |
| Slots.SlotCopyKeepsEnds | packages/config/src/slots.ts:79-89 | leading a slot to its copy, and the copy to its base, moves no chain's end |
| Slots.SlotCopySound | packages/config/src/slots.ts:79-89 | one copy more keeps ends, cycles, acyclic origins and every copy equal to its origin but for its reasoning |
| Slots.PersonaCopySound | packages/config/src/slots.ts:92-101 | so does a role's copy |
| Slots.AcyclicWithCopy | packages/config/src/slots.ts:105-122 | the recorded origins never run in a circle |
| Slots.BaseTells | packages/config/src/slots.ts:80-88 | an intermediate chain, copies of earlier slots included, ends at a configured model exactly when the slot's own chain did |
| Slots.SlotDraft.SubstituteReferences | packages/config/src/slots.ts:61-75 | every reference field by the aliases of the start, and the roles that named a tier |
| Slots.SlotDraft.SynthesiseSlot | packages/config/src/slots.ts:78-90 | a slot is led to its copy exactly when it asks for a level and its chain ends at a configured model; otherwise it is warned about by what became of its chain |
| Slots.SlotDraft.SynthesiseSlots | packages/config/src/slots.ts:77-90 | the same of every slot, in the fixed order |
| Slots.SlotDraft.SynthesisePersona | packages/config/src/slots.ts:93-102 | one role: its copy, its origin, its model, or its warning |
| Slots.SlotDraft.SynthesisePersonas | packages/config/src/slots.ts:92-102 | every role |
| Slots.SlotDraft.ResolveSlotsAndReasoning | packages/config/src/slots.ts:55-105 | said of the slots as given, with no name under a reserved prefix: by values and origins each slot leads where its chain led, one that came by an unset fallback where the small slot's did, and cycles stay cycles; origins are acyclic, each copy equals its origin but for reasoning, and slots, roles, tiers and warnings are exactly as specified |
| Slots.DefaultedEnds | packages/config/src/slots.ts:57-59 | the exact effect of an unset fallback: chains that come by it end where the small slot's did, or nowhere when that comes by it too; every other end stays |
| Delegation.VisitFindsReal | packages/config/src/validate.ts:118-132 | every cycle the recursion meets is a closed walk among configured roles |
| Delegation.SearchMeets | packages/config/src/validate.ts:118-132 | every elementary cycle is met from each of its roles |
| Delegation.WalkHasCycle | packages/config/src/validate.ts:118-132 | any closed walk holds an elementary cycle |
| Delegation.ReportsAreReal | packages/config/src/validate.ts:118-132 | every reported path is a real closed walk |
| Delegation.SilentIffAcyclic | packages/config/src/validate.ts:118-132 | no message exactly when there is no cycle |
| Delegation.NeverTwice | packages/config/src/validate.ts:122-125 | no set of roles is reported twice |
| Delegation.EverySetReportedIffKeysTellApart | packages/config/src/validate.ts:122-125 | every set of roles forming a cycle is reported exactly when the joined keys tell those sets apart |
| Delegation.NoBarReportsEverySet | packages/config/src/validate.ts:122-125 | they do when no role's name holds a bar |
| Delegation.FirstTakesItsKey | packages/config/src/validate.ts:122-125 | a cycle of other roles that has the joined key of the first cycle met goes unreported, in any graph |
| Delegation.BarHidesACycle | packages/config/src/validate.ts:122-125 | a concrete graph, searched from its bar role, where a cycle of two roles goes unreported because a cycle of one has its key |
| Delegation.VisitRole | packages/config/src/validate.ts:119-131 | the recursion over the shared messages and keys, which ends on every graph |
| Delegation.DelegationMessages | packages/config/src/validate.ts:118-132 | the whole search, with both main promises |
| Instructions.WholeLinesWithin | packages/config/src/instructions.ts:143-157 | the loop gives the longest prefix of whole lines that fits, and none exactly when none does |
| Instructions.LongestFound | packages/config/src/instructions.ts:143-157 | what longest means: it fits, it ends at a line, and no longer one does both |
| Instructions.CutTwiceIsCutOnce | packages/config/src/instructions.ts:225-245 | cutting to the per-file limit and then to the remainder is one cut to the smaller |
| Instructions.BodyIsWholeLines | packages/config/src/instructions.ts:219-246 | a body ends where a line of the file ends, carries no newline there, and fits both limits |
| Instructions.BodyIsLongest | packages/config/src/instructions.ts:219-246 | no longer run of whole lines would have fitted |
| Instructions.NeverOverTotal | packages/config/src/instructions.ts:181-194 | the merged text never exceeds the total in UTF-8 bytes; under a negative total nothing is merged |
| Instructions.SilentIffWholeOrBlank | packages/config/src/instructions.ts:190-194 | a readable file is passed in silence exactly when it is blank or kept whole |
| InstructionLaws.BytesAreOctets | packages/config/src/instructions.ts:143-152 | the measure of both budgets is the length of the text in UTF-8, by the table of section 3 of RFC 3629 |
| InstructionLaws.BlockIsLongest | packages/config/src/instructions.ts:216-247 | a file is kept exactly when it is not blank, room is left past its source line and some run of its whole lines fits both limits; it is then its source line and the longest such run |
| InstructionLaws.UnreadableIsNone | packages/config/src/instructions.ts:208-214 | an unreadable file adds nothing and is warned about with its error |
| InstructionLaws.WarnedAs | packages/config/src/instructions.ts:224-244 | which warnings a file gets, by what of it fits its own limit and what fits the room left |
| InstructionLaws.OneMoreFile | packages/config/src/instructions.ts:206-248 | blocks and warnings follow the order of the files |
| InstructionLaws.JoinedIs | packages/config/src/instructions.ts:249 | blocks are set apart by one empty line |
| Instructions.MergeFile | packages/config/src/instructions.ts:206-248 | one turn of the loop: the block, its exact cost in bytes, and the warnings |
| Instructions.MergeInstructionContext | packages/config/src/instructions.ts:196-250 | `used` is the byte length of the joined blocks at every iteration; blocks and warnings in discovery order; the total holds |

## Left out

- File, process and clock I/O, the YAML parser, zod, ajv's engines, URL and address parsing: a file is a value that changes over time, time is a step count, and `isRemoteUrl`, the path resolver, the real-path comparison, `publicTool`, regular expressions and `Plain` schema keywords are given functions.
- Dotted path spellings, `spelledAsStated`, `longestKeyAt` and `canonicaliseRoles`: paths are sequences of steps, documents are taken with their role names already canonical, and the answer is the document's number.
- The order of one layer's warnings, and the key order of a plain merged document; the order of an overlaid or merged document is in `OrderedOverlay.dfy` and `OrderedMerge.dfy`. `MergeMemory.dfy` leaves the warnings to `Merge.dfy`.
- Keys, roles or tools named after a property of every JavaScript object (`constructor`, `__proto__`), and integer-like keys, which an object enumerates first.
- Upper-case letters beyond ASCII where the source folds case.
- SavedRead: `loadMs` beyond its being replaced, the environment's print (compared as given, and not re-read at the end of a load), and the spelling of the two directories (taken as canonical).
- PresenterRegistry: windows, polling and lapses; whether the session is attended or quitting is an input that may change between any two steps.
- Gate: argument repair, the plan gate, write scopes, schema validation and their texts are one refusal verdict, or one exception when a port throws among them; `todoList.started` where there are no hooks, the presence ports, `nextSequence`, and `publicTool` and `quitting` as the broker asks them are taken not to throw; `abort` under the headless policy, issues and timeline entries are not modelled; sinks are total and request ids fresh; `GateSafety` names a session answer's source, and the grant it makes is `PolicyLaws.PolicyContext.Grant`.
- OrderedOverlay.OverlayForgets: a document has no YAML alias in it. To the tree an alias is no mapping, so an aliased section would be replaced whole where the plain overlay goes into it, and writing into an anchored mapping would change what its aliases mean.
- Policy: the starter and network catalogues are parameters, so the laws hold of any patterns; reasons, summaries and descriptions are texts; an approval's id is its number; a set of resolved paths stands for the sorted list of them; `resolvePreset` has already named the preset.
- ShellWords.ReadsBack: words that begin at a parenthesis are left out, because inside a substitution the tokeniser starts no token there.
- Schema: the 2020-12 dialect alone; references along keyword positions, not by `$id`, `$anchor`, `$dynamicRef` or another document; the issues a refusal lists; a subschema is followed to a depth that is a parameter of every statement.
- `enabledInstructionFiles`, discovery and the closing comment of the instruction unit: filters and framing around the merge.
- `applyRoleEdit`, `saveDesktop` and the other writers, `clonePlain` of values that are neither plain objects, arrays nor scalars, and documents that contain themselves through a YAML alias.
- Slots.SlotDraft.ResolveSlotsAndReasoning: says nothing of meaning when a configured model, a slot or a role already names something under a reserved prefix, because a copy may then overwrite it.
- `completeTruncatedJson` and `repairPayload`: text clean-up with no clean guarantee.
