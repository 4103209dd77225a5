# Lazybones: extension dispatch, Typst conversion and the repository tree

A Dafny model of the three parts of lazybones whose correctness depends on loops, mutable state and
facts that span several functions, with proofs of what they promise.

**Markdown to Typst** (`crates/lazybones-render`).  The converter is a stack machine over a
markdown event stream.  `Converter.Machine` models it with its frames updated in place; the parser
stays outside, so its events are the input.  `ConverterRefinement` shows that the machine computes a
structural recursion over the document tree (`Doc`) whose markup is written out tag by tag, and that
well-nested streams are exactly the flattened documents.  `TypstLexer` is an independent, strict reader of Typst: outside string
literals it accepts nothing in markup but blanks, task marks, brackets and function calls.
`ConverterTokens` shows that reading the output of any document gives, token by token, a meaning
computed on the tree (`Meaning`: call names, decoded arguments, decoded text runs, delimiters;
blanks between them are ignored).  It also shows that no stream at all, well-nested or not, makes the
converter emit broken markup, unless the stream stops inside an open code block.  `ConverterTexts`
says exactly which author texts survive: prose, code spans and code blocks.  `HtmlEscape` treats the
five-step HTML escaper.

**Repository tree** (`crates/lazybones-gh/src/repo.rs`).  `RepoTree` models `full_tree` and
`from_ls_files` on real strings, for every input.  `RepoTreeLayout` shows the depth-first layout and
the agreement of the two listings.  Where git's own promise matters, it is the predicate `GitShaped`: no
empty path component, apart from one trailing slash.  `RepoStatus` models the nearest-owner lookup
and the name-status parser.  Strings are compared by code point, which is the order of their UTF-8
bytes.

**Extension runtime** (`crates/lazybones-ext`, `crates/lazybones-api`).  `Breaker`, `Cycle` and
`Registries` model the circuit breaker, the cycle guard and the two-map registry as classes, each
proved against pure functions; the registry carries its install-ordered list as a ghost field that
both maps mirror.  `Dispatch.Dispatcher` models the gate and the event worklist over those objects;
guests and clock are functions of a running call number, so every behaviour of theirs is covered.  It
also records every guest call and every emit decision, and `DispatchWorklist`, `DispatchRecords` and
`DispatchBreaker` say what those records mean.  `Routes` models the store row, the stored bytes and
the registry side by side; failures of the store and the blob store are inputs.  `ExtensionSystem`
interleaves all of it, restarts of the daemon included, in any order and from any rows.

Where the code and its documentation differ:

- The emit budget is documented as a rolling window.  The code's window tumbles.
  `Cycle.RollingLimitIff` states exactly when the documented limit holds, and `Cycle.RateBound` with
  `Cycle.BoundReached` give the exact limit the code keeps.
- The cycle guard is documented to count how often a chain re-enters an extension.  The code compares
  the depth of the whole chain, and only when the last emitter is the target: A's event may come back
  to A through B, and A's own event may be refused although A never re-entered itself.
  `Cycle.SelfReentryAsDocumentedIff` and `Cycle.ChainReentryAsDocumentedIff` state exactly which
  settings make the two readings true; with the default settings the first is, the second is not.
- "Every literal text run is emitted" does not hold of the alternative text of an image that resolves
  (`ConverterTexts.AltTextIsDropped`).  `ConverterTexts.AllTextEmittedIff` gives the exact condition, and
  `ConverterTexts.SchemaAllTextEmittedIff` for documents as the parser nests them.
- The registry is documented to be rebuilt from the store on boot.  The daemon starts with an empty one
  and nothing fills it: after a restart a stored extension is never called, and enabling or installing
  it again does not help, until it is deleted (`ExtensionSystem.RestartForgets`,
  `ExtensionSystem.DeleteAndInstallRevives`).
- The routes are documented to write the store first.  Install registers first and takes that back
  when the row is not written, so that afterwards both copies are written or neither is
  (`Routes.ExtensionRoutes.Install`), and they agree (`Routes.InstallKeeps`).
- A trip disables an extension in the registry only; the store row keeps its flag.  Resetting the
  breaker is documented as part of re-enabling, but no route does it: a trip lasts until the daemon
  restarts (`ExtensionSystem.TripsLast`).  Enabling makes an extension eligible exactly when it has not
  tripped and the registry knows it (`ExtensionSystem.EnableWorksIff`).
- Delete takes the component's bytes to be unshared.  Two ids may hold the same component, and then
  deleting one takes the bytes of the other (`ExtensionSystem.SharedBytesAreLost`); `Routes.DeleteBacksIff`
  states exactly when a delete is safe.

## Model

| member | source | states |
|---|---|---|
| TypstMarkup.TypstString | crates/lazybones-render/src/convert.rs:354-367 | the escaping loop produces the quoted form that `QuotedRoundTrip` reads back |
| TypstMarkup.TypstStringMultiline | crates/lazybones-render/src/convert.rs:373-388 | the line-preserving loop, likewise |
| TypstMarkup.NormalInline | crates/lazybones-render/src/convert.rs:354-367 | inline, a text reads back character by character, control whitespace as spaces |
| TypstMarkup.NormalMultiline | crates/lazybones-render/src/convert.rs:369-388 | line by line, a text without carriage returns reads back unchanged |
| TypstMarkup.NormalDropsReturn | crates/lazybones-render/src/convert.rs:369-388 | and a carriage return leaves no trace |
| Strings.TrimEndNewlines | crates/lazybones-render/src/convert.rs:243 | exactly the newlines at the end go |
| Strings.TrimIs | crates/lazybones-render/src/convert.rs:333-336 | exactly the white at both ends goes |
| Strings.FirstWordIs | crates/lazybones-render/src/convert.rs:185-193 | the language of a fence is the first run of non-white after it, if any |
| Strings.DecimalIs | crates/lazybones-render/src/convert.rs:254-267 | numbers are printed as their decimal numerals, without leading zeros |
| TypstLexer.QuotedRoundTrip | crates/lazybones-render/src/convert.rs:351-388 | reading a quoted string and any suffix closes the literal exactly at its end and gives back the normalised string; no earlier prefix closes it |
| Converter.Machine.constructor | crates/lazybones-render/src/convert.rs:32-35 | the machine starts with the root frame alone |
| Converter.Machine.Push | crates/lazybones-render/src/convert.rs:124-130 | only the innermost buffer grows, by the given text |
| Converter.Machine.Open | crates/lazybones-render/src/convert.rs:132-134 | an empty frame goes on top |
| Converter.Machine.HandleEvent | crates/lazybones-render/src/convert.rs:136-160 | every event, in any state, keeps the root frame at the bottom (so no pop can fail) and has the effect `Next` |
| Converter.Machine.PushText | crates/lazybones-render/src/convert.rs:165-177 | verbatim inside a code block, a text run elsewhere |
| Converter.Machine.CloseTop | crates/lazybones-render/src/convert.rs:216-331 | closing a frame hands its parent what `Close` says; an End at the root changes nothing |
| Converter.Machine.Finish | crates/lazybones-render/src/convert.rs:333-336 | the trimmed buffer of the frame on top |
| Converter.TableCells | crates/lazybones-render/src/convert.rs:286-295 | cells of all rows in order, header cells in bold |
| Converter.MarkdownToTypst | crates/lazybones-render/src/convert.rs:26-40 | the event loop computes `Convert` |
| ConverterRefinement.MachineRefinesEmit | crates/lazybones-render/src/convert.rs:136-331 | running a document's events fills the open frame with exactly what a stackless recursion over the tree emits, and leaves every frame below unchanged |
| ConverterRefinement.ConvertDocument | crates/lazybones-render/src/convert.rs:26-40 | the output for a document is that recursion's buffer, trimmed |
| ConverterRefinement.CloseIsRendered | crates/lazybones-render/src/convert.rs:179-331 | opening and closing an element of any tag gives its parent the markup written out for that tag, character by character |
| ConverterRefinement.WellNestedIsDocument | crates/lazybones-render/src/convert.rs:216-217 | every well-nested event stream is the flattening of a document |
| ConverterRefinement.FlattenWellNested | crates/lazybones-render/src/convert.rs:216-217 | and every flattened document is well nested |
| ConverterTokens.AtomReads | crates/lazybones-render/src/convert.rs:140-177 | each leaf event's markup reads back as its token meaning |
| ConverterTokens.CloseReads | crates/lazybones-render/src/convert.rs:216-331 | for every kind of frame, if its parts read as some tokens then what closing it delivers reads as the element over those tokens; survives trimming and joining |
| ConverterTokens.ShareOfTag | crates/lazybones-render/src/convert.rs:179-214 | the frame a tag opens has the meaning of the tag |
| ConverterTokens.EmitReads | crates/lazybones-render/src/convert.rs:136-331 | the emitted markup of every document reads as its meaning, token for token |
| ConverterTokens.ConvertReads | crates/lazybones-render/src/convert.rs:26-40 | so does the whole output: literals closed, delimiters matched, nothing else outside a literal |
| ConverterTokens.ConvertWellNested | crates/lazybones-render/src/convert.rs:26-40 | the same for every well-nested stream |
| ConverterTokens.ConvertAnyStream | crates/lazybones-render/src/convert.rs:4-15 | any stream whatever, ill-nested too, gives well-formed markup unless it stops inside an open code block |
| ConverterTokens.OnlyOpenCodeBreaks | crates/lazybones-render/src/convert.rs:165-177 | a further text can break the markup exactly when the stream stops inside an open code block |
| ConverterTexts.MeaningTexts | crates/lazybones-render/src/convert.rs:216-331 | the text runs, code spans and code blocks in a document's meaning are the texts that reach each place of the enclosing frame |
| ConverterTexts.TextPreserved | crates/lazybones-render/src/convert.rs:9-13 | for prose, code spans and code blocks alike: those a reader finds in the output are the author's, in order, if and only if none is misplaced; in every case they are the ones reaching the root |
| ConverterTexts.ReachingIffPlaced | crates/lazybones-render/src/convert.rs:254-301 | texts are only ever dropped, and none is dropped exactly when each stands in a place its parent renders |
| ConverterTexts.SchemaPreservesText | crates/lazybones-render/src/convert.rs:4-13 | nothing is lost of a document whose lists hold only items, tables only rows and rows only cells |
| ConverterTexts.CodeBlockVerbatim | crates/lazybones-render/src/convert.rs:242-253 | a code block reads back as one call: its language is the first word after the fence, if any, and its text is the block's own, line by line, without the newlines at the end and carriage returns |
| ConverterTexts.AllTextEmittedIff | crates/lazybones-render/src/convert.rs:9-20 | every text of the document is emitted, in order, if and only if none is misplaced and no image that resolves has one in its alternative |
| ConverterTexts.SchemaAllTextEmittedIff | crates/lazybones-render/src/convert.rs:9-20 | where lists hold only items, tables only rows and rows only cells, the images alone decide |
| ConverterTexts.AltTextIsDropped | crates/lazybones-render/src/convert.rs:318-329 | the alternative text of an image that resolves is not emitted: an input where the condition fails |
| ConverterTexts.MisplacedTextIsLost | crates/lazybones-render/src/convert.rs:254-267 | an event stream that put a text directly in a list would lose it |
| HtmlEscape.EscapeIsOnePass | crates/lazybones-render/src/html.rs:281-287 | the five chained replacements equal one pass over the characters |
| HtmlEscape.EscapeRoundTrip | crates/lazybones-render/src/html.rs:279-287 | reading the escaped text as HTML gives the text back; none of the four quoting and tag characters is left |
| RepoTree.FullTree | crates/lazybones-gh/src/repo.rs:69-113 | each registered directory and file exactly once, strictly ascending in the sort key |
| RepoTree.AddDirs | crates/lazybones-gh/src/repo.rs:78-99 | one path adds itself if nested, and its accumulated ancestors |
| RepoTree.TreeUnique | crates/lazybones-gh/src/repo.rs:101-112 | the contract of `FullTree` determines its result |
| RepoTree.KeyInjective | crates/lazybones-gh/src/repo.rs:132-143 | the sort key determines path and kind, so ties cannot occur |
| RepoTree.FromLsFiles | crates/lazybones-gh/src/repo.rs:24-61 | for every way of naming a directory: everything listed that stands directly in it, each once, directories first, then by name |
| RepoTree.TrimSlashesIs | crates/lazybones-gh/src/repo.rs:25-29 | exactly the slashes around the directory go |
| RepoTreeLayout.OwnDirsAreAncestors | crates/lazybones-gh/src/repo.rs:72-99 | for a git-shaped path the registered directories are exactly those it goes through |
| RepoTreeLayout.NoRepeats | crates/lazybones-gh/src/repo.rs:63-113 | no entry repeats |
| RepoTreeLayout.AncestorsComeFirst | crates/lazybones-gh/src/repo.rs:63-113 | every directory an entry lies in is present as a directory, before it |
| RepoTreeLayout.SubtreeIsContiguous | crates/lazybones-gh/src/repo.rs:122-131 | a directory is followed at once by exactly its descendants, in one block |
| RepoTreeLayout.SiblingsInOrder | crates/lazybones-gh/src/repo.rs:122-143 | within a directory, sub-directories first, then by code points of the name |
| RepoTreeLayout.LevelsAgree | crates/lazybones-gh/src/repo.rs:18-113 | for every directory, the tree's entries standing directly in it equal the one-level listing, element for element, nested checkouts included |
| RepoTreeLayout.DirectoryNamesItself | crates/lazybones-gh/src/repo.rs:11-14 | the path of a directory entry names that directory when it is listed next |
| RepoStatus.LastSlash | crates/lazybones-gh/src/repo.rs:252 | the last slash, or none |
| RepoStatus.ResolveStatus | crates/lazybones-gh/src/repo.rs:239-260 | the kind of the path, else of the path as a directory, else of its longest recorded ancestor; none exactly when there is no such key |
| RepoStatus.NearestOwnerUnique | crates/lazybones-gh/src/repo.rs:235-260 | that contract determines the answer |
| RepoStatus.InheritsFromDirectory | crates/lazybones-gh/src/repo.rs:235-238 | everything under a recorded directory inherits its kind unless something nearer is recorded |
| RepoStatus.ParseNameStatus | crates/lazybones-gh/src/repo.rs:265-283 | the pairwise walk over the fields, for any input, truncated ones too |
| RepoStatus.ParseInStep | crates/lazybones-gh/src/repo.rs:265-283 | unknown letters skip their own path and never desynchronise what follows |
| RepoStatus.CutRecordIsIgnored | crates/lazybones-gh/src/repo.rs:265-283 | a record cut short at the end adds nothing |
| RepoStatus.ParseUndoesPrint | crates/lazybones-gh/src/repo.rs:194-201 | parsing printed records gives the last-wins map from (new) path to the kind the letter stands for |
| Capabilities.ParseCapsRoundTrip | crates/lazybones-ext/src/capability.rs:64-94 | wire strings that parse print back as they were; otherwise the first unknown one is reported |
| Capabilities.PrintCapsRoundTrip | crates/lazybones-ext/src/capability.rs:64-94 | printed capabilities parse back to themselves |
| Capabilities.ValidateGrantIff | crates/lazybones-ext/src/capability.rs:121-145 | accepted exactly when every grant is `log` or available and requested; otherwise the first offender is named, as deferred exactly when unavailable |
| Capabilities.GrantPolicyOnWire | crates/lazybones-ext/src/capability.rs:64-145 | in wire strings: accepted exactly when every grant is `log`, or is `store-read` or `http-fetch` and was requested |
| Breaker.CircuitBreaker.constructor | crates/lazybones-ext/src/breaker.rs:93-98 | a zero threshold becomes one |
| Breaker.CircuitBreaker.RecordFault | crates/lazybones-ext/src/breaker.rs:110-112 | a fault is a failure |
| Breaker.CircuitBreaker.RecordRejection | crates/lazybones-ext/src/breaker.rs:117-119 | so is a rejection |
| Breaker.CircuitBreaker.RecordFailure | crates/lazybones-ext/src/breaker.rs:121-136 | the new table and the alert, as the histories below use them |
| Breaker.CircuitBreaker.RecordSuccess | crates/lazybones-ext/src/breaker.rs:142-147 | clears the streak of a known extension, never the trip |
| Breaker.CircuitBreaker.Reset | crates/lazybones-ext/src/breaker.rs:172-177 | forgets the extension |
| Breaker.TrippedIffRun | crates/lazybones-ext/src/breaker.rs:121-157 | after any history, tripped exactly when the calls since the last reset hold an uninterrupted run of `threshold` failures; the counter is the current streak, saturated |
| Breaker.AlertIffFirstRun | crates/lazybones-ext/src/breaker.rs:106-136 | an alert comes exactly on the call completing the first such run, and reports exactly `threshold` failures and the reason of that call |
| Breaker.OneAlertPerPeriod | crates/lazybones-ext/src/breaker.rs:106-109 | one alert per reset period that trips, none in the others |
| Breaker.Independent | crates/lazybones-ext/src/breaker.rs:77-86 | an extension's state depends only on its own calls |
| Cycle.AdmittedIff | crates/lazybones-ext/src/cycle.rs:164-178 | of the chain behind an event, admission sees the length and the last emitter |
| Cycle.SelfReentryAsDocumentedIff | crates/lazybones-ext/src/cycle.rs:39-43 | admission counts an extension's re-entries into itself, as documented, exactly when the bound is at most 1 or not below `max_depth` |
| Cycle.ChainReentryAsDocumentedIff | crates/lazybones-ext/src/cycle.rs:9-11 | it counts re-entries along the whole chain, as documented, exactly when chains are too short for them or the bound is not below `max_depth` |
| Cycle.CycleGuard.constructor | crates/lazybones-ext/src/cycle.rs:144-149 | no rate state at first |
| Cycle.CycleGuard.AllowEmitAt | crates/lazybones-ext/src/cycle.rs:189-205 | the decision and the charged table, as the histories below use them |
| Cycle.WindowBudget | crates/lazybones-ext/src/cycle.rs:189-205 | since its current window opened an extension had exactly `count` emissions admitted, within the budget; with a window of no length every call opens its own |
| Cycle.RateBound | crates/lazybones-ext/src/cycle.rs:189-205 | over every history with a non-decreasing clock, no interval one window long holds more than 2·budget − 1 admitted emissions (the budget itself for windows of at most one instant) |
| Cycle.BoundReached | crates/lazybones-ext/src/cycle.rs:189-205 | that bound is reached, for every budget and every longer window |
| Cycle.RollingLimitIff | crates/lazybones-ext/src/cycle.rs:44-48 | the documented rolling limit holds for all histories exactly when budget or window is at most 1 |
| Cycle.Independent | crates/lazybones-ext/src/cycle.rs:133-139 | extensions have separate budgets |
| Registries.SameSetOf | crates/lazybones-ext/src/registry.rs:362-370 | sorting and deduplicating decides set equality |
| Registries.Reconcile | crates/lazybones-ext/src/registry.rs:328-359 | the claims of the record that diverge from the manifest |
| Registries.ConflictsAre | crates/lazybones-ext/src/registry.rs:328-359 | those are exactly the diverging ones, in order, each once; none exactly when identity and the set of requests agree |
| Registries.InstallPolicy | crates/lazybones-ext/src/registry.rs:204-242 | an install is accepted exactly when the component holds a named manifest that exports something and requests only available capabilities, digest and record agree, and the grant is lawful; what is then recorded is as asked |
| Registries.InstallRefusal | crates/lazybones-ext/src/registry.rs:204-234 | when it is refused, the error names a fault the request really has |
| Registries.Registry.constructor | crates/lazybones-ext/src/registry.rs:189-193 | an empty registry, both maps mirroring the empty list |
| Registries.Registry.Install | crates/lazybones-ext/src/registry.rs:204-253 | the checks in order; success appends to the list with both maps in step, failure changes nothing |
| Registries.Registry.Index | crates/lazybones-ext/src/registry.rs:244-251 | indexing one record under each export it lists, repeats included, keeps both maps mirroring the list |
| Registries.Registry.FindByExport | crates/lazybones-ext/src/registry.rs:270-278 | the enabled records of the list exporting the interface, in install order, as often as the manifest lists it |
| Registries.Registry.SetEnabled | crates/lazybones-ext/src/registry.rs:285-293 | only that record's flag changes; the indexes stay in step |
| Registries.Registry.SetGrants | crates/lazybones-ext/src/registry.rs:299-307 | only that record's grants change |
| Registries.Registry.Remove | crates/lazybones-ext/src/registry.rs:311-322 | the list without the extension, both maps in step: no dead id, no empty entry |
| Registries.ExportingMembers | crates/lazybones-ext/src/registry.rs:182-186 | every id in an index list is registered |
| Registries.IndexesUnique | crates/lazybones-ext/src/registry.rs:182-186 | the list determines both maps |
| Registries.RemoveUndoesInstall | crates/lazybones-ext/src/registry.rs:309-322 | removing what was just installed restores the list, hence both maps |
| Dispatch.Dispatcher.constructor | crates/lazybones-ext/src/dispatch.rs:214-228 | the starting state over the given registry, breaker and guard |
| Dispatch.Dispatcher.FindTargets | crates/lazybones-ext/src/dispatch.rs:252-259 | the enabled exporters whose breaker has not tripped, in install order |
| Dispatch.Dispatcher.Trip | crates/lazybones-ext/src/dispatch.rs:264-272 | disables in the registry and sends one alert |
| Dispatch.Dispatcher.EvaluateGate | crates/lazybones-ext/src/dispatch.rs:293-305 | one guest call, its fail-closed verdict and its breaker effect |
| Dispatch.Dispatcher.RunGateChecks | crates/lazybones-ext/src/dispatch.rs:288-318 | the whole new state and the decision over the snapshot |
| Dispatch.Dispatcher.EnqueueEmitted | crates/lazybones-ext/src/dispatch.rs:399-437 | the allowed emissions, in order, one level deeper, appended to the queue |
| Dispatch.Dispatcher.DeliverTo | crates/lazybones-ext/src/dispatch.rs:369-391 | one guarded delivery |
| Dispatch.Dispatcher.DeliverToAll | crates/lazybones-ext/src/dispatch.rs:369-391 | one event to the whole snapshot, in order |
| Dispatch.Dispatcher.DispatchEvent | crates/lazybones-ext/src/dispatch.rs:348-394 | the worklist up to its ceiling of 256 events, and the number of guest calls made |
| DispatchWorklist.DeliverChildren | crates/lazybones-ext/src/cycle.rs:90-95 | every child is exactly one deeper than an admitted parent (the add never saturates), at most at `max_depth`, and carries its emitter |
| DispatchWorklist.TurnDescends | crates/lazybones-ext/src/dispatch.rs:354-392 | queued depths stay sorted and within one level of each other, and (levels left, events at the front level) strictly decreases |
| DispatchWorklist.CeilingIsBackstop | crates/lazybones-ext/src/dispatch.rs:45-49 | the worklist terminates without the ceiling; the ceiling leaves nothing exactly when the whole run fits, and then changes nothing |
| DispatchWorklist.DeliverExactly | crates/lazybones-ext/src/cycle.rs:157-178 | one event calls exactly the targets the depth and self-reentry bounds allow, in install order |
| DispatchWorklist.LawfulCallsInOrder | crates/lazybones-ext/src/dispatch.rs:369-391 | those calls, one by one: the target's id and component in the order of the targets, the event, and a view that tells what the event says |
| DispatchWorklist.EventRunInOrder | crates/lazybones-ext/src/dispatch.rs:348-394 | first in, first out: of the event and those its allowed emissions queued, the first `processed` (at most the ceiling) cause exactly their lawful calls, in order, and the others are dropped, only at the ceiling |
| DispatchWorklist.EventRunTells | crates/lazybones-ext/src/dispatch.rs:142-174 | every guest in an event call is told, field by field, of the event itself or of one below it: same task and run, no status change |
| DispatchWorklist.EventRunLog | crates/lazybones-ext/src/dispatch.rs:348-394 | at most as many invocations per target as the ceiling (256) allows events; each to a target of the snapshot, below `max_depth`, and never with its own event at `max_self_reentry` or deeper |
| DispatchWorklist.NeverOwnEvent | crates/lazybones-ext/src/cycle.rs:39-43 | from a host event, an extension is given its own event only below the self-reentry bound; with a bound of 1, never |
| DispatchWorklist.ProcessedIsCharged | crates/lazybones-ext/src/dispatch.rs:396-437 | however many turns are allowed, the events taken and left equal the queued ones plus the emissions charged to the rate table, in windows still open or expired during the run |
| DispatchWorklist.WorkBound | crates/lazybones-ext/src/dispatch.rs:45-49 | in every event call, cut short or not, k extensions queue at most k budgets of further events, and one more for each window that rolls over |
| DispatchWorklist.QuickWorkBound | crates/lazybones-ext/src/cycle.rs:189-205 | no window rolls over in a call shorter than one, so k budgets are the bound there |
| DispatchWorklist.SmallCallsAreComplete | crates/lazybones-ext/src/dispatch.rs:45-49 | when that bound stays within the ceiling, the ceiling never cuts the call short |
| DispatchWorklist.UnboundedWork | crates/lazybones-ext/src/dispatch.rs:45-49 | the worklist without its ceiling keeps the same bound |
| DispatchRecords.EveryEmitIsAsked | crates/lazybones-ext/src/dispatch.rs:399-437 | every emit action of a reaction is put to the limiter once, in order, under the reacting extension's id; an allowed one becomes an event of the parent's task and run with that kind, no status change and the provenance one step down |
| DispatchRecords.QueuedIsAdmitted | crates/lazybones-ext/src/cycle.rs:189-205 | the events queued for an extension in any interval are as many as the limiter admitted there |
| DispatchRecords.QueuedWithinBound | crates/lazybones-ext/src/cycle.rs:189-205 | and so keep its rate bound |
| DispatchBreaker.EventRunKeeps | crates/lazybones-ext/src/dispatch.rs:383-389 | over a whole event call, for every extension: a trip is never undone, comes with exactly one alert and leaves it disabled; every alert is that of a faulted call, with its reason |
| DispatchBreaker.GateRunKeeps | crates/lazybones-ext/src/dispatch.rs:292-305 | over a whole gate call, likewise |
| DispatchBreaker.GateRunLog | crates/lazybones-ext/src/dispatch.rs:292-305 | a gate call runs each target once, in order, on its own component and the input given |
| DispatchBreaker.DispatchSetIff | crates/lazybones-ext/src/dispatch.rs:249-259 | the snapshot holds exactly the registered, enabled exporters of the interface whose breaker has not tripped |
| DispatchBreaker.DispatchSetInOrder | crates/lazybones-ext/src/dispatch.rs:249-259 | and holds them in install order, each as often as its manifest lists the interface, with its component |
| DispatchBreaker.BlocksAreFailing | crates/lazybones-ext/src/dispatch.rs:307-317 | the reasons are those of the failing targets, one each, in order, as id and message; a fault says that the gate failed closed |
| DispatchBreaker.GateFaithful | crates/lazybones-ext/src/dispatch.rs:285-318 | the branch lands exactly when every target ran cleanly and did not say fail |
| DispatchBreaker.CleanGatesNeverAdvance | crates/lazybones-ext/src/dispatch.rs:276-283 | a gate that does not fault never comes closer to a trip, whatever the other gates of the call do |
| DispatchBreaker.CleanCallDisablesNothing | crates/lazybones-ext/src/dispatch.rs:276-283 | a call in which none faults disables and alerts nothing |
| DispatchBreaker.DisabledLeaves | crates/lazybones-ext/src/registry.rs:266-278 | disabling takes exactly that extension out of every dispatch list |
| DispatchBreaker.FaultingGateBlocksThresholdTimes | crates/lazybones-ext/src/dispatch.rs:288-318 | a sole gate that always faults blocks exactly `threshold` calls, whatever they ask, then has left the set with one alert sent |
| Routes.ExtensionRoutes.CreateRow | crates/lazybones-store/src/extension/create.rs:22-40 | strict creation: a taken id or a store failure changes nothing |
| Routes.ExtensionRoutes.Install | crates/lazybones-api/src/routes/extensions.rs:268-308 | row and record together or neither, then the bytes; when the row is not written both registry maps are as before |
| Routes.ExtensionRoutes.Delete | crates/lazybones-api/src/routes/extensions.rs:313-329 | row, bytes and record go together; the answer says whether there was a row |
| Routes.ExtensionRoutes.SetEnabled | crates/lazybones-api/src/routes/extensions.rs:353-367 | row first, then the registry; nothing on failure |
| Routes.ExtensionRoutes.SetGrants | crates/lazybones-api/src/routes/extensions.rs:373-400 | only a lawful grant is written, to both copies |
| Routes.InstallEffect | crates/lazybones-api/src/routes/extensions.rs:245-309 | an accepted install adds one disabled row and one disabled record without grants, taken from the component, under the id asked for or the one derived from the digest; a refused one changes nothing |
| Routes.DeleteEffect | crates/lazybones-api/src/routes/extensions.rs:313-329 | a delete takes one extension and leaves the others as they were, in order |
| Routes.SetEnabledEffect | crates/lazybones-api/src/routes/extensions.rs:353-367 | enable and disable set the flag of row and record and change nothing else |
| Routes.SetGrantsEffect | crates/lazybones-api/src/routes/extensions.rs:373-400 | a grant is accepted exactly when strings and policy allow it; then row and record hold what was asked for and nothing else changes |
| Routes.GrantRefusalIsFault | crates/lazybones-api/src/routes/extensions.rs:386-388 | a refused grant names a string that is at fault |
| Routes.InstallKeeps | crates/lazybones-api/src/routes/extensions.rs:245-309 | install keeps the two copies coherent |
| Routes.DeleteKeeps | crates/lazybones-api/src/routes/extensions.rs:313-329 | so does delete |
| Routes.SetEnabledKeeps | crates/lazybones-api/src/routes/extensions.rs:353-367 | so do enable and disable |
| Routes.SetGrantsKeeps | crates/lazybones-api/src/routes/extensions.rs:373-400 | so does a grant, and every live grant stays lawful |
| Routes.InstallBacksIff | crates/lazybones-api/src/routes/extensions.rs:296-308 | after an install every row still has its bytes, unless just their write failed |
| Routes.DeleteBacksIff | crates/lazybones-api/src/routes/extensions.rs:318-325 | after a delete every row still has its bytes exactly when no other row held the same component |
| Routes.TripKeeps | crates/lazybones-ext/src/dispatch.rs:264-272 | so does a breaker trip, which touches the registry alone |
| ExtensionSystem.AlwaysInStep | crates/lazybones-api/src/routes/extensions.rs:20-26 | from any stored rows and bytes, after any interleaving of routes, gate and event calls, resets and restarts: registered ids have rows, identity, exports and grants agree, registry-enabled implies row-enabled, grants are lawful, and every emit decision since the last start was the limiter's |
| ExtensionSystem.EmissionsBounded | crates/lazybones-ext/src/cycle.rs:189-205 | over any such run, with a clock that never goes back, the events queued for an extension since the last start keep the rate bound in every interval one window long |
| ExtensionSystem.TrippedIffFaultRun | crates/lazybones-ext/src/breaker.rs:121-157 | over any such run, an extension is tripped exactly when its own guest calls since its last reset hold `threshold` faults in a row |
| ExtensionSystem.RestartForgets | crates/lazybones-cli/src/serve.rs:67 | after a restart a stored extension is in no dispatch set and is never called, whatever follows, until it is deleted |
| ExtensionSystem.DeleteAndInstallRevives | crates/lazybones-api/src/routes/extensions.rs:268-329 | deleting and installing it anew registers it; installing alone changes nothing |
| ExtensionSystem.InvokedWereEligible | crates/lazybones-ext/src/dispatch.rs:249-259 | whatever an operation invokes was registered, enabled and not tripped when it began, and exports `gate-check` or `event-reaction`, whichever it was called as |
| ExtensionSystem.DisableWorks | crates/lazybones-api/src/routes/extensions.rs:344-367 | a successful disable clears the row's flag and takes the extension out of every dispatch set |
| ExtensionSystem.DisabledStaysUncalled | crates/lazybones-api/src/routes/extensions.rs:344-351 | and it is never called again, whatever follows, until an operation enables it |
| ExtensionSystem.NeverEnabledNeverCalled | crates/lazybones-api/src/routes/extensions.rs:241-244 | nothing runs that was not enabled since the daemon started |
| ExtensionSystem.ApplyAccount | crates/lazybones-ext/src/dispatch.rs:264-272 | the operation in which an extension trips sends one alert and leaves it disabled |
| ExtensionSystem.TripsLast | crates/lazybones-ext/src/breaker.rs:72-75 | a tripped extension is never invoked again by a later operation until a reset or a restart, whatever enable, delete or re-install steps intervene; alerts equal trips |
| ExtensionSystem.EnableWorksIff | crates/lazybones-api/src/routes/extensions.rs:331-367 | enabling puts an extension into a dispatch set exactly when its breaker has not tripped and the registry has a record of it exporting the interface |
| ExtensionSystem.EnableDoesNotRevive | crates/lazybones-api/src/routes/extensions.rs:331-339 | so enabling a tripped extension brings it back into no dispatch set |
| ExtensionSystem.SharedBytesAreLost | crates/lazybones-api/src/routes/extensions.rs:318-325 | from an empty daemon: any installable component installed under two ids, then deleted under one, leaves the other without its bytes |

## Left out

- The markdown parser, Typst and the PDF and HTML templates: their input and output are this model's boundary; `image_sources` is a deduplicating filter over parser events.
- The wasm host, its limits and the guest interface types: a guest call is an arbitrary function of the call number, the component digest and the input.
- Manifest decoding and digests: a component is its decoded manifest (or the reason it has none) and its digest; the blob store is the set of digests it holds, and a failed write or delete changes nothing there.
- Interleaving inside one call: `dispatch_event` and `run_gate_checks` await guests without holding locks; the model runs each call, each locked method and each route as one step.
- The session check at the head of every route, the MCP twins of the routes, and the manual invoke route.
- Error texts of the registry and the manifest checks, except the reasons a gate block aggregates; a record conflict names the fields that diverge without their values.
- `parse_status`: its rename field order and git's documentation disagree, so no round trip is stated for it; branch, worktree and pull-request parsing is not part of this model.
- Default tunings (threshold 5; depth 4, self-reentry 1, 20 emissions per 10 seconds) and the ceiling of 256 events: results are stated for all settings of the code's 32-bit range; where one depends on a setting, its statement says how.
- ConverterTokens.EmitReads: blanks between tokens are not part of the meaning; the exact characters are the subject of ConverterRefinement.MachineRefinesEmit.
- Emissions across a restart: the limiter starts afresh then, so its bound is stated from the last start on.
- RepoTreeLayout.LevelsAgree: assumes git-shaped paths, as `git ls-files` prints them; RepoTree.FullTree and RepoTree.FromLsFiles are stated for every input.
