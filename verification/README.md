# Osxie: three verified components

A Dafny model, with proofs, of the three parts of Osxie whose behaviour is not
a finite table: the WindowServer event pipeline, the assertion macros, and the
desktop script's two bookmark rewriters. `dafny verify dfyconfig.toml` checks
everything.

**The event pipeline** (`src/WindowServer/CGSEventPipeline.c`). `EventQueue` is
the queue its callers are owed, a bounded first-in first-out queue. `EventRing`
is the array with one free slot, as a class updated in place. `Pipeline` is the
protocol: any number of threads, one mutex, one condition variable, every ring
access of a call a step of its own, signals that may wake several threads, wakeups nobody
signalled. The ring has any size N of at least 2 (256 in the code).
`PipelineSafety` has the invariant, `PipelineHistory` linearizability and what
follows from it, `PipelineInit` and `PipelineSplitInit` what an initialisation
does to calls in flight, `PipelineProgress` bounded settling.

**The assertion macros** (`basic-headers/AssertMacros.h`). `CSyntax` and
`CSemantics` are the fragment of C the macros live in, with goto, local scopes
and side effects; a macro use is itself a statement there, run by the one rule
the header documents. `AssertMacros` transcribes the header's templates, for the
production and the debug build, and `MacroNames` states name by name what each
use does. `Expansion` proves that replacing the uses by
the templates preserves meaning; `Builds` and `BuildTraps` compare the builds;
`Traces` and `Counting` are about messages and how often
arguments are evaluated; `CParsing` prints the expanded
program and reads it back with the nearest-if rule for `else`. `MacroShapes` and
`Hygiene` hold the lemmas these share.

**The bookmark rewriters** (`scripts/setup_desktop_integration.py`). `TextFiles`
is text-mode reading, lines, substrings; `Bookmarks` the GTK bookmarks file;
`Places` the KDE places file, with `PlaceBlock` for the text it inserts and
`Markup` for how that reads.

Where the code falls short of what one would expect, the model follows the code
and the theorem says exactly when it does not:

- The initialiser is two stores without a lock. What callers observe is explained
  by the queue in every interleaving exactly when there is no thread, or all of
  them are in gets that have not found a record and the tail is at slot 0
  (`SplitInitExactly`); from every other state, the first one included, some
  interleaving fills the ring with records nobody posted.
- If nothing runs between the two stores, what callers observe is that of a queue
  emptied at that moment exactly when no thread is acting on an index test
  (`ClearFirstExactly`), and is explained at all exactly when the call in the
  critical section stands at a harmless place (`InitExactly`): a post whose next
  tail is slot 0 or 1, or a peek whose record is also in slot 0. The same holds if
  no thread tests the indices, stores or publishes between them
  (`SplitWithoutTest`). Under a get a whole initialisation fills the ring as well
  (`UnguardedInitFabricatesRecords`).
- The two builds of the macros differ in five ways: a check with a side effect, a
  message with a side effect, an error code lost in the conversion to `long`, a
  `break` or `continue` in the action of a verify on an error code (which can turn
  a loop into an endless one), and a client variable called `evalOnceErrorCode`.
  `UseAgreesExactly` has the exact condition for every macro, whatever its argument
  and message mention, if the action leaves that name alone; `NameTrapExactly` has it
  for actions that do not. Agreement is about variables and
  outcome, and, with `traced`, about the sequence of client calls as well.
- A bookmarks file whose last line lacks its newline loses that line at the
  second update, and a directory with a line break in its path leaves lines behind
  (`IdempotentExactly`, `SeriesOfUpdates`).
- The comment in the script says the KDE block goes before the last closing tag.
  The code puts it before every one; the two coincide exactly when there is one
  (`InsertedBeforeLastTagExactly`). A carriage return in the directory's name
  makes the script insert again on every pass (`PlacedTwiceExactly`). The path goes
  into the block as it stands: the block reads as one element with the directory
  in its href exactly when the path has no double quote and no `<` in it
  (`ReadsBackExactly`).

## Model

| member | source | states |
|---|---|---|
| EventQueue.AwaitedIsFirstNonEmpty | src/WindowServer/CGSEventPipeline.c:37-46 | whatever other threads do during its waits, a get takes the oldest record of the first non-empty queue it re-tests, and is still waiting exactly when no re-test finds one |
| EventQueue.AnswersConserve | src/WindowServer/CGSEventPipeline.c:20-57 | over any sequence of calls, what was queued and what was accepted is what was delivered, in order, followed by what is left, and that never exceeds the capacity |
| EventQueue.AllInOrder | src/WindowServer/CGSEventPipeline.c:20-57 | every reply of the sequence follows from what had entered and how many had left: refused exactly at capacity, waiting or nothing to see exactly when all had left, otherwise the next one to leave |
| EventRing.WindowShape | src/WindowServer/CGSEventPipeline.c:24-43 | the ring holds (tail - head) mod N records and the i-th oldest is in slot (head + i) mod N |
| EventRing.FullExactly | src/WindowServer/CGSEventPipeline.c:24-28 | the post's fullness test holds exactly when N - 1 records are queued, and more never are |
| EventRing.StoreMissesWindow | src/WindowServer/CGSEventPipeline.c:29 | a post's write changes no slot of the live window |
| EventRing.PublishAppends | src/WindowServer/CGSEventPipeline.c:29-30 | advancing the tail appends the written record and changes nothing else |
| EventRing.TakeDropsFirst | src/WindowServer/CGSEventPipeline.c:42-43 | the head slot holds the oldest record and advancing the head drops just that one |
| EventRing.Ring.constructor | src/WindowServer/CGSEventPipeline.c:6-10 | the ring starts empty |
| EventRing.Ring.Post | src/WindowServer/CGSEventPipeline.c:20-35 | an illegal argument exactly for a null record; refused exactly when N - 1 records are queued; otherwise accepted and appended, with no slot but the old tail's written; the reply and contents of the bounded queue |
| EventRing.Ring.Take | src/WindowServer/CGSEventPipeline.c:42-43 | hands out the first record and leaves the others in order |
| EventRing.Ring.Peek | src/WindowServer/CGSEventPipeline.c:48-57 | replies with the first record, or that there is none, and changes nothing |
| EventRing.Ring.Init | src/WindowServer/CGSEventPipeline.c:59-62 | empties the ring |
| EventRing.Ring.PerformAll | src/WindowServer/CGSEventPipeline.c:20-57 | any sequence of calls on the ring: conservation, and first-in first-out replies at capacity N - 1, as for the bounded queue, whose replies and contents these are |
| EventRing.Ring.GetNext | src/WindowServer/CGSEventPipeline.c:37-46 | the wait loop, with other threads' calls run during each wait, delivers what the bounded queue delivers |
| Pipeline.StepsInterleaveFreely | src/WindowServer/CGSEventPipeline.c:20-57 | the interleavings considered: an idle thread can make any call, every other thread can take its next step whatever the others do, only the mutex is waited for, a signal wakes any set of blocked threads that is not empty without need, and a blocked thread may wake by itself |
| PipelineSafety.InvKept | src/WindowServer/CGSEventPipeline.c:20-62 | every step of every thread keeps mutual exclusion, each thread's agreement with the ring, and the wakeup balance |
| PipelineSafety.NoWakeupIsLost | src/WindowServer/CGSEventPipeline.c:20-46 | in every state of every interleaving with a blocked get, the queued records are at most the woken gets that have not finished or blocked again, plus one for a post holding the mutex that is about to signal |
| PipelineSafety.LockDiscipline | src/WindowServer/CGSEventPipeline.c:23-56 | at most one thread in a critical section; only the owner touches the ring, re-tests after a wait included; nobody else's step changes it; waiting and unlocking free the mutex; no finished call holds it |
| PipelineSplitInit.SplitInitExactly | src/WindowServer/CGSEventPipeline.c:20-62 | the initialiser's two unlocked stores at any moment, with any steps of the other threads between and after them: explained by the queue in every interleaving, the clear placed anywhere between the stores, exactly when there is no thread or all are in gets that have not found a record and the tail is at slot 0 |
| PipelineSplitInit.SplitFailsFromStart | src/WindowServer/CGSEventPipeline.c:6-62 | from every initial state with a thread, some interleaving of the two stores is not explained |
| PipelineSplitInit.SplitActsAsOne | src/WindowServer/CGSEventPipeline.c:59-62 | if no thread tests the indices, stores or publishes between the two stores, the run is, event by event, one after a single reset |
| PipelineSplitInit.SplitWithoutTest | src/WindowServer/CGSEventPipeline.c:20-62 | so the two conditions below carry over to such runs |
| PipelineInit.ClearFirstExactly | src/WindowServer/CGSEventPipeline.c:20-62 | the case where nothing runs between the two stores: everything callers observe in every later interleaving is what a queue emptied at that moment would do, exactly when no thread is between an index test and its last use of the indices (or is a post that found the tail at 0) |
| PipelineInit.InitExactly | src/WindowServer/CGSEventPipeline.c:20-62 | the same case, when the call in the critical section may count as done just before the initialisation: explained in every later interleaving exactly unless that call has tested the indices and is a get that has not advanced the head, a post whose next tail is neither slot 0 nor slot 1, or a peek whose record is not the one in slot 0 |
| PipelineInit.CopiedIsReachable | src/WindowServer/CGSEventPipeline.c:20-43 | from every initial state a run leads to a get that has copied its record and not yet advanced the head |
| PipelineInit.UnguardedInitFabricatesRecords | src/WindowServer/CGSEventPipeline.c:42-62 | a whole initialisation in that run, and then the get's advance, leaves N - 1 queued records where one was ever posted, and no placement of the get's effect explains it |
| PipelineHistory.StepLinearizes | src/WindowServer/CGSEventPipeline.c:20-62 | one step's effect is an answer the bounded queue gives, and leaves it with what the ring then holds |
| PipelineHistory.Linearizable | src/WindowServer/CGSEventPipeline.c:20-62 | every interleaving is linearizable: effects in mutex order are a history of the queue of capacity N - 1 ending in the ring's contents, and each thread's events come as invocation, effect, response |
| PipelineHistory.ResponseHasItsEffect | src/WindowServer/CGSEventPipeline.c:20-57 | real-time order: in every run, between a call's invocation and its response lies exactly its own effect, with the same reply |
| PipelineHistory.RecordsConserved | src/WindowServer/CGSEventPipeline.c:20-62 | since the last initialisation, records accepted in order equal records delivered in order followed by those queued |
| PipelineHistory.PeekedThenTaken | src/WindowServer/CGSEventPipeline.c:20-57 | after a peek that saw a record, and any posts and peeks by any threads, the next get takes that record |
| PipelineHistory.LiveSlotsUntouched | src/WindowServer/CGSEventPipeline.c:24-43 | in the running protocol no step writes a slot of the live window, and only a take or an initialisation moves the head |
| PipelineProgress.SettlingIsBounded | src/WindowServer/CGSEventPipeline.c:20-46 | a run without new calls, unsignalled wakeups or initialisation has an explicit bound, whichever threads each signal wakes |
| PipelineProgress.SomeStep | src/WindowServer/CGSEventPipeline.c:20-57 | no deadlock: unless the mutex is free and every thread idle or blocked, some thread can move |
| PipelineProgress.SettledExactly | src/WindowServer/CGSEventPipeline.c:20-57 | such a run can go on exactly until that state |
| PipelineProgress.Flow | src/WindowServer/CGSEventPipeline.c:20-46 | along it every take closes one open get and removes one record, every publication adds one |
| PipelineProgress.Progress | src/WindowServer/CGSEventPipeline.c:37-46 | from any reachable state, with any calls in flight, it ends with exactly min(queued + published, open gets) gets served and the rest blocked on an empty queue |
| PipelineProgress.ProgressWithoutPosts | src/WindowServer/CGSEventPipeline.c:37-46 | with no post in flight, exactly min(queued, open gets) |
| MacroShapes.FormsHaveShape | basic-headers/AssertMacros.h:242-1193 | each of the 46 templates is the one its family (check, verify, require) and suffixes (noErr, Action, String, Quiet) call for |
| MacroNames.CheckWrappersNegate | basic-headers/AssertMacros.h:277-332 | the negating check wrappers expand to their base macros on the negated assertion, in both builds |
| MacroNames.VerifyWrappersNegate | basic-headers/AssertMacros.h:417-487 | so do the verify wrappers |
| MacroNames.RequireWrappersNegate | basic-headers/AssertMacros.h:666-868 | so do the require wrappers without an action |
| MacroNames.ActionWrappersNegate | basic-headers/AssertMacros.h:719-930 | so do those with one |
| MacroNames.WrappersReport | basic-headers/AssertMacros.h:277-692 | a wrapper reports exactly when its own argument is true, with the negation in the text |
| MacroNames.WrappersLeave | basic-headers/AssertMacros.h:666-780 | a require wrapper goes to its label exactly then |
| MacroNames.QuietFormsAreOne | basic-headers/AssertMacros.h:768-1091 | the four quiet macros have one definition for both builds |
| MacroNames.QuietUsesAreSilent | basic-headers/AssertMacros.h:768-1060 | in debug too they leave nothing but the argument's effects and the goto |
| MacroNames.ChecksVanish | basic-headers/AssertMacros.h:242-398 | the four check macros and the bare message are empty in production |
| MacroNames.VerifyStringsVanish | basic-headers/AssertMacros.h:417-566 | in production a verify's message is not there |
| MacroNames.RequireStringsVanish | basic-headers/AssertMacros.h:666-868 | nor a require's; quiet or not makes no difference |
| MacroNames.CodeStringsVanish | basic-headers/AssertMacros.h:950-1135 | the same for error codes |
| MacroNames.ActionStringsVanish | basic-headers/AssertMacros.h:719-1193 | the same with an action |
| MacroNames.ProductionVerifies | basic-headers/AssertMacros.h:417-513 | in production a verify evaluates its argument once and goes on |
| MacroNames.ProductionVerifyActions | basic-headers/AssertMacros.h:589-646 | one with an action runs it exactly when the assertion is false or the code not zero |
| MacroNames.ProductionRequires | basic-headers/AssertMacros.h:666-960 | a require goes to its label exactly then |
| MacroNames.ProductionRequireActions | basic-headers/AssertMacros.h:719-1012 | one with an action runs it first, and goes on after a break or continue |
| MacroNames.DebugAssertions | basic-headers/AssertMacros.h:277-688 | in debug a false assertion adds exactly one message, with its own text, line and label |
| MacroNames.DebugStrings | basic-headers/AssertMacros.h:242-482 | the string forms add theirs with the message given; the bare message always |
| MacroNames.DebugRequireString | basic-headers/AssertMacros.h:842-864 | the same for a require |
| MacroNames.DebugCodes | basic-headers/AssertMacros.h:350-974 | an error code that converts to a non-zero long adds one message with its text and that value |
| MacroNames.DebugCodeStrings | basic-headers/AssertMacros.h:386-1135 | with the message given |
| MacroNames.DebugVerifyAction | basic-headers/AssertMacros.h:629-646 | then the action runs, after the message |
| MacroNames.DebugRequireAction | basic-headers/AssertMacros.h:719-746 | and a require goes to its label after it |
| MacroNames.DebugRequireActionString | basic-headers/AssertMacros.h:898-926 | with the message given |
| MacroNames.DebugVerifyCodeAction | basic-headers/AssertMacros.h:589-608 | a verify on an error code keeps a break or continue of its action in |
| MacroNames.DebugRequireCodeAction | basic-headers/AssertMacros.h:1001-1030 | a require on one as on an assertion |
| MacroNames.DebugRequireCodeActionString | basic-headers/AssertMacros.h:1165-1193 | with the message given |
| MacroNames.MessageIsReadTwice | basic-headers/AssertMacros.h:212-482 | a function called for a message is called twice, once if it gives null |
| Hygiene.ExecFrame | basic-headers/AssertMacros.h:353-362 | a statement in which a name is not free runs the same whatever the variable holds and leaves it alone, so the debug local cannot be noticed |
| Hygiene.ExpandFree | basic-headers/AssertMacros.h:353-1191 | no expansion lets the debug local escape, however uses are nested in actions |
| Expansion.MacroCorrect | basic-headers/AssertMacros.h:242-1193 | each template does what its macro is documented to do, given that its action does |
| Expansion.ExpandCorrect | basic-headers/AssertMacros.h:49-1193 | the expanded program has the same variables, outcome, and trace of calls and messages as the documented meaning of the uses, in production always and in debug when the local's name is left alone; so the debug messages are exactly the failed non-quiet uses, in order |
| Builds.ExpandIsMacroFree | basic-headers/AssertMacros.h:242-1193 | expansion leaves no use behind, in either build |
| Builds.BuildEquivalence | basic-headers/AssertMacros.h:275-1193 | if the local's name is left alone and the production run meets no trap, both expansions end with the same variables and outcome, and, when checks and messages make no calls, with the same sequence of client calls |
| BuildTraps.TameBuildEquivalence | basic-headers/AssertMacros.h:275-1193 | the same from the text alone: check arguments and messages without side effects, control-deciding error codes of a type no wider than long, no free break or continue in the action of a verify on an error code |
| BuildTraps.UseAgreesExactly | basic-headers/AssertMacros.h:242-1193 | for every macro, whatever its argument and message mention, with any trap-free action that leaves the local alone, the exact condition under which both builds agree on one use: a check leaves the program where it was, its message included; an argument that passes in both was evaluated to the same effect; one that fails in one build only has an action that does nothing and no goto; one that fails in both finds debug in the same world, unless only the debug form keeps a break or continue in, or has an action that makes up for the difference |
| BuildTraps.UnmentionedEffectShows | basic-headers/AssertMacros.h:242-1193 | an action makes up only for variables it mentions: any other difference a message or a code leaves behind tells the builds apart |
| BuildTraps.ActionlessAgreesExactly | basic-headers/AssertMacros.h:417-1193 | every verify and require form without an action, whatever it mentions: the builds agree exactly when debug, seen from outside the local's scope, ends where evaluating the argument leaves production, and a require fails in both or in neither |
| BuildTraps.RequireOfTheNameExactly | basic-headers/AssertMacros.h:950-974 | a require on a variable of the local's name, which the debug form initialises from itself, agrees exactly when the client's value and the converted unset value are both zero or both not |
| BuildTraps.CheckAgreesExactly | basic-headers/AssertMacros.h:275-294 | a check agrees across builds exactly when evaluating it changes no variable and, if calls count, makes none |
| BuildTraps.RequireNoErrAgreesExactly | basic-headers/AssertMacros.h:950-974 | a require on an error code agrees exactly when the code is 0 or not a multiple of the range of long |
| BuildTraps.VerifyNoErrActionAgreesExactly | basic-headers/AssertMacros.h:589-608 | a verify on an error code with an action agrees exactly when a failing code's action does not end in break or continue |
| BuildTraps.VerifyStringAgreesExactly | basic-headers/AssertMacros.h:212-482 | a verify with a message agrees exactly when it passes or comparing the message with null as the header writes it, and then reading it, leaves the program where it was |
| BuildTraps.MessageTrap | basic-headers/AssertMacros.h:212-482 | a failing verify whose message assigns a variable agrees exactly when the variable already held that value |
| BuildTraps.DebugScope | basic-headers/AssertMacros.h:242-1191 | every debug form, with no condition on what it mentions: error code, message and action run in the scope of the local, unset while the code is evaluated and holding the converted code afterwards, and the client's own value is back at the end |
| BuildTraps.NameTrapExactly | basic-headers/AssertMacros.h:589-1191 | every form with the local and any action, the local's name included: the builds agree exactly when the action, run in production alone from the client's world and from the one with the local in it, ends alike once the client's variable is put back |
| BuildTraps.NameCopied | basic-headers/AssertMacros.h:589-606 | for an action that copies the variable of that name: they agree exactly when the code passes or the client's value equals the code |
| BuildTraps.BreakTrap | basic-headers/AssertMacros.h:589-608 | a loop left by `break` in such an action ends in production and never ends in debug |
| Traces.SilentPrograms | basic-headers/AssertMacros.h:753-817 | programs whose uses are all quiet print nothing in either build |
| Traces.ProductionIsSilent | basic-headers/AssertMacros.h:242-1193 | no production build prints anything |
| Counting.EvaluationsCounted | basic-headers/AssertMacros.h:275-1193 | evaluate once, along every run of every program: a function called only in the arguments, of any form, of the uses on a line is called as often as one evaluation of the argument calls it, for each of those uses that the run executes, a check's in debug only |
| Counting.OneCallIsDueOnce | basic-headers/AssertMacros.h:275-294 | for an argument that is one call, through the negating wrappers too, that is exactly once |
| Counting.MessagesCounted | basic-headers/AssertMacros.h:242-1193 | along every run of every program, one message for each failing non-quiet use that a debug run executes, and no others |
| Traces.RequireControlFlow | basic-headers/AssertMacros.h:666-1193 | every require form in both builds: passing leaves only the argument's effects; failing reports, runs the action once and goes to the label, or goes on with the next statement after a break or continue |
| CParsing.ReadBackExactly | basic-headers/AssertMacros.h:589-646 | printed text is read back as the same tree exactly when no `else` in it would be taken by another `if` |
| CParsing.ActIsTextual | basic-headers/AssertMacros.h:593-642 | placing an action in a template is the preprocessor's textual substitution: the argument without its semicolon, in one piece because no comma in it stands outside parentheses, then the template's semicolon |
| CParsing.FormIsClosed | basic-headers/AssertMacros.h:242-1193 | no template ends in an `if` that could take an `else`, whatever its action |
| CParsing.StatementClosure | basic-headers/AssertMacros.h:242-1193 | an expanded program is read back as meant exactly when the client's own ifs are well nested, each use counting as one closed statement |
| CParsing.ElseStaysWithItsIf | basic-headers/AssertMacros.h:589-646 | `if (c) MACRO; else rest` keeps its `else` for every macro in both builds |
| TextFiles.LinesOfText | scripts/setup_desktop_integration.py:36-37 | splitting a text gives lines that concatenate to it, all ending in a newline but perhaps the last |
| TextFiles.LinesOfListing | scripts/setup_desktop_integration.py:37-41 | lines written out are the lines read back |
| TextFiles.LineEndsRead | scripts/setup_desktop_integration.py:36-37 | each of the three line ends is read as one newline |
| Bookmarks.UpdateBookmarks | scripts/setup_desktop_integration.py:33-41 | the new text is the kept lines and then `file://`, the directory, a space, `Applications (Osxie)` and a newline |
| Bookmarks.KeepsExactly | scripts/setup_desktop_integration.py:37 | the lines kept are exactly those that contain neither `Applications (Osxie)` nor the directory, where they stood |
| Bookmarks.OneMarkedLineExactly | scripts/setup_desktop_integration.py:33-41 | after any series of updates from any file, exactly one line has `Applications (Osxie)` in it, it is last and ends with the last directory's entry, written out, exactly when that path has no line break |
| Bookmarks.LinesOfRewritten | scripts/setup_desktop_integration.py:33-41 | for any file and directory, the lines read back after an update are the kept lines and the entry's lines, the first of these running on from a kept line without a newline |
| Bookmarks.IdempotentExactly | scripts/setup_desktop_integration.py:33-41 | for any file and directory, updating twice equals updating once exactly when the file's last line ends in a newline or mentions the marker or the directory (or there is none), and the path's only line break is a newline at its end or every line its breaks end has the marker in it |
| Bookmarks.VanishesExactly | scripts/setup_desktop_integration.py:33-37 | that condition on the path's line breaks holds exactly when the next update keeps no line of the entry |
| Bookmarks.PlainVanishes | scripts/setup_desktop_integration.py:33-37 | a path without line breaks meets the second half of that condition |
| Bookmarks.UnterminatedNotIdempotent | scripts/setup_desktop_integration.py:33-41 | a file of one line without a newline breaks the first half |
| Bookmarks.LineBreakNotIdempotent | scripts/setup_desktop_integration.py:33-41 | any path with a line break inside and no marker before it breaks the second half |
| Bookmarks.SeriesOfUpdates | scripts/setup_desktop_integration.py:33-41 | from any file or none, any series of updates leaves exactly the newline-terminated lines mentioning neither the marker nor any directory, in order, then what the last update keeps of an unterminated last line and of earlier entries, then the last entry |
| Bookmarks.LeavesExactly | scripts/setup_desktop_integration.py:37 | the untouched lines are exactly those that contain neither `Applications (Osxie)` nor any of the directories, where they stood |
| Bookmarks.SeriesOfPlainUpdates | scripts/setup_desktop_integration.py:33-41 | with no line breaks in the earlier paths nothing of earlier entries is left, and an unterminated last line outlives one update and never two |
| Places.ReplaceIsJoin | scripts/setup_desktop_integration.py:54 | replacement changes nothing between the occurrences, and joining with the original text undoes the split |
| Places.PartsAreFree | scripts/setup_desktop_integration.py:54 | no occurrence is left between the occurrences found |
| Places.ReplaceAll | scripts/setup_desktop_integration.py:54 | the left-to-right scan gives the parts between the occurrences joined with the new text |
| Places.InsertChanges | scripts/setup_desktop_integration.py:50-56 | an insertion always shows in the file, newline translation or not |
| Places.AddPlace | scripts/setup_desktop_integration.py:45-57 | the file is rewritten exactly when it has `</xbel>` in it and does not mention the directory; the new text is then the text read with the block, written out, before every `</xbel>`, and mentions the directory; no file stays no file |
| PlaceBlock.BlockTags | scripts/setup_desktop_integration.py:52 | the block's tags in order, for a path that can stand in an attribute |
| PlaceBlock.ReadsBackExactly | scripts/setup_desktop_integration.py:52 | a reader finds one element, every tag closed innermost first, and the directory in its href, exactly when the path has no double quote and no `<` in it |
| Places.InsertedBeforeLastTagExactly | scripts/setup_desktop_integration.py:51-54 | one block before every closing tag and no other change; one block before the last tag exactly when there is one tag |
| Places.CuttingTheBlockUndoes | scripts/setup_desktop_integration.py:52-54 | with one closing tag, cutting the block out gives back the text that was read |
| Places.PlacedTwiceExactly | scripts/setup_desktop_integration.py:45-57 | a second pass changes nothing exactly when the directory has no carriage return or there is no closing tag |

## Left out

- Availability.h, AvailabilityInternal.h, AvailabilityMacros.h, AvailabilityVersions.h, TargetConditionals.h, ConditionalMacros.h: tables and finite choices.
- The compile-time check macro, the lower-case aliases and the choice of output routine in AssertMacros.h: renaming and I/O; a message is one trace event.
- The layout of event records, the numeric error values and the connection identifier: a record is an abstract type, a reply a small datatype.
- Initialising in the protocol model: it is one step, taken only while the mutex is free, because the code's two unlocked stores have no defined meaning beside another thread's; `PipelineInit` covers it, as one step, at every other moment, and `PipelineSplitInit` in its two stores.
- Fair scheduling: progress is stated as a bound on runs and where they stop.
- EventRing.Ring.GetNext: the other threads' calls during a wait are a parameter, and the method returns when they run out; the blocking itself is in the protocol model.
- Gotos into a nested block, returns, and client functions that write client variables behind the expression's back: no template uses them; a stateful function is written with an assignment.
- A message that is an assignment is taken as written without parentheses, as the header takes it; one in parentheses is not expressible.
- Entities, comments and attribute normalisation in the places file: a tag is read from `<` to the next `>` outside double quotes.
- The order in which C evaluates operands that it leaves unspecified: the expressions here have none.
- File-system errors, encodings, and the rest of the desktop script (launchers, icons, Haiku links).
- The other stubs and wrappers of the repository: no behaviour of their own.
