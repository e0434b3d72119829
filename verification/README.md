# The playground's headless logic, proved

The circuit playground is a web page around a compiler and an engine. Beneath
its user interface lies logic in TypeScript that touches no page element: it
edits memory images, keeps several files in one source, runs simulation
sessions and the console that drives them, counts revisions and operations, and
runs verification requests for agents. This project models that logic in Dafny
and proves what it is relied on for.

    dafny verify dfyconfig.toml

checks all of it.

## What is modelled

**Memory images.** `RomImage` is the parser of an image's text, `RomWords` the
editor that turns text into words, edits them and prints them again beside a set
of addresses it only implied, `MemoryPanel` the spelling of single words. The
text and the set together are shown to be nothing but a finite partial map from
addresses to words, and edits to be updates of that map. `RomText` and `PanelText`
say of texts and words themselves what they mean.

**Files in one source.** `SplitFiles`, `SplitRoundTrip` and `SplitByteExact` are
the marker-line format: when a join can be split again, what splitting loses, and
when it loses nothing; `SplitMeaning` reads it off the source. `Mutations` plans
batches of file operations on top of it, and `Batches` says what each has done.
`Utf16`, `Columns`, `Diagnostics` and `Paging` carry positions and chunks between
UTF-8 columns, UTF-16 offsets, files and the combined document, and `Positions`
says where a place told in lines and bytes is.

**The session and its console.** `SimProtocol` is the request grammar and
`Requests` which lines are which requests; `SimSession` a session over a runtime,
with `Drives` and `Memories` on what its calls do to pins and cells; `SimExecutor`
the replies and `Answers` what they say; `Console` the lines printed for what
happened. `Replay` proves that the log, taken as a script,
reproduces the session and prints the log again. `TruthView` enumerates a truth
table on a scratch session. `Lifecycle` follows the runtimes through resets.

The runtime is foreign code. It appears as a machine: functions from a state to
the next, to what is read back and to whether it settled. What is asked of it is
stated where it is used: for replay, that two states it cannot tell apart stay
alike under the same calls, where bits that are not defined are not told apart
either; for evals and truth tables, that an input keeps what it was last set to,
for pokes that a cell does and, for the last result about tables, that settled
outputs depend on the inputs alone. Pin names are
words without white space, and widths are at most 64.

**Bookkeeping.** `Operations`, `Retention` and `Waits` are the store of background
operations and of those who wait on them; `Lifecycle` and `WebMcpAdapter` are
step systems, where each piece of code between two awaits is one step and the
steps may come in any order; `Revisions` and `Tracking` are the scheme of tokens and
what a page shows under them; `Verification`, `Rules` and `VerificationRun` validate
and run requests against whatever the world does; `PlaygroundStore` and `Saving`
make saved projects fit.

`Numbers`, `Collections` and `Wrappers` hold arithmetic, facts about sequences and
sets, and the two sum types used throughout.

Where the source changes objects in place there is a class whose methods are
proved against a function on values; the invariants and the theorems about whole
runs are about those functions. What such a function means is said a second time
without it: by the texts, lists and steps that go in and what comes out.

## Findings

- A listener of `reset-started` that calls `reset` finds no reset in progress
  yet, so two runtimes can load at once (site/src/scripts/sim-session.ts:452-457).
  No runtime leaks even so. `Lifecycle.OneResetInFlight` gives the exact condition
  and `Lifecycle.NestedResetsOverlap` a run.
- A batch planned on a project without files ends with its active index one past
  the last file (site/src/scripts/playground-mutations.ts:77-135):
  `Mutations.ActiveInRange` gives the exact condition and
  `Mutations.EmptyProjectRunsPast` a batch.
- In hex a word that prints with a leading `0b` reads back as binary, and a word
  known in part never reads back (site/src/scripts/memory-panel.ts:192-225):
  `MemoryPanel.ReadsBack` and `MemoryPanel.BeginsBinary` give the exact condition
  and `MemoryPanel.ElevenReadsNothing` a word.
- A duplicate name is reported as a conflict although it does not disturb the
  round trip (site/src/utils/split-files.ts:92-117): `SplitRoundTrip.RoundTripExactly`
  and, for any two such files, `SplitRoundTrip.RepeatedNameSurvives`.
- A chunked read of a text with two low surrogates in a row can stop at an offset
  no further read accepts (site/src/scripts/playground-reads.ts:67-82).
  `Paging.ReadsExactly` gives the exact condition and
  `Paging.StrayLowsBreakReading` a text. Pages of generated text rebuild every text.
- Making a text fit may evict a project that is left out of the text anyway, which
  frees nothing (site/src/utils/playground-store.ts:430-453).
  `PlaygroundStore.EvictionFrees` and `PlaygroundStore.WastedExactly` give the exact
  condition, for one eviction and for a whole run, and
  `PlaygroundStore.CrowdedWastes` a run.
- The retry after a full storage may be handed as much as was refused, or more: the
  project evicted for it may be left out of the text, or may make room for images
  that were skipped (site/src/utils/playground-store.ts:454-470).
  `PlaygroundStore.RetryWeighs` gives the exact condition and
  `PlaygroundStore.RetryGrows` a case.
- An operation identifier whose number is spelled otherwise than the page spells it
  is answered as expired although the operation is open
  (site/src/scripts/playground-operations.ts:45-51). `Retention.ExpiredExactly` gives
  the exact condition and `Retention.RespelledExpiresEarly` a case.

## Model

| member | source | states |
|---|---|---|
| `RomImage.ReadWord` | site/src/utils/rom-image.ts:79-83 | gathers the bytes of one word lowest first; the result is the little-endian value of that slice, whatever the bytes |
| `RomImage.LittleEndianOfBytes` | site/src/utils/rom-image.ts:79-83 | a word taken apart into bytes and gathered again is the word, for every word the bytes can hold |
| `RomImage.ValidateImageBytes` | site/src/utils/rom-image.ts:137-160 | the three byte-level refusals in the order they are tried, with the word and the counts they name |
| `RomImage.AcceptedMeans` | site/src/utils/rom-image.ts:137-160 | bytes are accepted as so many words if and only if they are that many whole words, no more than fit, each within the data width |
| `RomImage.ReadToken` | site/src/utils/rom-image.ts:105-127 | one token: its prefix dropped, its first bad character or its odd length refused where it stands, else its bytes |
| `RomImage.ScanTokens` | site/src/utils/rom-image.ts:95-130 | the token loop: all bytes in order, or the first refusal |
| `RomImage.ParseRomImage` | site/src/utils/rom-image.ts:95-135 | the whole parser: comments and commas, tokens, then the byte checks |
| `RomImage.PairsScan` | site/src/utils/rom-image.ts:95-130 | text of whole digit pairs with nothing between them scans as exactly those pairs |
| `RomImage.HexIsCanonical` | site/src/utils/rom-image.ts:95-135 | the hex an accepted image reports parses again to the same image, for every accepted text |
| `RomWords.WordsOf` | site/src/scripts/rom-words.ts:34-46 | the words of a text, or the parser's refusal |
| `RomWords.WordsInFit` | site/src/scripts/rom-words.ts:34-46 | the words read from any text fit the memory: no more than its capacity, each within the data width |
| `RomWords.ImageOf` | site/src/scripts/rom-words.ts:48-59 | the loop that fills the byte array computes the image text of the words |
| `RomWords.ImageReadsBack` | site/src/scripts/rom-words.ts:34-59 | printing and parsing gives back the words, for every list of in-range words within capacity |
| `RomWords.EditWord` | site/src/scripts/rom-words.ts:77-121 | the edit through text: address, width and parse refusals, the gap filled and implied, trailing implied words dropped |
| `RomWords.EditThroughText` | site/src/scripts/rom-words.ts:77-121 | a legal edit of a readable image prints words that parse back to the edit made on words |
| `RomWords.StandsMeans` | site/src/scripts/rom-words.ts:10-32 | text and implied set stand for a partial map if and only if the length is one past the largest chosen address, chosen words hold their values, every other word is zero, and implied is exactly the unchosen addresses below the length |
| `RomWords.StandsUnique` | site/src/scripts/rom-words.ts:10-32 | a map determines the words and the implied set |
| `RomWords.FreshStands` | site/src/scripts/rom-words.ts:34-46 | a readable text with nothing implied stands for all of its words |
| `RomWords.StepRefines` | site/src/scripts/rom-words.ts:77-121 | one write or un-write takes an image standing for a map to one standing for the map so changed; an illegal one changes nothing |
| `RomWords.RunRefines` | site/src/scripts/rom-words.ts:77-121 | the same after any run of writes and un-writes, legal or not |
| `RomWords.HistoryForgotten` | site/src/scripts/rom-words.ts:77-121 | two edited images are the same text and implied set if and only if their runs come to the same map |
| `RomWords.ImageCells` | site/src/scripts/rom-words.ts:126-135 | the whole memory as cells: the words of the text, then unknown up to the capacity |
| `MemoryPanel.FormatWord` | site/src/scripts/memory-panel.ts:54-79 | a known, unknown and partly known word spelled; the partial case is the loop over bits |
| `MemoryPanel.ReadsBack` | site/src/scripts/memory-panel.ts:192-225 | for every cell, width and format, parsing what was printed gives the cell if and only if it is wholly unknown, or wholly known and not printed in hex with a leading 0b |
| `MemoryPanel.BeginsBinary` | site/src/scripts/memory-panel.ts:192-225 | the printed hex begins with 0b if and only if the two top digits of the word are 0 and b |
| `MemoryPanel.ElevenReadsNothing` | site/src/scripts/memory-panel.ts:192-225 | such a word: 0x0b of eight bits prints as 0b, and 0b is refused as empty |
| `MemoryPanel.ParsesWhole` | site/src/scripts/memory-panel.ts:192-225 | a typed word is wholly known or wholly unknown, never in part |
| `Utf16.IsWellFormed` | site/src/scripts/playground-mutations.ts:29-38 | the pairing loop decides well-formed UTF-16 |
| `Utf16.WellFormedMeans` | site/src/scripts/playground-mutations.ts:29-38 | well-formed if and only if every high surrogate is followed by a low one and every low one follows a high one |
| `Utf16.JoinSplitLines` | site/src/utils/split-files.ts:21-23 | splitting on newlines and joining gives the text back |
| `Utf16.SplitJoinLines` | site/src/utils/split-files.ts:53-60 | joining lines without newlines and splitting gives the lines back |
| `SplitFiles.FileNameShape` | site/src/utils/split-files.ts:19-19 | a legal name is exactly one of the marker line's own shape, and its marker line is one line that is not blank |
| `SplitFiles.SplitOpensOf` | site/src/utils/split-files.ts:21-50 | the loop over lines with its current file computes the split |
| `SplitFiles.SplitFilesOf` | site/src/utils/split-files.ts:21-50 | the split of a source, with each file's start line |
| `SplitFiles.FindsInterruption` | site/src/utils/split-files.ts:98-112 | the scan finds a marker after content if and only if there is one |
| `SplitFiles.JoinConflicts` | site/src/utils/split-files.ts:92-117 | the conflict loop reports the conflicts in the order the source does |
| `SplitFiles.ConflictsMean` | site/src/utils/split-files.ts:80-117 | a conflict is in the report if and only if that file has that fault |
| `SplitRoundTrip.SplitIsClean` | site/src/utils/split-files.ts:21-50 | whatever is split, the only conflict its files can have is a repeated name |
| `SplitRoundTrip.RoundTripExactly` | site/src/utils/split-files.ts:21-117 | for every non-empty list of files, splitting their join gives back the same names and bodies if and only if no conflict but a repeated name is reported |
| `SplitRoundTrip.RepeatedNameSurvives` | site/src/utils/split-files.ts:92-117 | two files of one name with acceptable content: reported as a conflict, and given back by the round trip all the same |
| `SplitRoundTrip.SplitJoinSplit` | site/src/utils/split-files.ts:21-69 | for every source, splitting, joining and splitting again gives the names and bodies of splitting once |
| `SplitByteExact.OpensInPlace` | site/src/utils/split-files.ts:21-50 | every file's body is the run of source lines that starts at its start line, and they cover the source |
| `SplitByteExact.JoinSplitExactly` | site/src/utils/split-files.ts:21-69 | joining a split gives back the source unit for unit if and only if the last line opens no file, a leading main.circ marker is needed and every opening line is spelled as a join spells it |
| `Mutations.CheckEditsMeans` | site/src/scripts/playground-mutations.ts:59-68 | edits are accepted if and only if each is well-formed, inside, on scalar boundaries and clear of the one before it |
| `Mutations.ApplyEdits` | site/src/scripts/playground-mutations.ts:59-74 | checked first to last and applied last to first, accepted edits give the kept segments interleaved with the replacements |
| `Mutations.EditsKeepWellFormed` | site/src/scripts/playground-mutations.ts:29-74 | accepted edits take well-formed text to well-formed text |
| `Mutations.PlanMutations` | site/src/scripts/playground-mutations.ts:77-135 | the batch: counts, each operation in turn, conflicts, size and the final round trip, with the failure, the operation blamed for it and the file it names |
| `Mutations.FilesFollow` | site/src/scripts/playground-mutations.ts:77-135 | every file that a name finds ends, under its own identity, exactly as the operations on its name have it, whatever the other operations do, or is gone if and only if one of them deletes it |
| `Mutations.ActiveFollows` | site/src/scripts/playground-mutations.ts:77-135 | through every accepted batch on a project with files the active index is in range and on the same file unless that file is deleted; if its name finds it, that file has the name and body the operations on its name have left it |
| `Mutations.ActiveInRange` | site/src/scripts/playground-mutations.ts:77-135 | the active index of an accepted plan is in range if and only if the project had files to begin with |
| `Mutations.FirstFileRunsPast` | site/src/scripts/playground-mutations.ts:77-135 | giving a project without files any acceptable first file is accepted and leaves the active index one past it |
| `Mutations.EmptyProjectRunsPast` | site/src/scripts/playground-mutations.ts:77-135 | such a batch: an empty main.circ created in a project without files |
| `Mutations.RoundTripNeverRejects` | site/src/scripts/playground-mutations.ts:129-132 | the final round-trip check is never what rejects a batch |
| `Mutations.AcceptedPlan` | site/src/scripts/playground-mutations.ts:77-135 | an accepted plan survives the marker format, has distinct names, keeps bodies well-formed and differs from the project when it creates or deletes |
| `Columns.ByteColToUtf16` | site/src/utils/columns.ts:6-17 | the counting loop gives the column of a byte target |
| `Columns.ColumnInvertsPrefix` | site/src/utils/columns.ts:6-17 | at every scalar boundary, the column of the UTF-8 length of the prefix is that boundary (UTF-8 as in section 3 of RFC 3629) |
| `Columns.ColumnIsFirstReaching` | site/src/utils/columns.ts:6-17 | any byte target gives the first boundary whose prefix reaches it, or the end of the line |
| `Diagnostics.IndexDoc` | site/src/scripts/circ-diagnostics.ts:71-83 | the loop records the lines and where each starts |
| `Diagnostics.LinesStand` | site/src/scripts/circ-diagnostics.ts:71-83 | every line stands in the document at the offset recorded for it |
| `Diagnostics.OffsetAtOf` | site/src/scripts/circ-diagnostics.ts:99-110 | a line and byte column, clamped, as an offset |
| `Diagnostics.LineOfOffset` | site/src/scripts/circ-diagnostics.ts:113-127 | the binary search returns the line the offset is on |
| `Diagnostics.OnLineUnique` | site/src/scripts/circ-diagnostics.ts:113-127 | an offset is on one line only |
| `Diagnostics.RangeToSpan` | site/src/scripts/circ-diagnostics.ts:130-158 | a range in a file as a span of the document, or nothing for a file that is not there |
| `Diagnostics.SpanIsSound` | site/src/scripts/circ-diagnostics.ts:130-158 | a span is within the document and not backwards, starts on a scalar boundary and, in a well-formed document, ends on one |
| `Diagnostics.WidenedExactly` | site/src/scripts/circ-diagnostics.ts:146-158 | in any document a widened end falls on a scalar boundary if and only if it does not strand half of a pair |
| `Diagnostics.SpanIsShifted` | site/src/scripts/circ-diagnostics.ts:93-158 | for a range inside one of a document's files, the span is the file's own span moved by where the file starts |
| `Paging.ReadAdvances` | site/src/scripts/playground-reads.ts:67-82 | a read at a scalar boundary succeeds and its next offset is a later boundary |
| `Paging.TextPageAdvances` | site/src/scripts/playground-inspection.ts:17-23 | the same of a page of generated text |
| `Paging.ReadsExactly` | site/src/scripts/playground-reads.ts:67-82 | for each of the two readers and any text: following the next offsets from 0 succeeds and rebuilds the text for every choice of legal sizes if and only if the reader is the pager, or the text has no two low surrogates in a row past its first unit |
| `Paging.WholeTextReads` | site/src/scripts/playground-reads.ts:67-82 | a well-formed text comes back whole from both readers, in chunks that are well-formed |
| `Paging.StrayLowsBreakReading` | site/src/scripts/playground-reads.ts:67-82 | a text with two low surrogates in a row, read to an offset the next read refuses |
| `SimProtocol.Accumulate` | site/src/scripts/sim-protocol.ts:63-92 | the digit loop with its early exits reads the literal's value or refuses it |
| `SimProtocol.ParseValueOf` | site/src/scripts/sim-protocol.ts:63-92 | signs, prefixes and the zero-only negatives of a literal |
| `SimProtocol.HexReadsBack` | site/src/scripts/sim-protocol.ts:63-95 | a value written in hex reads back as itself exactly below 2^64 and not at all above |
| `SimProtocol.ParseEvalOf` | site/src/scripts/sim-protocol.ts:204-229 | the loop over the tokens of an eval: assignments, one arrow, queries |
| `SimSession.SimSession.SetPin` | site/src/scripts/sim-session.ts:352-360 | a set: refusals, the drive, poisoning when it does not settle, and the event told when it does |
| `SimSession.SimSession.EvalPins` | site/src/scripts/sim-session.ts:382-401 | an eval: every assignment and query checked first, then driven in order until one does not settle; what is read for each query is what a get of it would give |
| `SimSession.SimSession.ResolveEach` | site/src/scripts/sim-session.ts:384-389 | the assignments resolved in order, or the first refusal |
| `SimSession.SimSession.PokeCell` | site/src/scripts/sim-session.ts:504-518 | a poke: memory, address, width and status refusals in order, then the write |
| `SimSession.SimSession.ClearMem` | site/src/scripts/sim-session.ts:537-548 | a clear |
| `SimSession.SimSession.ResetRuntime` | site/src/scripts/sim-session.ts:452-482 | a reset as one call: a new runtime with the preloads applied, unless it fails to load |
| `SimExecutor.ExecuteLine` | site/src/scripts/sim-executor.ts:89-179 | one request line to reply lines over a session object, as the specification over session values does it |
| `Console.ScriptOf` | site/src/scripts/console.ts:123-130 | the script of a log: echoes without their prompt and comments |
| `Replay.SetLineParses` | site/src/scripts/console.ts:185-191 | the line printed for a drive parses back to the set that did it, its mask left out exactly when the pin is wholly known |
| `Replay.PokeLineParses` | site/src/scripts/console.ts:197-198 | the same of a poke |
| `Replay.DrivesReproduce` | site/src/scripts/console.ts:185-191 | the sets printed for one eval, typed one after another, do what the eval did |
| `Replay.LogReplays` | site/src/scripts/console.ts:115-205 | for every run of set, eval, poke, clear and reset, refusals and no-settles among them: the script of the log, executed on a like session, prints the log again line for line and leaves that session sound and, unless the original is poisoned, the same |
| `Replay.ReplayReadsAlike` | site/src/scripts/sim-executor.ts:51-179 | after a run from a new session that is not poisoned, every pin and every cell of the replica reads alike |
| `TruthView.PackUnpack` | site/src/scripts/truth-view.ts:213-224 | the number packed from assignment i is i, the first unknown pin lowest |
| `TruthView.UnpackPack` | site/src/scripts/truth-view.ts:213-224 | every assignment within the widths has a number below 2^k, and that number unpacks to it |
| `TruthView.LiveRowIndex` | site/src/scripts/truth-view.ts:66-74 | the index of the first row whose inputs are the pins', or -1 when there is none or a pin is not wholly defined |
| `TruthView.DriveRowOn` | site/src/scripts/truth-view.ts:146-157 | the known cells of a row set in column order until the first refusal |
| `TruthView.UnknownInputs` | site/src/scripts/truth-view.ts:160-168 | the inputs not wholly defined, in order |
| `TruthView.HoldKnown` | site/src/scripts/truth-view.ts:201-211 | the known inputs captured and held on the scratch session |
| `TruthView.Attempt` | site/src/scripts/truth-view.ts:216-224 | assignment i shifted out and set pin by pin |
| `TruthView.TryEach` | site/src/scripts/truth-view.ts:213-233 | all assignments in turn, their outputs recorded |
| `TruthView.RowsForPins` | site/src/scripts/truth-view.ts:185-244 | the over-cap table, its refusals and its exceptions; the live session is only read |
| `TruthView.RowExtends` | site/src/scripts/truth-view.ts:201-233 | every row holds the known inputs at their live value and the unknown ones within their width |
| `TruthView.EveryAssignmentOnce` | site/src/scripts/truth-view.ts:201-233 | every such assignment is one row and no other, the one its unknown cells pack to |
| `TruthView.RowsAre` | site/src/scripts/truth-view.ts:213-233 | a table that is finished has exactly 2^k rows, row i with the inputs of assignment i |
| `TruthView.TabulatedIsProper` | site/src/scripts/truth-view.ts:225-243 | a finished table names input pins once each and has complete rows no two of which share inputs |
| `TruthView.DrivenRowIsLive` | site/src/scripts/truth-view.ts:63-157 | after a row of a proper table is driven successfully, the live row is that row |
| `TruthView.RowTellsOutputs` | site/src/scripts/truth-view.ts:213-233 | in a circuit whose settled outputs depend on its inputs alone, any session whose inputs read as row i has the outputs of row i: a cell with a value exactly when the pin reads that value whole, and one without exactly when some bit of the pin is unknown |
| `Lifecycle.OwnedKept` | site/src/scripts/sim-session.ts:452-482 | every step keeps the runtimes loaded and not destroyed the current one while alive and none after, and destroys none twice |
| `Lifecycle.RunKeeps` | site/src/scripts/sim-session.ts:452-596 | the same after any interleaving of resets, loads, failures, destruction and listeners' calls |
| `Lifecycle.OneResetInFlight` | site/src/scripts/sim-session.ts:452-482 | at most one reset is in flight throughout a run if and only if none is asked for by a listener while one is being announced |
| `Lifecycle.NestedResetsOverlap` | site/src/scripts/sim-session.ts:456-457 | a run in which a listener of reset-started resets again: two runtimes are loading at once |
| `Lifecycle.PoisonedMeans` | site/src/scripts/sim-session.ts:232-247 | after any run the session is poisoned if and only if its present runtime failed to settle while it was present and the session alive |
| `Lifecycle.Session.Loaded` | site/src/scripts/sim-session.ts:459-471 | the arrival of a reset's runtime: installed and the old one destroyed, or itself destroyed |
| `Lifecycle.Session.BeginReset` | site/src/scripts/sim-session.ts:452-456 | the half of a reset before its listeners are called |
| `Lifecycle.Session.ArmReset` | site/src/scripts/sim-session.ts:457-481 | the half of a reset after its listeners are called |
| `Lifecycle.Session.DestroySession` | site/src/scripts/sim-session.ts:587-595 | destruction, once |
| `Lifecycle.Session.ObserveFailure` | site/src/scripts/sim-session.ts:232-247 | poisoning by a failing runtime, only the present one |
| `Operations.StepKeeps` | site/src/scripts/playground-operations.ts:22-126 | every step keeps: records are the page's own; the unsettled waiters are exactly those subscribed, each to its own open operation; the slots taken are as many and at most 32; a wait given up on shows an unfinished operation and a finished one a finished operation |
| `Operations.RunKeeps` | site/src/scripts/playground-operations.ts:22-126 | the same after any interleaving of creates, starts, finishes, waits, timeouts and aborts; an outcome once settled stands and a closed record never changes |
| `Operations.StepAdvances` | site/src/scripts/playground-operations.ts:53-117 | one step: outcomes stand, closed records stay or are dropped, none comes back, and numbers only grow |
| `Operations.FinishSettles` | site/src/scripts/playground-operations.ts:107-117 | a finish settles everybody waiting with the finished record, even if it is evicted as it finishes |
| `Operations.GivenUpOpen` | site/src/scripts/playground-operations.ts:88-96 | when a wait times out or is cancelled its operation is still there and open |
| `Operations.RankIs` | site/src/scripts/playground-operations.ts:119-126 | of the sorted terminal records, those after one are what is newer than it |
| `Operations.OperationStore.EvictOldest` | site/src/scripts/playground-operations.ts:119-126 | sorting and dropping the oldest until enough are gone keeps exactly the records with fewer than the maximum newer |
| `Operations.OperationStore.CreateOperation` | site/src/scripts/playground-operations.ts:34-43 | a new operation under the next number |
| `Operations.OperationStore.LookUpId` | site/src/scripts/playground-operations.ts:45-51 | found, expired or not found, for identifiers spelled as the page spells them, spelled otherwise with a number, or without a number |
| `Operations.OperationStore.StartOperation` | site/src/scripts/playground-operations.ts:53-57 | only a queued operation starts |
| `Operations.OperationStore.FinishOperation` | site/src/scripts/playground-operations.ts:59-67 | only an open operation finishes: its record closed and returned, its waiters told, the oldest evicted |
| `Operations.OperationStore.TellListeners` | site/src/scripts/playground-operations.ts:107-117 | the listeners called in the order they subscribed and forgotten |
| `Operations.OperationStore.WaitFor` | site/src/scripts/playground-operations.ts:69-105 | a wait: answered at once, refused for want of a slot, or taking one |
| `Operations.OperationStore.TimeOut` | site/src/scripts/playground-operations.ts:93-96 | the timer of a wait |
| `Operations.OperationStore.AbortWait` | site/src/scripts/playground-operations.ts:92-103 | the abort of a wait |
| `Retention.NewestOfMore` | site/src/scripts/playground-operations.ts:119-126 | keeping the newest of what was kept and one more is keeping the newest of all and that one, whatever its age |
| `Retention.NewestAtMost` | site/src/scripts/playground-operations.ts:119-126 | the newest are at most the maximum |
| `Retention.NewestAll` | site/src/scripts/playground-operations.ts:119-126 | while no more than the maximum have finished, all of them are kept |
| `Retention.RunRemembers` | site/src/scripts/playground-operations.ts:22-131 | after any run the open operations are all there and the terminal records are exactly the newest of everything ever finished, by creation and number, in whatever order they finished |
| `Retention.RunLooksUp` | site/src/scripts/playground-operations.ts:45-51 | every number given out, spelled as the page spells it, is found or expired and none is not found; it is found exactly while it is open or among the newest finished; expired ones were finished; at most the maximum are terminal; spelled otherwise, it is always expired |
| `Retention.ExpiredExactly` | site/src/scripts/playground-operations.ts:45-51 | after any run, what an identifier is expired for had finished, if and only if it is not one whose number is spelled otherwise and whose operation is open |
| `Retention.RespelledExpiresEarly` | site/src/scripts/playground-operations.ts:45-51 | such an identifier, of the first operation of a page while it is queued and found under its own identifier |
| `Verification.StrictIsCanonical` | site/src/scripts/playground-simulation.ts:5-12 | a strict literal is accepted with a value if and only if it is that value's canonical spelling |
| `Verification.DecodedIsParsed` | site/src/scripts/playground-simulation.ts:28-34 | an image decoded pair by pair is what the image parser reads it as, accepted and refused alike |
| `Verification.DecodeImage` | site/src/scripts/playground-simulation.ts:28-34 | the bytes of an image text, or nothing |
| `Verification.ApartMeans` | site/src/scripts/playground-verification.ts:29-45 | names gathered in a set and never met again are pairwise different |
| `Verification.CheckImages` | site/src/scripts/playground-verification.ts:35-41 | passes exactly images of memories there are, each once, each readable, at most 16 |
| `Verification.CheckStep` | site/src/scripts/playground-verification.ts:44-62 | passes exactly well-formed steps whose actions and expectations name things there are and literals that fit them |
| `Verification.CheckSteps` | site/src/scripts/playground-verification.ts:42-63 | passes exactly steps that are, with no identifier twice, and counts them |
| `Verification.ValidateVerification` | site/src/scripts/playground-verification.ts:26-67 | accepts exactly the requests the declarative rules accept, counts cases, steps and assertions, and otherwise reports the first problem in the order of the request |
| `VerificationRun.ApplyImages` | site/src/scripts/playground-verification.ts:74-82 | the images applied in order; no lookup and no decoding of an accepted case comes back empty |
| `VerificationRun.Perform` | site/src/scripts/playground-verification.ts:111-117 | one action; no lookup and no parse of an accepted case comes back empty |
| `VerificationRun.RunActions` | site/src/scripts/playground-verification.ts:110-123 | the actions until one is refused, throws, or is followed by cancelling or the deadline, and how many were done |
| `VerificationRun.RunExpects` | site/src/scripts/playground-verification.ts:126-139 | the expectations judged in order until one throws or halts the run; each counter grows by the assertions of its sort, and the run is in error once one could not be read, and else failed once one read differs |
| `VerificationRun.RunStep` | site/src/scripts/playground-verification.ts:108-141 | a step reports its state, actions and assertions by how it ended, and a step that went well reports itself whole |
| `VerificationRun.FirstIsNext` | site/src/scripts/playground-verification.ts:142-146 | the first step an exception finds unreported is the one after those reported |
| `VerificationRun.RunCase` | site/src/scripts/playground-verification.ts:96-148 | a case on any of its ways out: its session, if it is made, is destroyed before the case is left; its reports, counters and exception path |
| `VerificationRun.Sweep` | site/src/scripts/playground-verification.ts:149-149 | every step still missing is reported once |
| `VerificationRun.NothingTwice` | site/src/scripts/playground-verification.ts:98-147 | in a log where each session is closed in its turn, none is made or destroyed twice |
| `VerificationRun.AsManySteps` | site/src/scripts/playground-verification.ts:149-150 | reports that cover every step and none twice are as many as the steps validated |
| `VerificationRun.ExecuteVerification` | site/src/scripts/playground-verification.ts:84-152 | for every mix of failures, exceptions, timeout, cancelling and stopping: each step of each case is reported exactly once; a session is made for exactly the cases that came up before the run was halted and could have one, and each is destroyed once and before the next is made; every reported assertion says what was written, what was read and whether they agree; the run is cancelled, timed out, in error, failed or passed as its reports and starts say, and passed exactly when everything went well; nothing is run once it is halted |
| `Revisions.SameSource` | site/src/scripts/playground-revisions.ts:23-25 | true if and only if the files are equal |
| `Revisions.SameTexts` | site/src/scripts/playground-revisions.ts:34-35 | true if and only if the maps are equal, though only one side is scanned |
| `Revisions.SameImages` | site/src/scripts/playground-revisions.ts:27-38 | true if and only if the image maps are equal, though only one side is scanned |
| `Revisions.FaithfulAnew` | site/src/scripts/playground-revisions.ts:86-115 | giving a fresh token for changed content keeps tokens equal exactly when content stayed the same |
| `Revisions.FaithfulAgain` | site/src/scripts/playground-revisions.ts:99-102 | so does giving the last token again for the same content |
| `Revisions.StepKeeps` | site/src/scripts/playground-revisions.ts:72-142 | every step keeps that for all five sorts of token, and the target at its project's source revision |
| `Revisions.TokensTellContent` | site/src/scripts/playground-revisions.ts:12-142 | over any run, for source, image, project, option and observation revisions: two tokens are equal if and only if they are of one owner whose content was the same throughout; the target's source revision is always its project's |
| `Revisions.RevisionAllocator.Next` | site/src/scripts/playground-revisions.ts:12-21 | a number never given before |
| `Revisions.RevisionTracker.ObserveProject` | site/src/scripts/playground-revisions.ts:86-115 | an observation: new, unchanged or changed, with the tokens it takes |
| `Revisions.RevisionTracker.SelectTarget` | site/src/scripts/playground-revisions.ts:122-128 | a target selected, or nothing of an unknown project |
| `Revisions.RevisionTracker.OptionsRevision` | site/src/scripts/playground-revisions.ts:130-139 | the revision of an option's value |
| `WebMcpAdapter.StepMoves` | site/src/scripts/webmcp-adapter.ts:40-94 | a step changes nobody's number of places but for the registration it obtains, as long as a publication overwrites nothing |
| `WebMcpAdapter.PublishesIntoNothing` | site/src/scripts/webmcp-adapter.ts:56-61 | a publication finds the adapter holding nothing and is of the current generation |
| `WebMcpAdapter.StepKeeps` | site/src/scripts/webmcp-adapter.ts:40-94 | every step keeps each registration in exactly one place, and what is held of the current generation |
| `WebMcpAdapter.RunKeeps` | site/src/scripts/webmcp-adapter.ts:40-94 | the same after any interleaving of starts, suspends, resumes and disposes |
| `WebMcpAdapter.AllDisposed` | site/src/scripts/webmcp-adapter.ts:82-94 | once all starts are over, nothing is held and the cleanup has run, each registration ever obtained was disposed of exactly once |
| `WebMcpAdapter.Adapter.BeginStart` | site/src/scripts/webmcp-adapter.ts:40-44 | a start up to its first wait |
| `WebMcpAdapter.Adapter.ProceedStart` | site/src/scripts/webmcp-adapter.ts:45-53 | a start after the cleanup, if it is still current |
| `WebMcpAdapter.Adapter.OnRegistered` | site/src/scripts/webmcp-adapter.ts:53-61 | a registration obtained: the next asked for, or all published, or all disposed of |
| `WebMcpAdapter.Adapter.OnRegisterFailed` | site/src/scripts/webmcp-adapter.ts:62-66 | a registration refused: those in hand disposed of |
| `WebMcpAdapter.Adapter.Stop` | site/src/scripts/webmcp-adapter.ts:69-86 | a suspend or a dispose |
| `PlaygroundStore.OldestIndex` | site/src/utils/playground-store.ts:395-401 | the scan finds the first of the least recently updated that may go, and none only when nothing may |
| `PlaygroundStore.EvictedMore` | site/src/utils/playground-store.ts:395-404 | evicting the oldest keeps: nothing lost or doubled, the kept project there, and whatever went no newer than whatever is left but the kept one |
| `PlaygroundStore.TrimToMax` | site/src/utils/playground-store.ts:709-723 | trims to the maximum unless only the kept project is left, evicting in the order of eviction and no further |
| `PlaygroundStore.Envelope.EvictOldest` | site/src/utils/playground-store.ts:395-404 | the oldest goes, everything else stays in place |
| `PlaygroundStore.OrderEvicts` | site/src/utils/playground-store.ts:395-404 | after any number of evictions in the order of eviction, whatever has gone is no newer than whatever is left but the kept one |
| `PlaygroundStore.EvictionFrees` | site/src/utils/playground-store.ts:446-453 | an eviction makes the text without images smaller, by the size of the project, if and only if the project was to be written and takes room |
| `PlaygroundStore.WastedExactly` | site/src/utils/playground-store.ts:446-453 | of a whole run of evictions exactly those freed nothing whose project is left out, or takes no room, and whose turn in the order comes while the text without its elders is over the cap |
| `PlaygroundStore.OversizedFirst` | site/src/utils/playground-store.ts:430-453 | whenever the oldest that may go is too large to be written and the rest is over the cap, a run of evictions begins with it and frees nothing by it |
| `PlaygroundStore.CrowdedWastes` | site/src/utils/playground-store.ts:430-453 | such a run: an oversized project older than nine of 30100 bytes goes first, and one of the nine after it |
| `PlaygroundStore.RetryWeighs` | site/src/utils/playground-store.ts:454-470 | the text of a retry loses what its eviction takes out and gains the images if they fit only then; it is smaller than the refused one if and only if the project takes room, and more than the images in case these come back |
| `PlaygroundStore.RetryGrows` | site/src/utils/playground-store.ts:454-470 | such a retry: storage refuses 206000 bytes without images and is handed 233000 with them |
| `PlaygroundStore.Envelope.FitProjects` | site/src/utils/playground-store.ts:446-453 | evicts in that order until the text is within the cap or only the kept project is left, and not once it is |
| `PlaygroundStore.Envelope.WriteEnvelope` | site/src/utils/playground-store.ts:422-476 | the write, its retry with one project less, every text handed to storage, when the second is smaller than the first, and the note for each way it can go; every text is within the cap unless only the kept project is left |
| `RomText.StripIsClean` | site/src/utils/rom-image.ts:96-99 | the three replacements one after another are one pass over the text in which a comment of either sort and a comma are a space |
| `RomText.TextMeans` | site/src/utils/rom-image.ts:95-121 | a text is read as these bytes if and only if its tokens, between white space, commas and comments, spell them one after another: two digits for each byte, the high one first, with or without 0x before them |
| `RomText.TextRefused` | site/src/utils/rom-image.ts:103-119 | a text that is not read is refused for its first token that spells nothing, naming its first bad character or its odd length |
| `RomText.ImageMeans` | site/src/utils/rom-image.ts:95-135 | an image is accepted if and only if its text spells whole words, no more than 2^A, each below 2^W, and is then those bytes, that count and their hex |
| `RomText.BytesRefused` | site/src/utils/rom-image.ts:137-160 | which of the three byte-level refusals it is, and the numbers it names |
| `RomText.HexSpells` | site/src/utils/rom-image.ts:125-125 | the hex reported spells the bytes in lower-case pairs |
| `PanelText.PartlyKnown` | site/src/scripts/memory-panel.ts:54-79 | a word known in part is printed with a character for each bit: those known spell the mask, and with zeros for those unknown the text spells the value |
| `PanelText.WhollyKnown` | site/src/scripts/memory-panel.ts:54-79 | a word known whole is printed in digits of the format that spell it, one for each bit in binary and one for every four in hex |
| `PanelText.PrefixDecides` | site/src/scripts/memory-panel.ts:192-225 | a prefix in either case decides the radix of a typed word whatever the format, and without one the format does |
| `PanelText.MeaningIs` | site/src/scripts/memory-panel.ts:208-224 | what typed digits are read as: a number that fits, or which of the three refusals |
| `PanelText.UnderscoresSkipped` | site/src/scripts/memory-panel.ts:196-196 | an underscore within a typed word changes nothing |
| `SplitMeaning.MarkerMeans` | site/src/utils/split-files.ts:19-19 | a line names a file if and only if it is two slashes, white space, a name ending in .circ and maybe white space |
| `SplitMeaning.ContentMeans` | site/src/utils/split-files.ts:27-27 | a body has content if and only if some unit of it is not white space |
| `SplitMeaning.InterruptedMeans` | site/src/utils/split-files.ts:105-112 | a body is interrupted if and only if a marker is a line of it after something visible |
| `SplitMeaning.ReportedIs` | site/src/utils/split-files.ts:80-117 | a conflict is reported if and only if the file has it, read off names and texts |
| `SplitMeaning.ConflictsInOrder` | site/src/utils/split-files.ts:92-117 | conflicts come file by file, of one file its name before its body, and none twice |
| `SplitMeaning.SplitMeans` | site/src/utils/split-files.ts:21-50 | the split of every source: how the first file is opened, that every other is opened by the marker line before its first line, has the lines up to the next marker line, and that a marker opens a file exactly when something visible came before it |
| `SplitMeaning.JoinFirst` | site/src/utils/split-files.ts:53-65 | the first file is joined with its marker, unless it is main.circ and its first line marks none |
| `SplitMeaning.JoinMore` | site/src/utils/split-files.ts:53-57 | every further one with its marker line after a newline |
| `Batches.EditsLand` | site/src/scripts/playground-mutations.ts:68-73 | accepted edits all take effect: each text stands where its range was, moved by the growth before it, and whatever is in no range is kept and moved likewise |
| `Batches.EditsRefused` | site/src/scripts/playground-mutations.ts:59-68 | edits are refused if and only if there are none or one is not clear, and for what is wrong with the first such |
| `Batches.StepIsDone` | site/src/scripts/playground-mutations.ts:96-121 | what each successful operation has done to the files, the active index and the lists; a created file stands before the last file, at the end or before the first file of the name given, under its name and with its body or the comment of its name |
| `Batches.StepIsRefused` | site/src/scripts/playground-mutations.ts:96-121 | an operation is refused for a reason if and only if there is that reason, by the names and texts there are |
| `Batches.PlanIsRun` | site/src/scripts/playground-mutations.ts:77-135 | an accepted plan is each operation done in turn from the files as they were; changed tells whether the files differ, and the three lists are what was renamed, created and deleted, in order |
| `Batches.PlanStops` | site/src/scripts/playground-mutations.ts:77-135 | a refused batch: too long, too many edits, stopped at the first operation refused as things stood by then, or unfit as a whole, and how |
| `Positions.BytesNeeded` | site/src/utils/columns.ts:10-15 | a code point takes as many bytes as its bits need and no more (UTF-8 as in section 3 of RFC 3629) |
| `Positions.OffsetClamps` | site/src/scripts/circ-diagnostics.ts:96-110 | lines and columns out of range count as the first or last |
| `Positions.SpanPoints` | site/src/scripts/circ-diagnostics.ts:130-158 | a range between two places told in lines and byte columns becomes the offsets of those places; one that is empty or backwards takes in the scalar it starts at |
| `Positions.FileNameIs` | site/src/scripts/circ-diagnostics.ts:85-89 | a source names a file of the page if and only if it is the first of its number and its path is that name in the page's directory |
| `Requests.TokensApart` | site/src/scripts/sim-protocol.ts:114-117 | the words of two texts with a blank between are those of the one and then those of the other |
| `Requests.LiteralMeans` | site/src/scripts/sim-protocol.ts:63-92 | a text is a literal of a value if and only if it is a sign, a prefix and digits that say it, below 2^64 and zero after a minus |
| `Requests.AssignMeans` | site/src/scripts/sim-protocol.ts:216-225 | a token is an assignment if and only if it is a pin, an equals sign, a literal and maybe a slash and a mask |
| `Requests.LineMeans` | site/src/scripts/sim-protocol.ts:113-236 | a line is a request if and only if, trimmed, it is something, is no comment, and its words are that request's: of every verb |
| `Answers.GetAnswers` | site/src/scripts/sim-executor.ts:119-124 | a get answers with value and mask of the first output of the name, or else the first input, or is refused |
| `Answers.PinsOfConcat` | site/src/scripts/sim-session.ts:371-377 | the pins of a dump are those of the kind asked for, in their order |
| `Answers.DumpAnswers` | site/src/scripts/sim-executor.ts:125-128 | a dump gives their number and a line for each |
| `Answers.PeekAnswers` | site/src/scripts/sim-executor.ts:161-164 | a peek answers for a cell of the first memory of the name, or refuses an address it does not have |
| `Answers.MemAnswers` | site/src/scripts/sim-executor.ts:169-173 | a range of cells: as many as asked for or as there are, each under its address |
| `Answers.ReadAllRows` | site/src/scripts/sim-session.ts:396-399 | the rows of an eval are the pins asked for, in order, each with what it reads |
| `Answers.RowsTold` | site/src/scripts/sim-executor.ts:129-137 | and are printed in that order, each as name, value and mask |
| `Drives.ResolvesInOrder` | site/src/scripts/sim-session.ts:384-389 | assignments resolve if and only if each does, to what each resolves to in their order, and are otherwise refused as the first that does not |
| `Drives.ResolveMeans` | site/src/scripts/sim-session.ts:338-344 | what one assignment resolves to, or is refused for |
| `Drives.EvalIsSets` | site/src/scripts/sim-session.ts:382-401 | an eval that passes its checks is its assignments set one after another, first to last, up to the first that does not settle, told at once |
| `Drives.EvalIsInert` | site/src/scripts/sim-session.ts:382-391 | one that does not does nothing and is refused for the first at fault, assignments before queries |
| `Drives.EvalReads` | site/src/scripts/sim-session.ts:382-401 | where inputs keep what they are set to, after an answered eval each input reads its last assignment, or what it read before |
| `Memories.PokeRefused` | site/src/scripts/sim-session.ts:504-512 | a poke is refused for its address before its value |
| `Memories.PokeShows` | site/src/scripts/sim-session.ts:504-518 | where cells keep what is written, an accepted poke is told as given and is what its cell then shows, and no other cell changes |
| `Memories.ClearShows` | site/src/scripts/sim-session.ts:537-548 | a clear leaves every cell of its memory unknown and no other changed |
| `Memories.ResetForgets` | site/src/scripts/sim-session.ts:452-482 | a reset leaves nothing of the session it was asked of |
| `TruthView.HeldAsRead` | site/src/scripts/truth-view.ts:160-211 | an input is tried if and only if some bit of it is unknown, and else held at the value it reads |
| `TruthView.OutcomeIs` | site/src/scripts/truth-view.ts:185-244 | refused over the cap or for a writable memory, with the scratch session as it was, and else a row for every assignment |
| `Waits.WaitEnds` | site/src/scripts/playground-operations.ts:69-105 | a wait that takes a slot in any run is answered by the first of its timeout, its abort and a finish of its operation, at once if it was aborted as it waited, with the record as it then stood in the run, and not before |
| `Waits.EndsExactly` | site/src/scripts/playground-operations.ts:69-105 | it ends as timed out, cancelled or finished if and only if the first of the three is its timeout, its abort or the finish |
| `Waits.WaitAnswers` | site/src/scripts/playground-operations.ts:69-74 | a wait that takes no slot: finished, timed out at once, refused with 32 open, or of nothing there |
| `Waits.RecordsTell` | site/src/scripts/playground-operations.ts:22-117 | after any run every record says what the steps did: when its operation was created, first started while open and first finished, and how |
| `Rules.AcceptedIs` | site/src/scripts/playground-verification.ts:26-67 | a request is accepted if and only if it keeps the rules, said of names, hex texts and counts: the limits, identifiers, targets, canonical literals below their bounds and images of whole words |
| `VerificationRun.ExpectMeans` | site/src/scripts/playground-verification.ts:69-139 | an expectation written as hex of a value and maybe of a mask holds if and only if exactly the bits of the mask, or all, were read as known and the value agrees there |
| `VerificationRun.JudgeCorrect` | site/src/scripts/playground-verification.ts:126-139 | every assertion says what was written, what was read and whether they agree |
| `VerificationRun.EndIs` | site/src/scripts/playground-verification.ts:84-152 | the state reports call for: cancelled or timed out when a step was stopped by that, else in error when a step was, an expectation could not be read or a case did not start, else failed when something read differs |
| `VerificationRun.HaltIs` | site/src/scripts/playground-verification.ts:84-147 | what ends a run early: cancelling, time and, when asked for, a mismatch or anything else that went wrong but a read |
| `Tracking.RunShows` | site/src/scripts/playground-revisions.ts:72-142 | after any run the tracker shows of each project what was last observed, of each option what was last chosen and as target the file last selected of a project then known, each under tokens of its own sort |
| `Tracking.EpochsMove` | site/src/scripts/playground-revisions.ts:122-128 | a select of a known project takes a new epoch, and nothing else moves the target's |
| `Paging.ReadIsLongest` | site/src/scripts/playground-reads.ts:67-82 | in a well-formed text either reader's page ends at the last scalar boundary its size allows, or past the one pair there is no room for |
| `Paging.RefusedExactly` | site/src/scripts/playground-reads.ts:73-73 | when a read is refused, for each of the two readers |
| `Saving.LeftAt` | site/src/utils/playground-store.ts:395-404 | however many have gone, the rest keep their order |
| `Saving.NextGoesFirst` | site/src/utils/playground-store.ts:395-404 | the next to go is, of all that are left and may go, the earliest, and of one time the first of the list |
| `Saving.SkippedAre` | site/src/utils/playground-store.ts:434-435 | left out of what is written are the projects over 32 KiB of source, in order |
| `Saving.TextIs` | site/src/utils/playground-store.ts:438-444 | the images are in the text if and only if the whole is at most 256 KiB, or there are none |
| `Saving.StopsIs` | site/src/utils/playground-store.ts:446-453 | eviction goes on exactly while the text without images is over 256 KiB |

## Left out

- Everything that draws or listens to the page: canvas, editor, theme, drawers,
  splitter, file tabs and layout.
- The compiled engine, its renderer and its worker: the runtime appears only as
  the machine described above.
- JSON, regular expressions, `TextEncoder`, `Array.sort` and `Map` order:
  replaced by explicit functions, a size that is a sum of parts, and lists.
- Promises, timers and abort signals: each is a step that may happen; nothing is
  said about when. A wait for earlier work may end early in the model, which only
  adds runs.
- Values of the wrong JavaScript type, integers beyond 2^53 and numbers that are
  no integers: addresses and counts are integers, and requests are well-typed.
- The spelling of identifiers: revisions, operations and registrations are known
  by their sequence number, which determines the spelling; an operation identifier
  asked about is one so spelled, one with its number spelled otherwise, or neither.
- Images loaded as files: `load` answers as the page's file source does, which
  refuses every path, and image events are comments in a log and not replayed.
- The bytes `storeImage` gives, `loadImage` and the merging of preloads into a plan
  (site/src/utils/rom-image.ts:208-296): a new runtime comes with its preloads.
- A bare `run` in the replayed runs: it tells its listeners nothing that is logged.
- The scrollback's cap, the command history and the help table of the console:
  they change what is shown or recalled, and no line that is logged or executed.
- The revision check and the wording of refusals in `readFile`; listing projects;
  the caches of rendered schematics and truth tables.
- Removing repeated diagnostics between tabs: its key mixes byte and UTF-16
  columns, so it is not unique on lines with other than ASCII text.
- Lower-casing in `MemoryPanel` is of ASCII letters; a text with another letter
  whose lower case is ASCII is not modelled.
- Share links, artifact hashes, settings and their clamping, the workspace tree
  and the document registry: nothing modelled here reads what they produce.
- VerificationRun.ExecuteVerification: the calls of a session and of the clock are
  arbitrary answers and not tied to `SimSession`, because the claim is about every
  mix of them; that the session has the pins and memories the request was validated
  against is taken from the caller. Yields between actions change nothing and are
  not shown.
- WebMcpAdapter.RunKeeps: disposing never throws; the source calls dispose again
  when it does. The displayed status, which is written after waits, is not modelled.
- SimSession.SimSession.ResetRuntime: one call from beginning to end; that a reset
  in progress is shared and can be overtaken by destruction is in `Lifecycle`.
- Lifecycle.RunKeeps: what listeners and the runtimes themselves do besides calling
  reset and destroy is not modelled.
- Operations.OperationStore.FinishOperation: what a finish patches in besides the
  state and the time is one field; the page's callers patch counts, failures,
  refusals and what was made, and none of the other fields modelled.
- PlaygroundStore.Envelope.WriteEnvelope: sizes are additive, so separators between
  array elements are part of a project's size.
