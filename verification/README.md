# Verified models of the code layout, diff, event and annotation components

This project models five components of the repository and proves what they are for. A byte string is
a sequence of `char`s, one for each byte; where the source decodes UTF-8, so does the model
(`GoStrings`). Costs are integers: every `float64` cost in the source is a small whole number.

## What is modelled

**Code layout** (`LayoutSpec`, `LayoutRecursion`, `LayoutDP`, `Wrap`, `LayoutLaws`). `LayoutSpec` says what a layout
means without saying how it is found: a vector of decisions, one for each token, is played by a
typewriter that prints the lines and adds up the cost. `Best` picks one vector: legal, cheapest, and
among equals the one that breaks last. `LayoutDP` is the dynamic program with its cache as a class.
Its result is the rendering and the cost of the best vector, every cache entry is the uncached
recursion's solution, and at most `n(n+1)/2 + 1` subproblems are solved. The cost is the code's own:
the column advances by bytes while overflow is measured in characters, and a token behind a break
never pays for overflow. `LayoutLaws` says what that cost is in columns, and that the best layout fits
where that is possible with cheap breaks. The cache keys leave out the indent; a lemma shows two rows with different
indents that disagree about the same key, so a cache is good for one indent only.

**Python tokens** (`Python`, `PythonJoining`, `PythonLines`, `PythonText`, `PythonExamples`). Tokenizing sets the bracket
flags; the rules of sections 2.1.5 to 2.1.7 of the Python Language Reference on joining lines and on
blank lines are written down on their own. Every break that layout puts into a row is joined away
again, and the tokens and line ends that are read are those that the printed lines carry, line by line.
The logical lines of a whole buffer are not always kept, because layout ends every row without a
backslash: the scanner has dropped the backslashes of the original, and layout does not see that a
string goes on on the next line. They are kept if and only if, wherever a row is joined to the next one by
nothing but a backslash or a string that goes on, there are no words yet, or no words between there and
a row that ends its line. So nothing is lost inside brackets or behind a string of several lines that
ends its statement, but `x = 1 + \` with `2` on the next line becomes two statements. Also, an empty
string runs together with a string behind it.

**Gap buffer, patches and buffer sync** (`ByteText`, `GapBuffer`, `Patch`, `BufferSync`). The gap buffer
is a class over an array; each operation refines an edit of a plain byte sequence. A delete that does
not find its text changes nothing. Applying the diffs
made from an edit script gives the new text, with every delete matching. Offsets go over the wire as
`int32`: for new texts below 4 GiB the round trip holds if and only if every offset of the script
fits, and below 2 GiB it always does; one byte appended to 2 GiB is an example that fails.
`BufferDriver` stays equal to the editor's text over faithful runs. If it starts out of step with an
editor that sends checksums and answers the flag, it is out of step for one event at most, unless the
checksums collide after that event; a run shows that a collision can go unnoticed. An empty full text
counts as no text, so it clears nothing.

**Events** (`EventBlocks`, `BlockWriter`, `EventDriver`, `EventStore`, `EventThreads`, `EventInvariant`,
`EventProgress`, `EventRemoval`, `EventHandling`, `EventTooLate`). `EventBlocks` has the functions that pack a
stream into blocks, and what they keep: a block is closed before its time only if the next event does
not fit or somebody flushes, which bounds the number of blocks.
`BlockWriter` and `EventDriver` are the objects, proved against these functions. `EventStore` and
`EventThreads` are the whole system as a state machine: threads that handle, flush, wait, tick, look
up and remove drivers, under the store's lock and the drivers' locks, and background writers whose
writes may fail any number of times, all interleaved at will. Proved over every run: no event is lost,
doubled or reordered, each being in exactly one place; after a flush and a wait the events are
durable; there is no deadlock, and every step but a failed write brings the system closer to the end.

Removing a driver makes durable what it had accepted before. An event that another thread hands to
the driver between the wait and the unlisting comes too late: a run is given in which all calls
return, a flush of the store among them, and the event is not stored. In general a flush of the store
reaches a stream if and only if its driver is listed or there is nothing to hand on, and an unlisted
driver is left alone by every flush and tick of the store for as long as nobody calls it.

**References** (`References`). One sweep over the lines gives each reference the line and the column
that a search of its own would give. If any reference begins before the source, the sweep runs out
of lines and returns none at all.

**Annotated output** (`Blobs`, `Stencils`, `Annotate`, `Coverage`, with `Decimal`). Parsing printed blobs gives them
back if and only if they meet stated conditions; the one about output that ends in a part of the open
marker is needed because that marker overlaps itself. What any other text is parsed as is stated as well. The runnable program has one line for each
line of the source, and the line map is strictly increasing and faithful. The interleaver puts
each line that it places in front of the first annotation at or past it, and drops a chunk exactly if
all of its lines are blank. Behind the last annotation it counts in lines of the program instead of
lines of the presentation. `Coverage` states exactly which lines are then found in which segments: an
example without blank lines keeps all of them if and only if the last annotation is at or past the
last line shown, and the first line is lost if there is no annotation. Annotations can be merged if
and only if the lines they name never go back; what an example emits can name a line itself.

## Model

| member | source | states |
|---|---|---|
| LayoutSpec.Row.BestIsUnique | kite-go/codewrap/dp.go:142 | legality, least cost and the rule for ties leave exactly one decision vector, so being best leaves the program no choice |
| LayoutSpec.Row.RenderedIsFlat | kite-go/codewrap/dp.go:108-151 | the lines printed for a vector, joined, are the indent and then every token once and in order, with only a space, nothing, or a break and its indent between two of them |
| LayoutSpec.WidthCountsCharacters | kite-go/codewrap/dp.go:44-54 | on well-formed UTF-8 the width counts characters and tab stops, however many bytes a character takes |
| LayoutSpec.LeadingIndentIs | kite-go/codewrap/dp.go:8-20 | the indent of a line is the columns of the white space characters that it starts with, tabs by their stops, up to the first other character |
| GoStrings.DecodeIs | kite-go/codewrap/dp.go:46 | what ranging over a string yields is the scalar value whose UTF-8 encoding comes next, or the error rune for one byte if there is none |
| GoStrings.SpacesAre | kite-go/codewrap/dp.go:13 | the white space characters are those of Unicode |
| LayoutLaws.LegalIff | kite-go/codewrap/dp.go:134-137 | breaks are allowed only between two tokens, and exactly where the first of them does not refuse |
| LayoutLaws.OverflowIsPerColumn | kite-go/codewrap/dp.go:121-124 | nothing is charged exactly if the text ends within the columns, and each column past them costs 15 |
| LayoutLaws.TotalCostIs | kite-go/codewrap/dp.go:121-149 | a layout costs what its breaks cost and 15 for each column past the limit, not counting tokens that start a line |
| LayoutLaws.BestFitsIfCheaplyPossible | kite-go/codewrap/dp.go:154-155 | the best layout pays no more for breaks and columns past the limit than any other; if some layout keeps every token it places on a running line within the columns, with breaks that cost less than one column past the limit, so does the best one |
| LayoutRecursion.PlainIsTailOfDecisions | kite-go/codewrap/dp.go:102-152 | the recursion returns text and cost of its own decisions as defined by the independent reading of a vector |
| LayoutRecursion.DecisionsAreBest | kite-go/codewrap/dp.go:126-148 | from any subproblem on, no legal decisions are cheaper than the recursion's, and equally cheap ones break earlier |
| LayoutRecursion.TypewriterFinishes | kite-go/codewrap/dp.go:128-147 | text and cost built from the back of the row agree with those typed from the front, at every token of every legal vector |
| LayoutRecursion.PlainIsBest | kite-go/codewrap/dp.go:102-152 | the uncached recursion returns the rendering and the cost of the best of all legal vectors |
| LayoutDP.KeysUpTo | kite-go/codewrap/dp.go:57-60 | the subproblems that can come up at the first n tokens are at most n(n+1)/2 + 1 |
| LayoutDP.ReachableStep | kite-go/codewrap/dp.go:126-140 | from a column that is settled by where its line started, both recursive calls go to such columns |
| LayoutDP.SameKeyOtherIndent | kite-go/codewrap/dp.go:88 | rows that differ only in their indent disagree about the same cache key, so the key is sound for one indent only |
| LayoutDP.LayoutDP.Solve | kite-go/codewrap/dp.go:87-99 | with any cache that agrees with the recursion it returns the recursion's solution, keeps agreement, forgets nothing, and evaluates as often as it adds entries |
| LayoutDP.LayoutDP.SolveImpl | kite-go/codewrap/dp.go:102-152 | one evaluation returns the recursion's solution and touches no entry for this token or an earlier one |
| LayoutDP.LayoutDP.ConsiderBreak | kite-go/codewrap/dp.go:135-149 | the solution is replaced exactly when breaking is legal and strictly cheaper |
| LayoutDP.MeasureWidth | kite-go/codewrap/dp.go:44-54 | the loop computes the width |
| LayoutDP.MeasureIndent | kite-go/codewrap/dp.go:8-20 | the loop computes the width of the leading white space |
| Wrap.LayoutLine | kite-go/codewrap/dp.go:156-170 | the lines are the rendering of the best vector of the tokens at the indent of the raw line, or one empty line if there are no tokens, found with at most n(n+1)/2 + 1 evaluations |
| Wrap.BestLinesAreBest | kite-go/codewrap/dp.go:154-155 | the lines of any best vector are the lines that layout returns |
| Wrap.Layout | kite-go/codewrap/wrap.go:61-73 | the output is the best lines of every row in order; the lines that the map ties to a row are the best lines of that row, and the map never goes back |
| Wrap.OffsetsIncrease | kite-go/codewrap/wrap.go:65-70 | the stretches follow each other and none is empty |
| Python.WordsStayApart | kite-go/codewrap/python.go:13-86 | of names, keywords and literals the printed text keeps two apart exactly if the first is a name or keyword or the second is a keyword; a colon never has a space in front |
| Python.Spacing | kite-go/codewrap/python.go:13-86 | the exact pairs of tokens with a space in between |
| Python.CostsOfBreaks | kite-go/codewrap/python.go:113-155 | which tokens can be broken behind, at what cost, and what a break leaves there |
| Python.PrintedAs | kite-go/codewrap/python.go:168-173 | a token is printed as its literal, or as its spelling if it has none |
| Python.BracketsCount | kite-go/codewrap/python.go:103-110 | each kind of opening bracket counts up, each kind of closing bracket down, and nothing else counts |
| Python.TokenizePython | kite-go/codewrap/python.go:181-230 | it fails exactly if a token begins past the last line; otherwise each row holds the tokens of its line in scan order, flagged with whether a bracket is open behind them, and the scanner's errors are passed on; if lines never go back the rows together are the scan |
| PythonJoining.BreakIsJoined | kite-go/codewrap/python.go:113-155 | a legal break never follows a comment; inside brackets it leaves nothing, outside it leaves a backslash |
| PythonJoining.BreaksVanish | kite-go/codewrap/python.go:147-155 | a Python reader that joins lines by sections 2.1.5 and 2.1.6 reads the pieces of a broken row as those of the unbroken one, and ends in the same state |
| PythonJoining.LayoutReadsAsRows | kite-go/codewrap/wrap.go:65-71 | whatever legal breaks are put into the rows of a buffer, it is read as rows that are not broken, each of which ends its line unless a bracket is open |
| PythonJoining.ScanTracks | kite-go/codewrap/python.go:199-227 | in rows that hold the tokens of a scan in which no bracket closes that was not open, the flags say where brackets are open |
| PythonLines.ReadIsSpelledAlways | kite-go/codewrap/python.go:147-155 | what is read of any text is its words with a newline wherever a line ends behind a word for the first time |
| PythonLines.SameLinesIff | kite-go/codewrap/python.go:198-227 | rows that all end their lines are read as the original, whose lines may be joined, exactly if nothing has been parted |
| PythonLines.LayoutKeepsLogicalLinesIff | kite-go/codewrap/wrap.go:61-73 | whatever legal breaks layout puts in, the logical lines of the original are kept exactly if every row that only a backslash or a token that goes on joins to the next has no words up to its end, or none between it and a row that ends its line |
| PythonLines.JoinedWordsAreParted | kite-go/codewrap/python.go:211-226 | a row with words that is so joined to a row with words becomes a logical line of its own |
| PythonLines.BackslashIsLost | kite-go/lang/python/pythonscanner/scanner.go:590-599 | a sum over two lines joined by a backslash is read as two statements once laid out |
| PythonLines.BehindStringIsParted | kite-go/codewrap/python.go:211-218 | so is what stands behind a string of two lines |
| PythonLines.StringAloneIsKept | kite-go/codewrap/python.go:211-218 | a string of two lines with nothing behind it keeps its logical line |
| PythonText.RenderedCarriesPieces | kite-go/codewrap/dp.go:128-147 | the lines printed for a row carry exactly the pieces that it is read as: the same tokens line by line, with at most a space in between, and a backslash where the line is to be joined explicitly |
| PythonText.EndsInBackslashIff | kite-go/codewrap/python.go:149-155 | unless its last token ends in a backslash itself, a line ends in a backslash exactly if it is to be joined explicitly |
| PythonText.FlowCarriesPieces | kite-go/codewrap/wrap.go:61-73 | all lines that layout prints for a buffer carry exactly the pieces of its rows, row after row |
| PythonText.FlowKeepsLogicalLinesIff | kite-go/codewrap/python.go:237-242 | from the scan to the printed lines: they carry pieces that are read as the logical lines of the original exactly if nothing has been parted |
| PythonText.EmptyStringRunsIntoNext | kite-go/codewrap/python.go:75-79 | an empty string and a string behind it are printed as one that opens with three quotes |
| PythonExamples.LongAssignment | kite-go/codewrap/python_test.go:19-29 | the example of the repository's test, for all names: an assignment of a product that is too long for a line is broken behind the operator at which that is cheapest, with a backslash and the indent |
| ByteText.DeleteUndoesInsert | kite-go/diff/gap.go:51-82 | deleting what was inserted finds exactly that and gives back the text, padded if the offset was past the end |
| ByteText.InsertUndoesDelete | kite-go/diff/gap.go:51-82 | inserting what was deleted gives back the text |
| ByteText.InsertedIs | kite-go/diff/gap.go:51-57 | inserting puts the text at the offset, or behind zero bytes up to an offset past the end |
| ByteText.DeletedIs | kite-go/diff/gap.go:62-82 | deleting takes out the bytes from the offset on, as far as there are any |
| GapBuffer.GapBuffer.constructor | kite-go/diff/gap.go:30-41 | a new buffer has a gap of zero bytes and holds the text |
| GapBuffer.GapBuffer.Bytes | kite-go/diff/gap.go:44-49 | a fresh array with the text |
| GapBuffer.GapBuffer.Insert | kite-go/diff/gap.go:52-57 | the same as inserting into a plain byte sequence, at any offset; an offset past the end pads with zero bytes first |
| GapBuffer.GapBuffer.Delete | kite-go/diff/gap.go:62-82 | reports a mismatch exactly if the data is not what stands there, and then changes nothing but the padding; otherwise the same as deleting from a plain byte sequence |
| GapBuffer.GapBuffer.SetGapStart | kite-go/diff/gap.go:91-122 | moves the gap, which is never empty and stays zeroed, through overlapping copies and growth, without changing the text but for the padding |
| GapBuffer.GapBuffer.MoveGapLeft | kite-go/diff/gap.go:109-110 | the overlapping copy to the right keeps the text |
| GapBuffer.GapBuffer.MoveGapRight | kite-go/diff/gap.go:111-113 | the overlapping copy to the left keeps the text |
| GapBuffer.GapBuffer.EnsureGapCapacity | kite-go/diff/gap.go:127-141 | makes the gap larger than needed and keeps the text |
| GapBuffer.MovedRight | kite-go/diff/gap.go:111-116 | bytes that change from behind the gap to its front spell the same text |
| Patch.Int32 | kite-go/proto/proto.go:18-22 | an offset survives the conversion if it fits an int32, and turns into another one that does if not |
| Patch.Int32Wraps | kite-go/proto/proto.go:18-22 | the result differs from the offset by a multiple of 4 GiB |
| Patch.ComputeDiff | kite-go/diff/diff.go:26-56 | the loop makes one diff for each insert and delete, at the offset in the new text that is in place by then |
| Patch.Patcher.Apply | kite-go/diff/diff.go:76-85 | replaying diffs into the gap buffer is replaying them on a plain byte sequence, where the next five rows say what they do |
| Patch.InsertApplied | kite-go/diff/diff.go:79-80 | an insert puts its text in at its offset, behind zero bytes if that is past the end |
| Patch.DeleteApplied | kite-go/diff/diff.go:81-82 | a delete takes its text out if that is what stands at its offset; if not, nothing changes but for zero bytes up to an offset past the end |
| Patch.NoneApplied | kite-go/diff/diff.go:78-83 | a diff of neither kind does nothing |
| Patch.AppliedInOrder | kite-go/diff/diff.go:77 | diffs are replayed one after the other |
| Patch.MissesDoNothing | kite-go/diff/diff.go:81-82 | any number of deletes that do not find their text at an offset within the contents leave the contents as they are |
| Patch.RestOfRoundTrip | kite-go/diff/diff.go:30-53 | with the new text in place up to the offset and the rest of the old text behind it, the remaining diffs all match and complete the new text |
| Patch.RoundTrip | kite-go/diff/diff.go:26-85 | diffs between two texts take the first to the second, and every verified delete matches |
| Patch.ShortTextsFit | kite-go/diff/diff.go:42-50 | all offsets fit if the new text is below 2 GiB |
| Patch.RoundTripIffOffsetsFit | kite-go/diff/diff.go:42-50 | replay is possible if and only if no offset turns negative as an int32; it gives the new text if every offset fits and, for new texts below 4 GiB, only then |
| Patch.AppendingPast2GiBFails | kite-go/proto/proto.go:18-22 | a script whose offset does not fit, one byte appended to 2 GiB, cannot be replayed |
| Patch.AppendingPast4GiBCanWork | kite-go/proto/proto.go:18-22 | from 4 GiB on an offset that wraps around can be right by luck, so there is no such converse |
| BufferSync.BufferDriver.HandleEvent | kite-go/diff/driver.go:30-69 | a full text replaces the copy, otherwise the diffs are applied; the cursor follows the selections; the flag is up exactly if a checksum was sent and is not the copy's; the digest of the copy is returned |
| BufferSync.CursorAfter | kite-go/diff/driver.go:45-49 | the cursor ends at the last selection that is a mere position, and stays if there is none |
| BufferSync.CursorFollows | kite-go/diff/driver.go:45-49 | after an event the cursor is at the last selection that is a mere position, or where it was if there is none |
| BufferSync.TextOrDiffs | kite-go/diff/driver.go:36-43 | an event with a text brings the copy to that text whatever diffs come with it; without one its diffs are applied |
| BufferSync.FlagIs | kite-go/diff/driver.go:57-65 | the flag is up exactly if a checksum came that is not the copy's hash, whatever it was before |
| BufferSync.FaithfulRunStaysInSync | kite-go/diff/driver.go:36-65 | if every event carries the full text or the diffs from the text before, the copy is the editor's text after every event and the flag never goes up |
| BufferSync.FullTextSyncsIff | kite-go/diff/driver.go:38-43 | one full text brings any copy into step if and only if it is not empty or the copy is |
| BufferSync.CarriedIsAcceptable | kite-go/diff/driver.go:38-43 | diffs from the editor's own text can be applied to any copy, however far it is out of step |
| BufferSync.OutOfSyncAtMostOnce | kite-go/diff/driver.go:30-69 | over every run of an editor that sends checksums and answers the flag, from any copy: the first event raises the flag exactly if it leaves the copy out of step, and after every later event the copy is the editor's text and the flag is down, unless the checksums collide after the first event |
| BufferSync.CollisionGoesUnnoticed | kite-go/diff/driver.go:57 | if they do collide the copy can stay wrong with the flag down |
| EventBlocks.FlushKeepsOk | kite-go/event/blockwriter.go:77-136 | flushing keeps the stream's events in order across blocks, metadata that describe their block, and the size limit; nothing is handed on if the block is empty |
| EventBlocks.AcceptKeepsOk | kite-go/event/blockwriter.go:46-73 | so does accepting an event: a block is closed for lack of space only if the event does not fit, and an oversized event is alone in its block |
| EventBlocks.AcceptIs | kite-go/event/blockwriter.go:46-73 | accepting hands the current block on if and only if it is not empty and the event would overflow it, and then as full; the event starts the next block, with metadata of its own, or else joins the current one; an event that cannot be encoded does nothing |
| EventBlocks.FlushIs | kite-go/event/blockwriter.go:77-136 | flushing hands the current block on with its events and metadata unless it is empty, and leaves a new one |
| EventBlocks.PayloadNewestFirst | kite-go/event/blockbuffer.go:45-54 | a block is stored as the encodings of its events, each later one in front of those before it |
| EventBlocks.PackingChain | kite-go/event/blockwriter.go:51-54 | each block closed for lack of space overflows together with the first event of the next one |
| EventBlocks.PackingBound | kite-go/event/blockwriter.go:51-54 | if m blocks were closed for lack of space, m times the block size is less than twice the bytes accepted |
| EventBlocks.LifeCounts | kite-go/event/blockwriter.go:46-136 | over any sequence of events and flushes, the blocks not closed for lack of space number at most the flushes |
| EventBlocks.BlocksOfALife | kite-go/event/blockwriter.go:51-54 | so the number of blocks, less one for each flush, times the block size is less than twice the bytes accepted |
| EventBlocks.ReadingIsNewestFirst | kite-go/event/blockbuffer.go:45-54 | the current block and then the blocks newest first, each as it is written, spell the whole stream newest first |
| BlockWriter.BlockBuffer.WriteEvent | kite-go/event/blockbuffer.go:30-39 | the event is recorded behind all others, whose bytes do not change |
| BlockWriter.BlockBuffer.WriteTo | kite-go/event/blockbuffer.go:45-54 | the loop writes the events in reverse order |
| BlockWriter.BlockWriter.WriteEvent | kite-go/event/blockwriter.go:46-73 | the object does what accepting says; an event that cannot be encoded is reported and changes nothing; a block handed on stays in the buffer that the background writer holds, which is not used again |
| BlockWriter.BlockWriter.Flush | kite-go/event/blockwriter.go:77-136 | the current block, if not empty, goes to a background writer counted in the wait group, and a new block takes its place |
| BlockWriter.BlockWriter.RunInBackground | kite-go/event/blockwriter.go:83-118 | a background writer writes the block it was given, newest event first, however many attempts fail, and leaves the wait group |
| EventDriver.Driver.HandleEvent | kite-go/event/driver.go:55-83 | every stream whose filter passes takes the event unless it is an ignored terminal event, and no other stream is touched, in any order of iteration; the last time of exactly these streams is set to now, and added to the record of when each has taken events |
| EventDriver.Driver.Flush | kite-go/event/driver.go:111-117 | the current block of every stream is handed on |
| EventDriver.Driver.FlushTicker | kite-go/event/driver.go:130-140 | exactly the streams that have taken an event, but none in the last 15 minutes, are flushed, by the record of when they have taken events |
| EventDriver.AcceptIntoIsTook | kite-go/event/driver.go:67-81 | handling an event in the shared state does to a stream what the driver object does to it, and nothing to any other |
| EventDriver.FlushStreamIsEmptied | kite-go/event/driver.go:114-116 | the same for flushing |
| EventDriver.AcceptIntoRuns | kite-go/event/blockwriter.go:52-82 | the wait group counts the blocks that handling an event hands on, as the block writer object does |
| EventStore.Conservation | kite-go/event/blockwriter.go:82-134 | each accepted event is in exactly one place: in the current block, or in exactly one block handed on, which is either being written or stored; and blocks in flush order followed by the current block spell the stream |
| EventStore.NoJobsIffNoneRunning | kite-go/event/blockwriter.go:139-141 | a wait returns exactly when the count of background writers is zero |
| EventStore.SpawnRuns | kite-go/event/blockwriter.go:82-83 | handing a block on adds one to the count of its stream and of no other |
| EventStore.FinishRuns | kite-go/event/blockwriter.go:84 | a background writer that is done takes one off the count of its stream and of no other |
| EventStore.AcceptIntoKeepsOk | kite-go/event/driver.go:67-81 | handling an event keeps all that holds of writers, background writers, files and metadata |
| EventStore.FlushStreamKeepsOk | kite-go/event/blockwriter.go:77-136 | so does flushing, which leaves the current block empty |
| EventStore.WriteKeepsFilesOk | kite-go/event/blockwriter.go:107-116 | a write that succeeds keeps the store equal to what has been written, even where two blocks share a file name |
| EventStore.AddMetadataKeepsOk | kite-go/event/metadata.go:49-60 | adding metadata leaves every entry that of a block of its name |
| EventStore.NoJobsMeansDurable | kite-go/event/blockwriter.go:139-141 | when a stream's wait group is at zero, all that it has handed on is stored and known |
| EventStore.DurableEventIsStored | kite-go/event/blockwriter.go:107-120 | a durable event is in a block that is stored in full under a name that the metadata manager knows |
| EventStore.StoredInFull | kite-go/event/blockwriter.go:95-121 | a block that is stored is found under a name made of its user, its stream and its contents, as its events newest first |
| EventThreads.InitialInv | kite-go/event/blockstore.go:52-57 | the invariant holds when nothing has happened yet |
| EventInvariant.StepKeepsInv | kite-go/event/driver.go:66-140 | every step of any thread or background writer keeps the invariant: conservation, exclusive locks, and what critical sections have achieved so far |
| EventInvariant.LeaveKeepsInv | kite-go/event/driver.go:111-126 | letting go of a driver's lock after flushing or waiting achieves what a flush of the store came for there |
| EventInvariant.BeginKeepsInv | kite-go/event/blockstore.go:65-97 | starting any call keeps the invariant, whatever drivers are created or unlisted meanwhile |
| EventProgress.RunKeepsInv | kite-go/event/blockwriter.go:106-116 | the invariant holds at the end of every run, however often writing failed |
| EventProgress.ConservationOverRuns | kite-go/event/blockwriter.go:46-134 | at the end of every run from the beginning, each event that a stream has accepted is in exactly one place, and all places together spell the stream in order |
| EventProgress.AchievementsStay | kite-go/event/blockwriter.go:82-134 | what has been handed on and what is durable stays so for the rest of every run |
| EventProgress.FlushThenWaitIsDurable | kite-go/event/driver.go:111-126 | every event accepted before a flush of the driver is stored with its metadata when a later wait returns, whatever went on meanwhile |
| EventProgress.StoreFlushIsDurable | kite-go/event/blockstore.go:88-97 | a flush of the store lets go of its lock only when every event that its listed drivers had accepted before is stored with its metadata |
| EventRemoval.RemovedIsDurable | kite-go/event/blockstore.go:79-85 | every event that a driver had accepted before its removal began is stored with its metadata when the driver is unlisted, whatever other threads do meanwhile |
| EventRemoval.StoreFlushReachesIffListed | kite-go/event/blockstore.go:88-97 | if nobody calls a driver after a flush of the store has begun, all that its stream had accepted has been handed on when the flush returns exactly if the driver was listed or the current block was empty |
| EventRemoval.ForgottenIsUntouched | kite-go/event/blockstore.go:84-114 | flushes and ticks of the store, and everything else that goes on, leave the streams of an unlisted driver alone unless somebody calls it |
| EventTooLate.LateEventIsNotStored | kite-go/event/blockstore.go:79-97 | an event handled between the wait and the unlisting of a removal is not stored although all calls have returned, a flush of the store among them; so for any event, block size and names |
| EventHandling.HandledOnce | kite-go/event/driver.go:61-81 | between taking the lock to handle an event and letting go of it, every stream whose filter passes takes the event once, unless it cannot be encoded, and the others nothing, whatever other threads do |
| EventHandling.IgnoredIsSkipped | kite-go/event/driver.go:61-64 | a terminal event that is not a complete command changes nothing |
| EventHandling.RunsArePacked | kite-go/event/blockwriter.go:51-54 | over every run from the beginning, the number of a stream's blocks, less one for each time that it was flushed, times the block size is less than twice the bytes accepted |
| EventHandling.IdleIsFlushed | kite-go/event/driver.go:130-140 | on a tick, the current block of a stream goes to a background writer if the stream is idle, and nothing happens to it if not |
| EventHandling.TickGoesOverAll | kite-go/event/blockstore.go:106-112 | a tick goes over all drivers that are listed |
| EventHandling.EnteringGoesOverAll | kite-go/event/driver.go:111-140 | inside a driver, a flush, wait or tick of the store goes over all streams that have a writer |
| EventHandling.DriverIsListed | kite-go/event/blockstore.go:65-76 | looking a driver up gives the one listed for the user and machine, or lists a new one without streams |
| EventHandling.StreamIsAdded | kite-go/event/driver.go:87-91 | adding a stream puts its filter in place and changes nothing else |
| EventHandling.DriverIsUnlisted | kite-go/event/blockstore.go:82-84 | removing ends with the driver's user and machine off the table, and changes nothing else |
| EventHandling.RunKeepsEntries | kite-go/event/metadata.go:49-60 | over every run a metadata entry once made is never changed or dropped, even when another block comes by the same name, and neither is a file |
| EventHandling.BlocksAreStoredForTheirUser | kite-go/event/blockwriter.go:102-121 | over every run from the beginning, a stored block is found in full under the user of its driver, its stream and its contents |
| EventProgress.SomebodyCanMove | kite-go/event/blockstore.go:79-114 | no deadlock: while anything is left to do, some step other than a failed write is possible |
| EventProgress.StepMakesProgress | kite-go/event/blockstore.go:79-114 | every step but a failed write decreases what is left to do, in a well-founded order |
| EventProgress.EverythingCompletes | kite-go/event/blockstore.go:79-114 | from every reachable state there is a run in which all calls return and all blocks are stored |
| References.LineStartIsBehindNewline | kite-go/dynamicanalysis/references.go:185-194 | the start of an offset's line is the start of the source or just behind a newline, with no newline between it and the offset |
| References.LineOfOffset | kite-go/dynamicanalysis/references.go:179-183 | the line that prefix sums of line lengths put an offset on is the number of newlines in front of it, and starts where that line starts |
| References.GetLineIndexed | kite-go/dynamicanalysis/references.go:176-200 | the references are sorted in place, by where they begin and then by where they end, and the sweep locates each as a search of its own would |
| References.Sweep | kite-go/dynamicanalysis/references.go:185-197 | the line of the sweep never goes back and never passes the line of the next reference |
| References.NextLine | kite-go/dynamicanalysis/references.go:187-196 | the inner loop stops at the one line that the reference begins on, or past all lines if it begins before the source |
| References.IndexedAllIffNoneNegative | kite-go/dynamicanalysis/references.go:185-199 | all references are indexed if and only if none begins before the source, and the result is in order of line and column |
| References.IndexedIs | kite-go/dynamicanalysis/references.go:185-197 | if none begins before the source, each reference is found on a line such that the start of the line and the column add up to where it begins, within that line unless it is the last |
| Blobs.ParseBlobs | kite-go/annotate/blob.go:22-82 | the loop computes the parse, errors and unterminated markers included |
| Blobs.PrintThenParse | kite-go/annotate/blob.go:22-82 | blobs that meet the conditions are read back as they were printed |
| Blobs.ParsedIsPrintable | kite-go/annotate/blob.go:32-58 | blobs that are read back as they were printed meet the conditions |
| Blobs.RoundTripIff | kite-go/annotate/blob.go:22-82 | the round trip holds if and only if the conditions do, for any delimiters whose close marker is told apart, whether or not the open marker overlaps itself |
| Blobs.OverlapBreaksRoundTrip | kite-go/annotate/blob.go:24-32 | no output that ends in the first half of the open marker is read back in front of a marker, whatever the marker and what follows |
| Blobs.LinePiece | kite-go/annotate/blob.go:62-70 | a line marker is read back exactly if its number fits a 64-bit int, and refused otherwise |
| Blobs.ParseMarker | kite-go/annotate/blob.go:41-78 | for any text: what is in front of the first open marker is output, the text up to the first close marker is a line or something to show, and the rest is parsed on its own; any other directive, a number that cannot be read, and an error in the rest are errors |
| Blobs.ParseWithoutMarker | kite-go/annotate/blob.go:32-58 | text without an open marker, or with one that is not closed, is output; in the latter case what is in front of the marker comes once more on its own |
| Blobs.KiteMarkers | kite-go/annotate/blob.go:24-29 | the markers of the presentation API |
| Decimal.AtoiReadsItoa | kite-go/annotate/blob.go:63-66 | a printed number is read back exactly if it is in range |
| Decimal.AtoiIff | kite-go/annotate/blob.go:63 | exactly what texts are read as a number: its digits behind any zeros, behind a minus if it is negative and a plus if there is one, in the range of an int |
| GoStrings.BlankIffTrimmedAway | kite-go/annotate/annotate.go:424 | trimming from both ends leaves nothing exactly if every rune is white space, on malformed text as well |
| GoStrings.TrimSpaceIs | kite-go/annotate/parse.go:77-79 | trimming takes away white space at both ends and nothing else, and leaves none there |
| Stencils.ReplacedIsJoin | kite-go/annotate/substitute.go:8 | replacing cuts at the first occurrence and goes on behind it until there is none, and joins the parts with the value |
| Stencils.SubstitutedLast | kite-go/annotate/substitute.go:6-11 | variables are replaced one after the other, each in what the others before it have made |
| Stencils.UseIsReplaced | kite-go/annotate/substitute.go:6-11 | a variable between dollars is replaced by the first value for its name, and stays as it is if there is none |
| Stencils.LeaderIsBehindIndentation | kite-go/annotate/parse.go:76-82 | the leader found by searching the whole line is the one that the trimmed line starts with |
| Stencils.TrimmedIff | kite-go/annotate/parse.go:76-82 | a line is run without being shown exactly if it starts with the leader and is not left empty, and what is run keeps its indentation |
| Stencils.ParsePython | kite-go/annotate/parse.go:110-137 | the program has one line for each line of the source; the map lists the lines that are shown, strictly increasing, and the presentation is those lines |
| Stencils.ProgramStartsWithImport | kite-go/annotate/parse.go:110-126 | the first line of the program imports the presentation API; the others are what is run for each line of the example once substituted |
| Stencils.LineMapIsFaithful | kite-go/annotate/parse.go:51-60 | each line shown is the line of the program that the map says, and further down there than in the presentation |
| Stencils.StencilCanBeAnnotated | kite-go/annotate/annotate.go:389 | the map has one entry for each line of the presentation and never goes back |
| Stencils.LineIsLostIff | kite-go/annotate/annotate.go:439-449 | of what annotating an example with its own map gives: a line that is not blank is in no code segment exactly if it became a program line past the last annotation, but is not further down the presentation than that; it is in one otherwise |
| Stencils.ExampleIsKeptIff | kite-go/annotate/annotate.go:394-449 | of what annotating an example with its own map gives: every line that is not blank is in exactly one code segment if and only if each is behind the last annotation or became a line at or in front of it; without blank lines, if and only if there is an annotation at or past the last line shown |
| Stencils.ProcessInline | kite-go/annotate/annotate.go:370-390 | a run is annotated inline only if it succeeded without errors and HTTP outputs and its annotations are in order; then the segments hold all annotations in order and keep the lines of the presentation under just the conditions above; otherwise the first thing that is wrong is reported |
| Annotate.LoadAnnotations | kite-go/annotate/annotate.go:488-518 | every output or emit blob becomes an annotation at the line of the last line blob before it, in order; it fails exactly if an emit blob cannot be decoded, with the first such blob |
| Annotate.AnnotationsAre | kite-go/annotate/annotate.go:488-518 | one annotation for each blob that is not a line: output is an annotation with its text at the line the program is at, emitted text is what it decodes to there |
| Annotate.LineAfterIs | kite-go/annotate/annotate.go:498-503 | that line is the one of the last line blob, or 0 |
| Annotate.LoadedInOrderIff | kite-go/annotate/annotate.go:488-518 | loaded annotations are in order, so they can be merged, exactly if the lines that output is at and that emitted annotations name never go back, nor below 0 |
| Annotate.LoadedAnnotationsAreInOrder | kite-go/annotate/annotate.go:488-518 | that is so if the program reports lines going forward and nothing that it emits names another line than the one it is at |
| Annotate.EmittedLineBreaksOrder | kite-go/annotate/annotate.go:452-486 | an annotation that names a line below 0 itself cannot be merged, although the program has gone forward |
| Annotate.AnnotateInline | kite-go/annotate/annotate.go:394-449 | it fails exactly if the annotations are out of order, with the line of the first that goes back and the line before it; otherwise it gives the segments that the rows on `Coverage` describe, which drop chunks of blank lines |
| Annotate.PlacedIff | kite-go/annotate/annotate.go:417-420 | a line has been placed exactly if it became a line at or in front of the last annotation so far |
| Annotate.PlacedBeforeFirstAtOrPast | kite-go/annotate/annotate.go:415-420 | with a non-decreasing map each line is placed in front of the first annotation at or past what it became, and of no other |
| Coverage.InlinedWithMap | kite-go/annotate/annotate.go:414-433 | of what annotating gives with a map that never goes back: a line that is not blank is in the code in front of an annotation exactly if that is the first annotation at or past the line that it became |
| Coverage.InlinedWithoutMap | kite-go/annotate/annotate.go:396-420 | without a map, exactly if that is the first annotation at or past the line itself |
| Coverage.InlinedBehindLast | kite-go/annotate/annotate.go:432-446 | all annotations are there in order, and behind the last one is every line that is not blank and whose own number is past that annotation's, whatever the map |
| Coverage.ChunkDroppedIff | kite-go/annotate/annotate.go:421-430 | a chunk of code is dropped exactly if every one of its lines is blank |
| Coverage.InlinedIsHonest | kite-go/annotate/annotate.go:424-430 | every code segment consists of the lines of the source that it is numbered with |
| Coverage.MergedSpans | kite-go/annotate/annotate.go:417-446 | a line that is not blank is in one code segment for being placed and in one for being behind the program line of the last annotation, and in no other |
| Coverage.SpannedInFrontOf | kite-go/annotate/annotate.go:415-435 | the code between two annotations has exactly the lines that are not blank and for which the second is the first annotation at or past what they became |
| Coverage.MapCoversIff | kite-go/annotate/annotate.go:439-446 | with a map that never goes back, every line that is not blank is in exactly one code segment if and only if, for each of them, being at or in front of the last annotation means the same in lines of the program and of the source |
| Coverage.NoMapCoversIffAnnotated | kite-go/annotate/annotate.go:396-400 | without a map every line that is not blank is in exactly one code segment if and only if there is an annotation or the first line is blank |
| Coverage.NoAnnotationsLoseFirstLine | kite-go/annotate/annotate.go:439-446 | without annotations the first line is in no code segment, and every other line that is not blank is in one |

## Left out

- Patch.RoundTripIffOffsetsFit: that the round trip needs all offsets to fit is stated for new texts below 4 GiB; beyond that an offset can wrap around to a non-negative one, and whether the result is right depends on the texts, as `AppendingPast4GiBCanWork` shows.
- Patch.ComputeDiff: of `DiffMain` only what it promises is assumed, that its result spells both texts; it is a parameter.
- Annotate.AnnotateInline: a line map longer than the list of lines is not modelled; the source can index out of range on one.
- Annotate.LoadAnnotations: the JSON decoder of annotations is a parameter.
- Stencils.ParsePython: the substituted parameters are a parameter with one-line values, as the repository's own are, in some order of iteration.
- Stencils.ProcessInline: the stencil's flag for inline annotation is left out, since every Python example has it set; of HTTP outputs only the number is modelled.
- References.GetLineIndexed: what `sort.Sort` makes of the references is a parameter, constrained only by what sorting promises.
- Python.TokenizePython: the scanner is the list of tokens and the list of errors that it yields.
- PythonLines.LayoutKeepsLogicalLinesIff: which lines of the original are joined is a parameter; the scanner does not say. Indentation at the start of a logical line is not read as a token.
- PythonText.FlowKeepsLogicalLinesIff: the printed lines are shown to consist of the texts of the tokens; that the scanner would find the same tokens in those texts is not modelled.
- EventDriver.Driver.HandleEvent: time stands still during one call, and the clock is a parameter; in the state machine any stream may be found idle.
- EventProgress.EverythingCompletes: nothing forces the threads to be scheduled or the writes to succeed; that is an assumption about the environment, not a lemma.
- Slices of a layout that the cached solutions share are values here; the source copies before it overwrites.
- The last non-comment token that `solveImpl` looks up and never uses.
- Negative tab widths, for which the source cannot print an indent, and negative offsets into the gap buffer, on which it panics.
- Compression, file systems, the metadata database, iterators, status counters and retry delays. The store and the metadata are maps, a write succeeds or fails, and adding metadata does not fail.
- The hash in a block's file name: different contents have different hashes. The hashes of the buffer driver are arbitrary functions.
- Locks, wait groups and the store's table of drivers are part of the state machine, where drivers and writers are values; aliasing of the writers of one driver is covered by the driver object.
- The abort check of a request context.
- `golang.go` and `parseBashExample`, `WrapPython`'s replacement of indents by tabs and `WrapPythonLines`, out-of-line annotation, HTTP handlers, clustering, and everything else in the repository.
