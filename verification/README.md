# Verification of srs-control

A Dafny model of the parts of srs-control whose correctness depends on concurrency, on byte layouts
or on recursion, with proofs about it. `dafny verify dfyconfig.toml` checks everything.

srs-control receives UDP frames from detector front-ends, passes them through a recycling buffer
queue to parallel pipeline lines, and decodes, converts and writes them there. The model follows five
parts of it and a companion tool, and joins the data path and the tasks in one machine.

* **Frame counter check** (`FrameCount`). All lines register frame counters through a compare-exchange
  loop followed by a separate change of the drop counter. The atomic steps of any number of lines are
  interleaved arbitrarily; the proof carries the adjustments that are decided but not yet made.
* **Data path** (`LargeBuffers`, `DataPath`, `DataPathInvariant`, `DataPathSteps`, `DataPathHistory`,
  `DataPathCounts`, `DataPathInduction`, `DataPathTheorems`, `DataPathShutdown`, `DataPathThreads`,
  `DataPathAgreement`, `DataPathTraces`, `DataPathClass`). Sockets, the two bounded queues, lines, start
  and concurrent stops form one machine whose steps are the points where other threads can come in
  between. Storage blocks have identities, so that sharing, losing or reading a destroyed block are states
  the proofs have to exclude. `DataPathClass.Workflow` runs the program's functions over mutable fields
  and shows that each call is a run of that machine, whatever the other threads do meanwhile.
* **Frame codec and files** (`Bits`, `Gray`, `SrsData`, `FrameFormat`, `NumberLayout`, `ByteLayout`,
  `StructSerializer`, `StructDeserializer`, `DelimFile`). Bit sets of any width, the Gray code, the two 64-bit layouts, the
  frame format in both directions, where every field lies in bytes, and the length-prefixed files.
* **Conversion graph and tasks** (`ConvertGraph`, `SinkManager`, `TaskGraph`, `TaskLines`,
  `TaskExecution`, `OutputNames`). The recursive dependency query over any relation list, the sinks that
  output names ask for, the wiring of a line, and the interleaved execution of all lines over per-line
  slots, which is shown to deliver what a plain function of each frame would, from the name to the bytes.
* **From socket to sink** (`Pipeline`, `PipelineSteps`, `PipelineTheorems`). The data path and the tasks
  in one run: the tasks of a line read the frame out of the line's buffer, and delay nothing but its
  recycling.
* **Front-end switching** (`FecMessages`, `FecSocket`, `FecNetwork`, `FecInvariant`, `FecTheorems`). The
  encoding of commands, the bookkeeping of expected answers, and the protocol over a network that loses,
  duplicates and reorders.
* **Log checker** (`LogCheck`). Reading the last log instance and balancing the recorded scopes.

Each class method states its new state through a function of the old one; lemmas prove what the
program promises about these functions and about whole runs of them. Where a promise fails, a lemma
gives a run that shows it and another one the exact condition under which it holds: stale counters,
buffers of size zero, frames of 2^32 bytes, empty frames in a file, byte swaps of partial bytes, struct
sinks without structs, several serializer lines, duplicated answers, completion before effect, and stray
scope exits. A scan for completion without a lock is never falsely true unless a command is registered
meanwhile, and a run shows that it then can be.

The code differs from its comments or from its evident intent in three places, where the model follows
the code. The move operations of the frame buffer are described as swaps, but they are defaulted and
leave the moved-from object with its old size and no storage. The frame reader is described as returning
0 when its file is not open, but it returns an error. The hit loop of the serializer writes the buffers
of all lines instead of the one it was given.

Assumptions about libraries: a try operation on a lock-free queue may fail at any time and a
successful push finds room; such a queue keeps the order of each producer, with pills and every socket
being producers of their own; a task is run after the tasks that precede it; a line that took a pill
takes nothing more. `zpp::bits` writes a bit set lowest byte first, a vector of vectors as all their
bytes in a row, and fits its output vector.

## Model

| member | source | states |
|---|---|---|
| `FrameCount.CheckerCountsMissing` | backend/srs/sinks/FrameCountChecker.cpp:40-60 | for any number of lines and any interleaving of loads, exchanges (spurious failures included) and drop updates: `last` is the maximum registered, and `drop` plus the pending adjustments is the size of {1..last} minus the registered counters, less one per stale registration |
| `FrameCount.ExactUnlessStale` | backend/srs/sinks/FrameCountChecker.cpp:40-60 | with no call in progress `drop` is exactly the number of missing frames if and only if no counter below the last one was a duplicate or zero |
| `FrameCount.DistinctPositive` | backend/srs/sinks/FrameCountChecker.cpp:40-60 | with distinct positive counters `drop` plus pending is `last` minus the number registered, at all times |
| `FrameCount.ZeroLowersDrop` | backend/srs/sinks/FrameCountChecker.cpp:53-56 | counter zero after a positive one lowers the drop count by one and fills no gap |
| `FrameCount.StaleLowersDrop` | backend/srs/sinks/FrameCountChecker.cpp:53-56 | any run that ends at rest can go on with a stale counter, zero or a duplicate, and then rests with the drop count one lower and the same frames missing |
| `FrameCount.StaleRuns` | backend/srs/sinks/FrameCountChecker.cpp:40-60 | legal runs from the start that end at rest with nothing missing and a drop count of -1: counters 1, 2 and then either zero or 1 again |
| `FrameCount.DropCountsMissing` | backend/srs/sinks/FrameCountChecker.cpp:45-58 | the sequential meaning: the drop count of one thread alone is the number of missing frames less the stale registrations |
| `FrameCount.LastIsMaximum` | backend/srs/sinks/FrameCountChecker.cpp:45-47 | the last counter is registered (or zero) and nothing registered exceeds it |
| `FrameCount.StepLinearizes` | backend/srs/sinks/FrameCountChecker.cpp:42-59 | every atomic step keeps the shared counters equal to a sequential run in commit order, up to pending adjustments |
| `FrameCount.RunLinearizes` | backend/srs/sinks/FrameCountChecker.cpp:42-59 | over whole runs the shared counters equal those of a sequential run in commit order, up to pending adjustments |
| `FrameCount.FailuresAreAccounted` | backend/srs/sinks/FrameCountChecker.cpp:42-59 | in any run, every failed exchange of a line is spurious or due to another line that committed a higher counter: some line always makes progress |
| `FrameCount.GapStep` | backend/srs/sinks/FrameCountChecker.cpp:49-52 | a counter beyond the last one adds exactly the frames in between |
| `FrameCount.OldCounterStep` | backend/srs/sinks/FrameCountChecker.cpp:53-56 | a counter below the last one fills its gap or is stale |
| `FrameCount.MissingOfDistinct` | backend/srs/sinks/FrameCountChecker.cpp:40-60 | distinct positive counters leave `last` minus their number missing |
| `FrameCount.FrameCountChecker.CompareExchangeWeak` | backend/srs/sinks/FrameCountChecker.cpp:45-58 | one weak compare-exchange with the branch it decides; fails spuriously or on a changed value |
| `FrameCount.FrameCountChecker.RegisterFrameCounter` | backend/srs/sinks/FrameCountChecker.cpp:40-60 | the loop, with any finite interference between its steps, is a run of atomic steps in which this line commits its counter exactly once; its exchanges fail at most as often as spuriously and as other lines raise the last counter meanwhile |
| `FrameCount.FrameCountChecker.AnalyzeFrameCounter` | backend/srs/sinks/FrameCountChecker.cpp:20-38 | frames of at most 16 bytes are rejected and not registered; of any other the number in its first four bytes, highest first, is registered and returned |
| `DataPathTheorems.ExactlyOneOwner` | backend/srs/data/BufferQueue.cpp:63-87 | in every reachable state a storage block is live if and only if some socket, queue entry or line holds it, and never two of them do |
| `DataPathTheorems.FramesArriveIntact` | backend/srs/workflow/TaskDiagram.cpp:55-65 | per socket, accepted frames = taken frames followed by queued ones, in arrival order and with exactly the bytes received; the frame a line works on still reads as accepted |
| `DataPathTheorems.NoStaleRead` | backend/srs/data/LargeBuffer.hpp:94 | no step looks at the bytes of a moved-from buffer with a stale size: queued frames, the buffers of receiving sockets and those of lines at work have all the bytes their size says |
| `DataPathTheorems.FullDatagramFits` | backend/srs/connections/DataSocket.cpp:37-42 | whatever happened before, a listening socket can take a datagram of the configured size |
| `DataPathTheorems.Conservation` | backend/srs/workflow/AnalysisHandle.cpp:124-144 | bytes read = dropped + queued + counted by lines + in flight; frames received = refused + queued + taken + in flight |
| `DataPathTheorems.ConservationAtRest` | backend/srs/workflow/AnalysisHandle.cpp:124-144 | with sockets listening and no line between taking and looking: bytes read = dropped + queued + counted by lines, and frames received = refused + queued + taken |
| `DataPathTheorems.LiveBlocks` | backend/srs/data/BufferQueue.cpp:16-94 | live blocks = prefilled + sockets + lines + empty-trash failures - full-trash failures + buffers still held after a failed recycle; at most both capacities plus sockets plus lines |
| `DataPathTheorems.OnePillPerLine` | backend/srs/workflow/AnalysisHandle.cpp:93-116 | however many threads call stop_workflow, one pill per line is pushed once or not at all, and then pills left = lines still running |
| `DataPathTheorems.NoLineStopsEarly` | backend/srs/workflow/TaskDiagram.cpp:100-116 | a line has stopped only if the pills were pushed |
| `DataPathTheorems.WaitingLineCanGoOn` | backend/srs/data/BufferQueue.cpp:80-87 | once the pills were pushed no waiting line finds the valid queue empty |
| `DataPathTraces.DeliveredAsReceived` | backend/srs/connections/DataSocket.cpp:37-42 | for any run: frames taken from a socket followed by its queued ones are the datagrams it received and was not refused, byte for byte and in arrival order |
| `DataPathTraces.StatisticsCount` | backend/srs/workflow/AnalysisHandle.cpp:124-144 | the statistics count what happened in the run: datagrams, their bytes, refused frames, refills without a recycled buffer, failed recycles |
| `DataPathTraces.DroppedIsRefused` | backend/srs/workflow/AnalysisHandle.cpp:135-137 | in any run the bytes counted as dropped, with those about to be, are the bytes of the datagrams that were refused |
| `DataPathShutdown.ShutdownEnds` | backend/srs/workflow/AnalysisHandle.cpp:93-116 | with the pills pushed and no new frames the lines make boundedly many steps in any order, and when none can go on all have stopped and no pill is left |
| `DataPathShutdown.RunningLineCanGoOn` | backend/srs/workflow/TaskDiagram.cpp:55-65 | with the pills pushed, a line that has not stopped always has a step to make |
| `DataPathTheorems.NoPillLeft` | backend/srs/data/BufferQueue.cpp:51-60 | once all lines stopped no pill is left in the valid queue |
| `DataPathTheorems.ConfusedOnlyWithoutSize` | backend/srs/data/LargeBuffer.hpp:132 | no run takes a frame for a pill or a pill for a frame if and only if the configured buffer size is positive |
| `DataPathTheorems.FrameStopsLine` | backend/srs/data/LargeBuffer.hpp:38 | with buffer size zero the first datagram stops a line |
| `DataPathTheorems.StepInv` | backend/srs/data/BufferQueue.cpp:51-87 | every atomic step keeps ownership, slots, queue order, contents and all counters |
| `DataPathTheorems.RunInv` | backend/srs/data/BufferQueue.cpp:51-87 | ownership, slots, queue order, contents and all counters hold at the end of every run |
| `DataPathInduction.InitialInv` | backend/srs/data/BufferQueue.cpp:16-31 | the pre-filled queue and the sockets satisfy the invariant |
| `DataPathInduction.LaunchInv` | backend/srs/workflow/TaskDiagram.cpp:30-52 | creating the task diagram with its line buffers keeps it |
| `DataPathInduction.EnqueueEmptyInv` | backend/srs/data/BufferQueue.cpp:51-60 | pushing the pills keeps it |
| `DataPathInvariant.OneOwner` | backend/srs/data/BufferQueue.cpp:63-87 | two places that hold the same block are the same place, and the block is live |
| `DataPathHistory.ReceiveTouchesNoFrame` | backend/srs/connections/DataSocket.cpp:37-42 | a datagram changes no queued frame and no frame that a line reads |
| `DataPathHistory.TakeValidFifo` | backend/srs/data/BufferQueue.cpp:86 | what is taken out is the oldest waiting frame of its socket |
| `DataPathHistory.PushValidHistory` | backend/srs/data/BufferQueue.cpp:65-69 | an accepted frame joins the end of its socket with the bytes received |
| `DataPathHistory.ReleaseTouchesNoFrame` | backend/srs/data/BufferQueue.cpp:82-86 | overwriting a buffer that could not be recycled destroys no other frame |
| `DataPathHistory.QueuedRemove` | backend/srs/data/BufferQueue.cpp:86 | removing the front entry of a producer removes its oldest frame and keeps all others in order |
| `DataPathSteps.FinishReadMemory` | backend/srs/connections/DataSocket.cpp:41 | the buffer a socket receives into again is never reallocated |
| `DataPathSteps.GrowFromNothing` | backend/srs/data/BufferQueue.cpp:71-75 | a moved-from buffer, its stale size notwithstanding, grows exactly one new block of the configured size |
| `DataPathSteps.TakeValidOwned` | backend/srs/data/BufferQueue.cpp:80-87 | ownership after a line takes an entry, including the destroyed block of a refused recycle |
| `DataPathSteps.ClassifySlots` | backend/srs/workflow/TaskDiagram.cpp:59-64 | an empty buffer was a pill and any other was a frame |
| `DataPathCounts.EnqueueEmptyCounts` | backend/srs/workflow/AnalysisHandle.cpp:104-115 | only the winner of the exchange pushes pills, and once |
| `DataPathCounts.TakeValidCounts` | backend/srs/workflow/TaskDiagram.cpp:55-65 | bytes, frame or pill move from the queue to the line |
| `DataPathCounts.PushValidCounts` | backend/srs/data/BufferQueue.cpp:63-69 | a handed-over or refused frame keeps bytes and frames balanced |
| `DataPathThreads.OthersSpare` | backend/srs/data/BufferQueue.cpp:63-87 | no step of another thread changes a thread's own variables or the frame in a socket's buffer |
| `DataPathThreads.ReceivedContent` | backend/srs/connections/DataSocket.cpp:39 | after the resize the buffer reads as the datagram |
| `DataPathClass.Workflow.Receive` | backend/srs/workflow/AnalysisHandle.cpp:126-128 | the new state after a datagram: buffer resized, bytes and frames counted |
| `DataPathClass.Workflow.PushValid` | backend/srs/data/BufferQueue.cpp:65-69 | the new state after the try on the valid queue, both ways |
| `DataPathClass.Workflow.PullTrash` | backend/srs/data/BufferQueue.cpp:71-76 | the new state after the refill, recycled or grown |
| `DataPathClass.Workflow.FinishRead` | backend/srs/workflow/AnalysisHandle.cpp:135-137 | the new state after dropping a refused frame and resizing the buffer back |
| `DataPathClass.Workflow.PushTrash` | backend/srs/data/BufferQueue.cpp:82-85 | the new state after the recycle, both ways |
| `DataPathClass.Workflow.TakeValid` | backend/srs/data/BufferQueue.cpp:86 | the new state after the wait: any front entry of a producer |
| `DataPathClass.Workflow.Classify` | backend/srs/workflow/TaskDiagram.cpp:59-64 | the new state after the emptiness test |
| `DataPathClass.Workflow.Exchange` | backend/srs/workflow/AnalysisHandle.cpp:104-107 | exactly one concurrent stopper wins |
| `DataPathClass.Workflow.Enqueue` | backend/srs/data/BufferQueue.cpp:63-77 | hands over, then refills, with any steps of other threads in between |
| `DataPathClass.Workflow.ResponseHandler` | backend/srs/connections/DataSocket.cpp:37-42 | what is accepted is exactly the bytes that arrived, whatever other threads do meanwhile; the socket ends listening again |
| `DataPathClass.Workflow.Dequeue` | backend/srs/data/BufferQueue.cpp:80-87 | recycles, then waits for as long as the queue is empty, with any steps of other threads in between; a wait that still lasts finds the queue empty and the pills not pushed |
| `DataPathClass.Workflow.RunTask` | backend/srs/workflow/TaskDiagram.cpp:55-65 | a frame is processed and only a pill stops the line; a line still waits only while the queue is empty and the pills are not pushed |
| `DataPathClass.Workflow.StopWorkflow` | backend/srs/workflow/AnalysisHandle.cpp:93-116 | a run of the atomic steps of one stopper, called before or after the start, which waits for the start and returns after pushing the pills or after losing the exchange |
| `LargeBuffers.NewBuffersOneByOne` | backend/srs/data/BufferQueue.cpp:23-29 | buffers constructed in a row take consecutive new blocks |
| `LargeBuffers.BlocksAreHolders` | backend/srs/data/LargeBuffer.hpp:132 | if every block has one holder there are as many blocks as holders |
| `LargeBuffers.FrameBuffer.ResizeTo` | backend/srs/data/LargeBuffer.hpp:103-107 | the size is set, the storage only grows, keeping its bytes |
| `LargeBuffers.FrameBuffer.MoveFrom` | backend/srs/data/LargeBuffer.hpp:66 | the storage changes hands and the source keeps a stale size |
| `LargeBuffers.FrameBuffer.Data` | backend/srs/data/LargeBuffer.hpp:94 | the first `size` bytes of the storage, of a buffer that has that many |
| `Bits.SubsetIsRange` | backend/srs/utils/CommonFunctions.hpp:25-36 | the double shift selects exactly the half-open range |
| `Bits.MergeUndoesSplit` | backend/srs/utils/CommonFunctions.hpp:38-68 | merging the high and low bits of x is x, for every width |
| `Bits.SplitUndoesMerge` | backend/srs/utils/CommonFunctions.hpp:38-68 | the two parts of a merge are recovered |
| `Bits.ByteSwapReversesBytes` | backend/srs/utils/CommonFunctions.hpp:70-77 | for whole bytes the swap reverses the byte list |
| `Bits.ByteSwapInvolutive` | backend/srs/utils/CommonFunctions.hpp:70-77 | the swap is its own inverse on all values of a width if and only if the width is a multiple of 8 |
| `Gray.GrayToBinary` | backend/srs/utils/CommonFunctions.hpp:79-89 | the shift-and-xor loop terminates and computes the prefix-xor of the code |
| `Gray.CodeOfDecoded` | backend/srs/utils/CommonFunctions.hpp:79-95 | coding a decoded code gives it back |
| `Gray.DecodedOfCode` | backend/srs/utils/CommonFunctions.hpp:79-95 | decoding a coded number gives it back |
| `Gray.WidthKept` | backend/srs/utils/CommonFunctions.hpp:79-95 | both directions keep a value inside its width |
| `Gray.NeighboursDifferInOneBit` | backend/srs/utils/CommonFunctions.hpp:91-95 | codes of n and n+1 differ in exactly one bit |
| `NumberLayout.CodeOfNumberBits` | backend/srs/utils/CommonFunctions.hpp:91-95 | at every width a bit of the code of n is set if and only if the bits of n and of half of n differ |
| `SrsData.HitUnpacksPacked` | backend/srs/data/SRSDataCompact.hpp:25-36 | a fitting hit survives packing into the 64-bit layout and unpacking |
| `SrsData.MarkerUnpacksPacked` | backend/srs/data/SRSDataCompact.hpp:38-45 | a fitting marker with its 32+10 bit timestamp survives packing and unpacking |
| `SrsData.HitPacksUnpacked` | backend/srs/data/SRSDataCompact.hpp:25-36 | a hit word that was unpacked packs back to the same word |
| `SrsData.MarkerPacksUnpacked` | backend/srs/data/SRSDataCompact.hpp:38-45 | a marker word that was unpacked packs back to the same word |
| `FrameFormat.ParseUndoesPrint` | backend/srs/converters/StructDeserializer.cpp:71-98 | printing then parsing gives back header, hits and markers in order, for every representable struct with at least one element |
| `FrameFormat.PrintOfParseIsNormalForm` | backend/srs/converters/StructSerializer.cpp:119-150 | for every frame that parses, the result is representable and prints as header, flagged words, other words, remainder dropped |
| `FrameFormat.NormalFormIsStable` | backend/srs/converters/StructSerializer.cpp:119-150 | doing it twice changes nothing more |
| `FrameFormat.NormalFormKeepsElements` | backend/srs/converters/StructSerializer.cpp:127-148 | the normal form only reorders the 6-byte words |
| `FrameFormat.NormalFormParsesTheSame` | backend/srs/converters/StructDeserializer.cpp:100-116 | the normal form parses to the same struct |
| `ByteLayout.HeaderFields` | backend/srs/data/SRSDataStructs.hpp:14-20 | which bytes of a frame are the counter, the tag, the front-end, the timestamp and the overflow, as weighted sums of bytes |
| `ByteLayout.PrintedHeaderFields` | backend/srs/converters/StructSerializer.cpp:126 | the first sixteen bytes of a printed frame weigh the header fields in that order |
| `ByteLayout.HitFields` | backend/srs/data/SRSDataCompact.hpp:25-36 | where the fields of a hit lie in the 48-bit number of its six bytes, and that one bit of it is the flag |
| `ByteLayout.HitCrossing` | backend/srs/converters/StructDeserializer.cpp:46-60 | the crossing number read is the one whose exclusive or with its half is the 12-bit code in the bytes |
| `ByteLayout.MarkerFields` | backend/srs/data/SRSDataCompact.hpp:38-45 | where the chip and the two parts of the timestamp lie in the number of a marker |
| `ByteLayout.HitWritten` | backend/srs/converters/StructSerializer.cpp:67-108 | the number of the six bytes written for a hit holds its fields at those places |
| `ByteLayout.HitCrossingWritten` | backend/srs/converters/StructSerializer.cpp:67-108 | and the Gray code of its crossing number |
| `ByteLayout.MarkerWritten` | backend/srs/converters/StructSerializer.cpp:34-65 | the same of a marker |
| `ByteLayout.HitWidths` | backend/srs/converters/StructSerializer.cpp:67-94 | a hit fits if and only if its fields are below 64, 4096, 1024, 32 and 32 |
| `ByteLayout.MarkerWidths` | backend/srs/converters/StructSerializer.cpp:34-65 | a marker fits if and only if its chip is below 32 and its timestamp below two to the 42 |
| `ByteLayout.PrintedElements` | backend/srs/converters/StructSerializer.cpp:119-150 | behind sixteen bytes come the hits and then the markers, six bytes each, and nothing else |
| `ByteLayout.ParsedInBytes` | backend/srs/converters/StructDeserializer.cpp:71-116 | errors below 17 and below 22 bytes; otherwise the six-byte groups in order, those with the top bit of their fifth byte set as hits and the others as markers |
| `StructSerializer.MarkerToCompact` | backend/srs/converters/StructSerializer.cpp:34-65 | succeeds exactly if both fields fit, with the packed word |
| `StructSerializer.HitToCompact` | backend/srs/converters/StructSerializer.cpp:67-94 | the fields are set one after the other in wire order: succeeds exactly if all fields fit, with the packed word, and otherwise fails |
| `StructSerializer.StructSerializer.CompactToVector` | backend/srs/converters/StructSerializer.cpp:99-108 | the in-place resize, erase and reverse leave the 6 bytes in wire order |
| `StructSerializer.StructSerializer.Convert` | backend/srs/converters/StructSerializer.cpp:119-150 | the header fields go out at their bytes; succeeds exactly if every field fits its width; with every hit the buffers of all lines go out, of which the element is one; on an error the part before the offending element |
| `StructSerializer.PrintsExactlyAlone` | backend/srs/converters/StructSerializer.cpp:127-148 | for a frame whose fields fit, what a line writes is the printed frame if and only if the frame has no hits or the buffers of all other lines are empty |
| `StructSerializer.SecondLineIsWrong` | backend/srs/converters/StructSerializer.cpp:136 | once one line has converted anything, a frame with hits that goes through the line after it is not the printed frame |
| `StructSerializer.WrittenBeforeError` | backend/srs/converters/StructSerializer.cpp:127-148 | where a field does not fit, a lone line has written the frame of the elements before it, and no marker unless all hits fit |
| `StructDeserializer.ByteReverseDataSq` | backend/srs/converters/StructDeserializer.cpp:117-125 | every word is swapped in place |
| `StructDeserializer.ReadElements` | backend/srs/converters/StructDeserializer.cpp:91-94 | the words of the frame body, remainder ignored |
| `StructDeserializer.StructDeserializer.TranslateRawData` | backend/srs/converters/StructDeserializer.cpp:100-116 | appends hits and markers, each in order |
| `StructDeserializer.StructDeserializer.Convert` | backend/srs/converters/StructDeserializer.cpp:71-98 | the two errors with the slot untouched, or every header field from its bytes, the parsed hits and markers appended to whatever the line's slot held, and the word count |
| `StructDeserializer.StructDeserializer.Run` | backend/srs/converters/StructDeserializer.hpp:38-47 | the slot holds the parse of this frame alone, its header fields read from their bytes, or an empty struct; other lines' slots are untouched |
| `DelimFile.Raw2DelimRawConverter.Convert` | backend/srs/converters/RawToDelimRawConveter.cpp:8-14 | appends the 32-bit big-endian length and the payload |
| `DelimFile.Raw2DelimRawConverter.Run` | backend/srs/converters/RawToDelimRawConveter.hpp:44-51 | the slot holds the delimited frame alone |
| `DelimFile.BinaryFile.Run` | backend/srs/sinks/BinaryFileWriter.hpp:30-37 | appends to the line's stream; the running count stays the stream length |
| `DelimFile.RawFrame.ReadOneFrame` | backend/srs/readers/RawFrameReader.cpp:31-59 | one read with stream state and buffer reuse, or the error if the file is not open |
| `DelimFile.RawFrame.Reset` | backend/srs/readers/RawFrameReader.cpp:61-65 | back to the start with cleared state |
| `DelimFile.FileRoundTrip` | backend/srs/readers/RawFrameReader.cpp:31-75 | frames below 2^32 bytes come back one per read in order, and every later read gives 0 and an empty buffer |
| `DelimFile.ReadsBackExactly` | backend/srs/converters/RawToDelimRawConveter.cpp:10 | all frames are read back if and only if each is shorter than 2^32 bytes |
| `DelimFile.ZeroMeansEnd` | backend/srs/readers/RawFrameReader.cpp:41-58 | a zero result means the end of the file if and only if no frame is empty |
| `DelimFile.ReadAtEnd` | backend/srs/readers/RawFrameReader.cpp:41-58 | past the last frame every read gives 0 and an empty buffer |
| `DelimFile.CutFile` | backend/srs/readers/RawFrameReader.cpp:31-59 | a file cut at any byte: the complete frames come back one per read in order, then one read is short with what is left, and every later read gives 0 |
| `DelimFile.DelimitedBytes` | backend/srs/converters/RawToDelimRawConveter.cpp:8-14 | four bytes that weigh the length modulo two to the 32, then the frame |
| `DelimFile.ReadInBytes` | backend/srs/readers/RawFrameReader.cpp:31-59 | what one read delivers from any bytes that are left: as many as the first four weigh, or fewer at the end of the file, with position and stream state |
| `DelimFile.NothingLeft` | backend/srs/readers/RawFrameReader.cpp:41-58 | less than a length, or a file read to its end, delivers nothing |
| `DelimFile.StreamOfFrames` | backend/srs/sinks/BinaryFileWriter.hpp:34-35 | the stream of delimited chunks is the file of the frames |
| `ConvertGraph.HasDependencyIsReachability` | backend/srs/converters/DataConvertOptions.hpp:80-101 | for any acyclic relation list the recursive query is reflexive-transitive reachability |
| `ConvertGraph.DependersShrink` | backend/srs/converters/DataConvertOptions.hpp:93-95 | the recursion ends: along a relation the set of dependers gets strictly smaller |
| `ConvertGraph.AcyclicIffRanked` | backend/srs/converters/DataConvertOptions.hpp:67-77 | a list has no cycle if and only if some rank falls along every relation |
| `ConvertGraph.ShippedAcyclic` | backend/srs/converters/DataConvertOptions.hpp:67-77 | the shipped relations have no cycle |
| `ConvertGraph.ShippedAnswers` | backend/srs/converters/DataConvertOptions.hpp:80-101 | the query on the shipped relations, for all pairs of options |
| `ConvertGraph.DependsExactly` | backend/srs/converters/DataConvertOptions.hpp:67-101 | which option depends on which, spelled out |
| `SinkManager.EachNames` | backend/srs/sinks/Manager.cpp:148-199 | each kind's sinks are exactly those that the output names ask for, each once and in the order of their keys |
| `SinkManager.NamesAreRouted` | backend/srs/sinks/DataWriterOptions.hpp:22-52 | a sink made from an output name requires the conversion that its kind reads |
| `SinkManager.Manager.SetOutputFilenames` | backend/srs/sinks/Manager.cpp:148-199 | the sinks after a list of names, by kind and in key order, and the writers constructed on the way, one for each name given |
| `SinkManager.Manager.AddFile` | backend/srs/sinks/Manager.cpp:111-117 | constructs the writer, which truncates its file, and inserts it unless the name is taken |
| `SinkManager.AskedForAsOftenAsNamed` | backend/srs/sinks/Manager.cpp:148-199 | a name that is given n times constructs its writer n times |
| `SinkManager.Manager.IsConvertRequired` | backend/srs/sinks/Manager.cpp:80-86 | true if and only if some file, socket, JSON, ROOT or checking sink depends on the conversion |
| `SinkManager.Manager.GenerateConversionReqMap` | backend/srs/sinks/Manager.cpp:88-101 | one entry per option saying whether a sink of any kind requires it; `none` stands in when there is no sink of any kind |
| `SinkManager.AllKinds` | backend/srs/sinks/Manager.hpp:118-130 | the sinks of all five kinds are visited, and nothing else |
| `SinkManager.VisitingOrder` | backend/srs/sinks/Manager.hpp:118-130 | files, then sockets, JSON files, the frame counter check and ROOT files, by position |
| `SinkManager.RequiredBySome` | backend/srs/sinks/Manager.cpp:80-86 | a conversion is required if and only if a sink of some kind depends on it |
| `OutputNames.NamesByEnding` | backend/srs/sinks/DataWriterOptions.hpp:38-54 | the kind and the conversion of every name that ends in one of the five extensions behind a stem |
| `OutputNames.NamesWithColon` | backend/srs/sinks/DataWriterOptions.hpp:29-36 | a colon makes a socket, for raw data if there is a question mark and for messages otherwise |
| `OutputNames.NoOtherNames` | backend/srs/sinks/DataWriterOptions.hpp:56 | no other name stands for anything |
| `OutputNames.SinkAskedFor` | backend/srs/sinks/Manager.cpp:148-199 | a name asks for its sink unless ROOT is missing or the address does not resolve |
| `OutputNames.NamedAreKept` | backend/srs/sinks/Manager.cpp:148-199 | the sink of every name is in the collection of its kind |
| `OutputNames.OnlyNamedAreKept` | backend/srs/sinks/Manager.cpp:148-199 | the collections hold nothing else, and the frame counter check is there exactly if enabled |
| `OutputNames.KeysAscend` | backend/srs/sinks/Manager.cpp:111-117 | each collection is in the order of its names, character by character |
| `TaskGraph.WiringOk` | backend/srs/workflow/TaskDiagram.cpp:189-240 | for any collection of sinks: a converter is created if and only if some sink depends on it, and every task is preceded by the task it reads |
| `TaskGraph.ChainToRaw` | backend/srs/workflow/TaskDiagram.cpp:149-152 | from every task the preceding tasks lead back to one that reads the raw data |
| `TaskGraph.SinkTasks` | backend/srs/workflow/TaskDiagram.cpp:204-240 | a sink gets a task if and only if it reads bytes or some sink depends on the structs, and the task reads the conversion meant for it |
| `TaskGraph.NamedSinksHaveTasks` | backend/srs/workflow/TaskDiagram.cpp:204-240 | every visited sink of a list of names, the frame counter check included, gets a task |
| `OutputNames.WantedIsWired` | backend/srs/workflow/TaskDiagram.cpp:204-240 | for every name that asks for a sink, and for the check when enabled, that very sink is visited and has a task |
| `TaskGraph.StructSinkWithoutTask` | backend/srs/workflow/TaskDiagram.cpp:213-216 | a struct sink that asks for raw data alone gets none |
| `TaskGraph.StageStep` | backend/srs/workflow/TaskDiagram.cpp:155-174 | creating one converter keeps the wiring fed and creates it exactly if required |
| `TaskGraph.TaskDiagram.EmplaceToTaskflow` | backend/srs/workflow/TaskDiagram.cpp:135-152 | the new task, what it reads and what precedes it |
| `TaskGraph.TaskDiagram.CreateConverter` | backend/srs/workflow/TaskDiagram.cpp:155-174 | the task or nothing, and the converters that exist afterwards |
| `TaskGraph.TaskDiagram.CreateSinkTask` | backend/srs/workflow/TaskDiagram.cpp:177-187 | the task, or nothing without a predecessor |
| `TaskGraph.TaskDiagram.ConstructTaskflowLine` | backend/srs/workflow/TaskDiagram.cpp:189-240 | the wiring of a line |
| `TaskGraph.TaskDiagram.ConstructTaskflow` | backend/srs/workflow/TaskDiagram.cpp:67-74 | all lines are wired the same way with exactly the converters that some sink depends on |
| `TaskLines.ParallelLinesRefinePlain` | backend/srs/workflow/TaskDiagram.cpp:134-152 | for any interleaving of all lines that respects each line's precedences, each sink has received, in frame order, the plain conversion of each frame of its line alone |
| `TaskLines.SinksReceivePlain` | backend/srs/workflow/TaskDiagram.cpp:189-240 | for the wiring of any collection of sinks, on a line between two frames: every attached sink has received each frame of the line in the form it is meant to get |
| `OutputNames.WantedReceives` | backend/srs/workflow/TaskDiagram.cpp:189-240 | in any run, on a line between two frames, the task of such a sink has delivered every frame of the line to it, in order and in its form |
| `OutputNames.ReceivedForm` | backend/srs/workflow/TaskDiagram.cpp:213-239 | the form: the frame itself, the delimited frame, the encoded or delimited message of the parsed struct, or the struct, by kind and conversion |
| `TaskLines.InputIsPlain` | backend/srs/workflow/BaseTask.hpp:63-78 | what a task reads belongs to the current frame, however stale the slots were |
| `TaskLines.RunOk` | backend/srs/workflow/BaseTask.hpp:63-78 | the per-line invariant over whole runs, sample counts included |
| `TaskLines.RejectedFrameIsEmpty` | backend/srs/converters/StructDeserializer.hpp:38-47 | in any run, what a struct sink received for a line's i-th frame is what that frame parses to, and an empty struct if it is rejected, whatever the frames before it held |
| `TaskLines.RawFileGivesFramesBack` | backend/srs/sinks/BinaryFileWriter.hpp:30-37 | the file that a raw-frame sink writes for a line gives that line's frames back in order |
| `TaskLines.SomeTaskIsReady` | backend/srs/workflow/TaskDiagram.cpp:147-150 | within a frame some task is always ready until all have run |
| `TaskExecution.LineTasks.RunConverter` | backend/srs/converters/StructToProtoConverter.hpp:33-41 | a converter refills its own slot of its own line with the conversion of what it reads |
| `TaskExecution.LineTasks.RunSink` | backend/srs/sinks/BinaryFileWriter.hpp:30-37 | a sink takes what its converter delivers on its line |
| `TaskExecution.LineTasks.RunOnce` | backend/srs/workflow/BaseTask.hpp:63-78 | one run of a task is one step of the interleaved machine, counted once |
| `TaskExecution.LineTasks.Output` | backend/srs/converters/ProtoSerializer.hpp:40-44 | the line's slot of the converter that is read |
| `PipelineTheorems.SinksReceiveTaken` | backend/srs/workflow/TaskDiagram.cpp:100-116 | for data path and tasks in one run, on a line between two frames: every attached sink has received exactly the frames that the line took, in that order and in the form it is meant to get, and one empty frame after the pill if the line goes on after its stop |
| `PipelineTheorems.LinesShareFrames` | backend/srs/workflow/TaskDiagram.cpp:100-116 | in any such run one log of taken frames is, by sockets, the beginning of what each socket received and was not refused, and, by lines, what the tasks of each line began with |
| `PipelineTheorems.LineOrder` | backend/srs/workflow/TaskDiagram.cpp:100-116 | on each line a socket's frames are a subsequence of what that socket received and was not refused |
| `PipelineTheorems.OnlyTasksDelay` | backend/srs/workflow/TaskDiagram.cpp:100-116 | the tasks hold the data path back at one point only: a line recycles its buffer after they are done |
| `PipelineSteps.SeenIsLines` | backend/srs/workflow/TaskDiagram.cpp:149-150 | what a task reads out of the line's buffer is the frame the line's tasks began with, however far the other threads got |
| `PipelineSteps.RunGood` | backend/srs/workflow/TaskDiagram.cpp:100-116 | every run of both is a run of the data path and a run of the tasks, which agree about every line |
| `FecMessages.SerializableMsgBuffer.EncodeWriteMsg` | backend/srs/connections/ConnectionBase.cpp:44-57 | appends counter, padding, address, command bits and the entries |
| `FecMessages.SerializableMsgBuffer.Serialize` | backend/srs/converters/SerializableBuffer.hpp:23-33 | appends |
| `FecMessages.RequestBytes` | backend/srs/connections/Connections.hpp:34-85 | the 24 bytes of the start and the stop command |
| `FecMessages.EncodedIsInjective` | backend/srs/connections/ConnectionBase.cpp:44-57 | counter, data and address can be read off an encoded message |
| `FecMessages.ResponsesTellTheKind` | backend/srs/connections/Connections.cpp:11-33 | answers of different kinds differ, and no answer is empty or a request |
| `FecMessages.ResponseBytes` | backend/srs/connections/Connections.cpp:11-33 | the 24 bytes of the two answers |
| `FecMessages.EncodedPreamble` | backend/srs/connections/ConnectionBase.cpp:44-57 | counter, padding, address and command bits of any message, in weighted bytes |
| `FecMessages.EncodedEntry` | backend/srs/connections/ConnectionBase.cpp:44-57 | every entry of any message, in weighted bytes |
| `FecMessages.ClassifiedExactly` | backend/srs/emulators/FECEmulator.cpp:85-109 | an encoded message is taken for a kind if and only if its data end with that kind's suffix |
| `FecMessages.ClassifiedByLastBytes` | backend/srs/emulators/FECEmulator.cpp:85-109 | any bytes whatever are taken for a command if and only if they end with its twelve bytes |
| `FecMessages.ClassifyRecoversKind` | backend/srs/emulators/FECEmulator.cpp:85-109 | the kind sent is recovered, and an answer is no command |
| `FecSocket.PendingAccounting` | backend/srs/connections/FecSwitchSocket.cpp:63-128 | over any sequence of registrations and messages, per endpoint: pending + recognised = registered, as multisets |
| `FecSocket.FinishedExactly` | backend/srs/connections/FecSwitchSocket.cpp:175-180 | the socket is finished if and only if all registered commands of all endpoints were recognised |
| `FecSocket.UnrecognisedChangesNothing` | backend/srs/connections/FecSwitchSocket.cpp:158-173 | a message changes nothing if and only if its endpoint is unknown or no pending command there accepts it; other endpoints never change |
| `FecSocket.SwapPopRemovesOne` | backend/srs/connections/FecSwitchSocket.cpp:42-43 | swap-and-pop removes exactly the one element |
| `FecSocket.ReceiveExactly` | backend/srs/connections/FecSwitchSocket.cpp:34-45 | the list after a message that some command expects: the first such command is gone and the last one has its place |
| `FecSocket.NothingExpected` | backend/srs/connections/FecSwitchSocket.cpp:95-128 | a message changes nothing if and only if no command of a known endpoint expects it; a registered command joins the end |
| `FecSocket.FecCommandSocket.RegisterSendAction` | backend/srs/connections/FecSwitchSocket.cpp:63-73 | the command joins its endpoint's list |
| `FecSocket.FecCommandSocket.RemoveOnceIf` | backend/srs/connections/FecSwitchSocket.cpp:34-45 | removes the first accepting command, if any |
| `FecSocket.FecCommandSocket.DeregisterConnection` | backend/srs/connections/FecSwitchSocket.cpp:95-128 | the endpoint's list after a message |
| `FecSocket.FecCommandSocket.ResponseHandler` | backend/srs/connections/FecSwitchSocket.cpp:158-173 | the connections after a message from a known or unknown endpoint |
| `FecSocket.FecCommandSocket.IsFinished` | backend/srs/connections/FecSwitchSocket.cpp:175-180 | true if and only if no endpoint owes an answer |
| `FecSocket.FecCommandSocket.IsFinishedWhileReceiving` | backend/srs/connections/FecSwitchSocket.cpp:175-180 | the scan takes no lock: with messages received before each look, yes means finished from then on and no means not finished at the start |
| `FecSocket.ScanIsNotFalselyTrue` | backend/srs/connections/FecSwitchSocket.cpp:175-180 | a scan that sees every endpoint empty, each at its own time, is true at its end if nothing is registered meanwhile |
| `FecSocket.RegistrationFoolsScan` | backend/srs/connections/FecSwitchSocket.cpp:175-180 | with a registration in between, a scan sees both endpoints empty although the socket was finished at no time |
| `FecTheorems.NoFalseCompletion` | backend/srs/connections/FecSwitchSocket.cpp:175-180 | over a network that loses, duplicates and reorders, without stale answers: when the socket is finished, every registered endpoint's emulator has processed a request of every registered kind |
| `FecTheorems.FinishedMeansApplied` | backend/srs/emulators/FECEmulator.cpp:189-206 | when the socket is finished, a registered command has taken effect if and only if the emulator is not busy with the only one of that kind it heard |
| `FecTheorems.EffectIsNotGuaranteed` | backend/srs/emulators/FECEmulator.cpp:189-206 | that a finished socket means every command has taken effect can be relied on if and only if no emulator listens, because the answer is spawned before the command is acted on |
| `FecTheorems.HeardOncePerKind` | backend/srs/connections/FecSwitchSocket.cpp:107-112 | that a finished socket with n commands of a kind means n heard requests of it can be relied on if and only if n is at most one, because an answer may be duplicated |
| `FecTheorems.HearingsAccounted` | backend/srs/emulators/FECEmulator.cpp:181-206 | over any run: what an emulator processed, applied and started follows from the number of commands of each kind it heard and from what it is busy with |
| `FecTheorems.EveryStartSends` | backend/srs/emulators/FECEmulator.cpp:143-149 | every start command that is heard, a duplicate as well, resets the frame counter and starts another data sender |
| `FecTheorems.SwitchFollowsCommands` | backend/srs/emulators/FECEmulator.cpp:143-206 | over any run a front-end is switched off if and only if the command it acted on last was a stop, or it acted on none and was off at first; it listens if and only if it did at first and went on after every stop |
| `FecTheorems.HeardInBytes` | backend/srs/emulators/FECEmulator.cpp:168-189 | of the first 96 bytes of a message the last twelve decide, and the answer is 24 given bytes or nothing |
| `FecTheorems.StartAwaitsItsBytes` | backend/srs/connections/Connections.cpp:11-20 | a registered start is done after exactly the bytes of its answer, and a stop's answer leaves it |
| `FecTheorems.StopAwaitsItsBytes` | backend/srs/connections/Connections.cpp:23-28 | the same of a stop |
| `FecTheorems.RequestsAreRegistered` | backend/srs/connections/FecSwitchSocket.cpp:63-73 | in any run a request on the network was there at first or belongs to a registered command |
| `FecTheorems.OneAnswerFinishesAll` | backend/srs/connections/FecSwitchSocket.cpp:107-112 | a run in which the answer to one request finishes any number of commands of its kind, before the request takes effect |
| `FecTheorems.RegisteredIffCounted` | backend/srs/emulators/FECEmulator.cpp:181-189 | registered and processed commands are exactly those that the run registers and the emulator hears |
| `FecTheorems.SilentNeverFinishes` | backend/srs/connections/FecSwitchSocket.cpp:175-180 | where no emulator listens only a socket without commands is finished |
| `FecInvariant.StepInv` | backend/srs/emulators/FECEmulator.cpp:168-209 | every step keeps: answers on the network tell of processed commands, and unprocessed commands are still awaited |
| `FecInvariant.StillAwaits` | backend/srs/connections/FecSwitchSocket.cpp:107-112 | only an answer of its own kind takes a pending command off the list |
| `FecTheorems.StoppedStaysStopped` | backend/srs/emulators/FECEmulator.cpp:200-205 | an emulator that stopped listening processes nothing more |
| `FecNetwork.FECEmulator.Receive` | backend/srs/emulators/FECEmulator.cpp:181-189 | the message is classified and its answer spawned before anything is acted on |
| `FecNetwork.FECEmulator.Act` | backend/srs/emulators/FECEmulator.cpp:143-156 | the switch is off if and only if the command was a stop; a start resets the frame counter and starts a data sender, and a stop ends the listening unless the world is non-stop |
| `LogCheck.LogFile.Read` | backend/srs_check.cpp:61-83 | the first `lineCounter` slots hold exactly the lines after the last marker, those kept from an earlier read included, despite reuse and doubling |
| `LogCheck.LastInstanceIs` | backend/srs_check.cpp:75-82 | these are the longest end of the file without a marker |
| `LogCheck.MarkerForgets` | backend/srs_check.cpp:74-82 | a line that ends with the marker text, whatever comes before the text, makes all lines up to it forgotten |
| `LogCheck.NothingForgotten` | backend/srs_check.cpp:74-82 | a file in which no line ends with that text is kept whole |
| `LogCheck.LogFile.GrowTo` | backend/srs_check.cpp:148-160 | more slots, with the kept lines unchanged |
| `LogCheck.LogFile.Analysis` | backend/srs_check.cpp:118-139 | one entry per scope name that occurs, begins minus ends, going on from what was analysed before |
| `LogCheck.LogFile.Summarize` | backend/srs_check.cpp:85-108 | true if and only if no entry differs from zero |
| `LogCheck.CheckLog` | backend/srs_check.cpp:183-193 | the whole check: clean if and only if every name is balanced in the last instance |
| `LogCheck.BalanceCountsOpen` | backend/srs_check.cpp:125-138 | a name's count is its open scopes less the stray exits, for any interleaving |
| `LogCheck.SummaryMeans` | backend/srs_check.cpp:85-108 | the summary is clean if and only if for every name as many scopes are open as exits are stray |
| `LogCheck.CleanIffAllClosed` | backend/srs_check.cpp:85-108 | if no exit precedes its entry, clean if and only if every scope was closed |
| `LogCheck.ReliableIffNoStray` | backend/srs_check.cpp:85-139 | clean means that every scope was closed, however the log goes on without stray exits, if and only if no exit so far came before its entry |
| `LogCheck.VerdictIsClean` | backend/srs_check.cpp:118-139 | the verdict on any lines depends on the scope lines among them only and is the one this condition speaks of |
| `LogCheck.StrayExitHidesOpenScope` | backend/srs_check.cpp:132-136 | an exit whose entry lies before the last marker hides an open scope of the same name |

## Left out

- What `pipeflow.stop()` does outside the first pipe is the library's matter: the model covers a stop after
  which the lambda runs on, with one more turn of the tasks on an empty frame, and one after which it does not.
- Delivery of all queued frames before the pills: producers are ordered only among themselves, and the
  abort-ready test is a heuristic over sleeping time, modelled as a step that may come at any time.
- Wake-up and liveness of `stop_workflow`; the condition variable is a guard.
- The pre-fill loop of the queue ends at the first failed push; the model takes the number of buffers
  that fit as a parameter.
- DataPathClass.Workflow.Dequeue: may return while the line is still waiting, because a blocking wait may
  last for ever; the wait lasts only while the queue is empty and no pills were pushed.
- DataPathClass.Workflow.RunTask: the same wait is a third result.
- DataPathClass.Workflow.StopWorkflow: the wait for the start may likewise still last.
- FrameCount.FrameCountChecker.RegisterFrameCounter: the interference of other lines is any finite list of steps,
  because a weak compare-exchange may fail for ever otherwise.
- Frame buffers in the data path are values that name a storage block, because ownership is stated
  over blocks; `LargeBuffers.FrameBuffer` is the object form and is tied to them.
- LargeBuffers.FrameBuffer.MoveFrom: does not model the assignment of a buffer to itself, because the state
  of a vector after that is left open by the language.
- Several lines of the serializer at the same time: its hit loop reads the buffers of all lines, so their
  conversions are modelled one after the other.
- Counters are unbounded: the 64-bit totals and the `int` counts of the log checker do not overflow, and frame
  counters are taken from one epoch without wrap-around or emulator resets.
- Conversion to protobuf messages and their encoding, gzip, JSON and ROOT output are foreign code; the
  first three appear as functions, the others not at all.
- The order of map keys compares characters, not bytes of an encoding.
- The address resolution of UDP sinks and whether ROOT is built in are parameters.
- UDP sinks: only that they receive a line's bytes.
- The regular expressions of the log checker are a function from lines to marks; printing is left out.
- Time measurements, rates, reports, console output, the command line, configuration and the graphical parts.
- Coroutines, timers, signal handling and futures, except as the steps "message received" and "stop requested".
- The random frame content and the frame sending loop of the emulator, and the value of its frame counter; that
  a start resets it and spawns a loop is counted.
