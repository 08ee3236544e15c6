# Verification of the Hiro gateway, storage worker, plugin transport and admin settings

Dafny models of the parts of this repository where a mistake would corrupt data
or lose a message, with proofs of what each part is for. `dafny verify
dfyconfig.toml` checks them all.

**The web client's storage worker** (`drift_worker.dart.js`).

- *Big integers.* Numbers are arrays of 16-bit digits, written in place by the
  digit loops (`Digits`, `DigitLoops`, `DigitShifts`). `BigInts.BigInt` proves
  each signed operation equal to the integer one; `LongDivision` proves the
  quotient-digit estimate, its corrections and the loop; `BigIntDivision` adds
  the cache of the last division; `BigIntText` prints and parses. Masks and
  shifts are defined bit by bit in `Bits`.
- *Persistence queue.* `Coalesce` says what pending creates, writes, deletes
  and barriers do and how a new one is combined with them; `QueueRuns` runs the
  queue under any interleaving and drains it; `Combining` proves that pending work
  is in fact combined; `FileSystem` puts opening, deleting, writing and resizing
  files on top. `LinkedRing` and `PersistQueue` are the same queue on the
  intrusive circular list the worker uses, proved equal to it step by step.
- *Files and blocks.* `BlockStore` has the growable buffer and the block
  writer, `FileMirror` the agreement between a file, its 4096-byte blocks and
  the work still pending, `MirroredFiles` the objects that share arrays.
  `FileWorker` joins these with the queue: all files, combined operations,
  live views and blocks in one run; `FileHistory` states the whole of it by the
  callers' operations alone, byte by byte.
- *Future-chained lock* (`FutureLock`), *UTF-8 encoder* (`Utf8`,
  `Utf8Encoder`) and *dot segments* (`DotSegments`).

**The gateway relay** (`relay.py`). `Gateway` holds the shared tables and a
step system with one step for each segment a connection handler runs between
two awaits; a run is any sequence of enabled steps of any number of handlers.
`GatewayInvariant`, `GatewayDelivery` and `GatewayPairing` prove what holds in
every reachable state and over every run; `GatewayDepartures` and
`GatewayOrphans` say exactly what ends a session and what leaves a pairing entry
behind, with `RelayLabels` for the labels whose computation can raise;
`GatewayFrames` says what each step leaves alone. `GatewayHistory`,
`GatewayAnswers`, `GatewayClosing` and `GatewayTraffic` give the same books by the
steps of a run alone, without the handlers' phases: who holds an id, where each
received frame and each pairing answer goes, which sockets are closed, and
everything that is sent. `GatewayProgress` proves that no handler is ever stuck.

**Smaller parts.** `PluginSession` and `PluginHistory` (the JSON-RPC plugin
transport, step by step and by the history of a run),
`TraceCrawl`, `StartOrder` and `TraceTree` (fetching and nesting a trace),
`Codecs` and `PersistentState` (stored admin settings), `SearchSplit`
(highlighting).

## What is assumed

A socket send appends in call order, succeeds while the socket is open and
raises once it is closed. Pairing request ids and plugin request ids are fresh.
Browser storage writes succeed and nothing else writes the same key. The runs a
trace server returns for a query are the ones it has, in any order and any
number of times. Writing a log line and turning a parsed message back into text
succeed. JSON text is a pair of functions; where a record or keyed map is read
back, parsing is asked to undo writing on the object that was stored. Text is a
sequence of Unicode characters: that the admin page slices UTF-16 units, and so
may split a character outside the basic plane, is not expressed. Lowercasing is
a function of which only what it empties is used, and the search results about
hits ask that it keep the characters of the text being split in place. Plugin
callbacks, timers, peers and the network are nondeterministic steps or
parameters.

## Where the code does something to know about

- A pending create of a file that is already stored, combined with a delete,
  leaves the file, which running both would have removed
  (`FailingCreateIsNotPreserved`); this is the only case in which combining
  changes the outcome (`EnqueueMeaning`), and no history of file operations
  reaches it (`CombiningIsAlwaysSound`).
- A write through a handle whose file was deleted brings the file back in
  memory only, and until it is removed again every later write is missed by the
  store too, though it finds the file in memory (`StaleHandleWitness`). A write
  reaches the store exactly when its file is in memory and not astray in this
  way (`WriteReachesStoreExactly`).
- A truncation keeps the old bytes of the block it cuts, so a later growth can
  show them again from the store (`TruncateThenGrowParts`), exactly if they are
  not all zeros (`TruncateCleanExactly`, `TruncateAgreesExactly`).
- A pending write keeps a live view of the file's buffer, so what it will flush
  can change after it was queued; the agreement proof covers this.
- A registered handler can lose its registration without its peer hanging up:
  a pairing response to a client that has already left ends the desktop's own
  session (`LateAnswerWitness`), and so does a frame that cannot be read, a JSON
  frame that is not an object or whose target cannot be a key, and one whose
  payload makes the labels for the log raise before the message is routed
  (`UnlabelledMessageWitness`). These and its peer hanging up are the only causes
  (`SessionEndsForCause`).
- A pairing client that leaves, or whose desktop is gone, before its timeout
  leaves its pending entry behind (`OrphanWitness`, exactly when:
  `OrphanedExactly`).
- The plugin's stop method only sets the stop event: frames are handled until
  the server closes the connection. An `on_stop` that does not return leaves the
  plugin counted as started (`StartedAfterEnd`), and the next configure does not
  start it (`StaleStartWitness`).
- Lowercasing can move characters: in a text with U+0130 the part marked as a
  hit is not the query (`MisalignedSplit`). Texts that lowercase part by part are
  safe exactly when they stay as long (`TruthfulExactly`); a final sigma does not
  lowercase like that (`FinalSigma`).
- A trace whose root is below itself has no tree (`LoopHasNoTree`); the original
  recurses until Python stops it.
- A numeric default outside its own bounds is shown after a reset but read back
  clamped (`DefaultOutOfBounds`); record fields outside the schema are never
  stored; a keyed map loses the key `__proto__`.

## Model

| member | source | states |
|---|---|---|
| DigitLoops.AbsAdd | device_apps/web/drift_worker.dart.js:2544-2559 | the digits written, final carry included, stand for the sum of the two operands, and nothing above them changes |
| DigitLoops.AbsSub | device_apps/web/drift_worker.dart.js:2560-2573 | in place or not, the digits written stand for the difference, taken modulo the base's power when it is negative |
| DigitLoops.MulAddColumn | device_apps/web/drift_worker.dart.js:2574-2589 | every intermediate of a multiply-add column is below 2^32 and the carry it leaves is one digit |
| DigitLoops.MulAdd | device_apps/web/drift_worker.dart.js:2574-2589 | the accumulator grows by digit times operand at its position, everything below it untouched, the last carry always finding room |
| DigitShifts.UsedDigits | device_apps/web/drift_worker.dart.js:2433-2437 | the length without high zeros, standing for the same number |
| DigitShifts.CompareDigits | device_apps/web/drift_worker.dart.js:2538-2543 | the sign of the result is the sign of the difference of the two trimmed numbers |
| DigitShifts.CloneRange | device_apps/web/drift_worker.dart.js:2438-2443 | a fresh array with the range copied and zeros after it |
| DigitShifts.MoveUp | device_apps/web/drift_worker.dart.js:2492-2502 | the number times a power of the base, moved within one array or into another |
| DigitShifts.ShiftUp | device_apps/web/drift_worker.dart.js:2503-2513 | the packed words stand for the number times 2^k, and only their places change |
| DigitShifts.ShiftUpTrimmed | device_apps/web/drift_worker.dart.js:2514-2523 | the shifted number and its exact trimmed length |
| DigitShifts.ShiftDown | device_apps/web/drift_worker.dart.js:2524-2537 | result times 2^l plus the bits dropped is the number shifted |
| BigInts.BigInt.FromInt | device_apps/web/drift_worker.dart.js:2451-2468 | the big integer of a machine integer, trimmed, zero never negative |
| BigInts.BigInt.Negate | device_apps/web/drift_worker.dart.js:8243-8248 | the opposite value, zero staying non-negative |
| BigInts.BigInt.PlusAbs | device_apps/web/drift_worker.dart.js:8313-8321 | the sum of the magnitudes under a given sign, whichever operand is longer |
| BigInts.BigInt.MinusAbs | device_apps/web/drift_worker.dart.js:8322-8329 | the difference of the magnitudes under a given sign |
| BigInts.BigInt.Plus | device_apps/web/drift_worker.dart.js:8330-8337 | the integer sum, for all signs |
| BigInts.BigInt.Minus | device_apps/web/drift_worker.dart.js:8338-8345 | the integer difference, for all signs |
| BigInts.BigInt.CompareTo | device_apps/web/drift_worker.dart.js:8308-8312 | the sign of the difference of the two integers |
| BigInts.BigInt.Times | device_apps/web/drift_worker.dart.js:8346-8355 | the integer product, for all signs |
| BigInts.BigInt.ShiftLeftDigits | device_apps/web/drift_worker.dart.js:8249-8260 | the integer times a power of the base |
| BigInts.BigInt.ShiftRightDigits | device_apps/web/drift_worker.dart.js:8261-8275 | floor division by a power of the base, for negative numbers too |
| BigInts.BigInt.ShiftLeft | device_apps/web/drift_worker.dart.js:8276-8287 | an error for a negative amount, otherwise the integer times 2^b |
| BigInts.BigInt.ShiftRight | device_apps/web/drift_worker.dart.js:8288-8307 | an error for a negative amount, otherwise the floor of the integer by 2^b |
| BigInts.FloorIsDivision | device_apps/web/drift_worker.dart.js:8288-8307 | the floor used by the right shifts is division by 2^n rounding down, for every integer |
| LongDivision.EstimateBounds | device_apps/web/drift_worker.dart.js:2590-2598 | for a divisor whose top digit is at least half the base, the digit estimate is never below the quotient digit and at most 2 above it |
| LongDivision.QuotientStep | device_apps/web/drift_worker.dart.js:8404-8409 | one turn of the quotient loop leaves the exact quotient digit and the exact remainder below it, after at most two corrections |
| LongDivision.QuotientLoop | device_apps/web/drift_worker.dart.js:8403-8409 | the whole loop leaves quotient digits over remainder digits |
| LongDivision.Normalise | device_apps/web/drift_worker.dart.js:8374-8387 | both operands shifted by the same amount, the divisor to a top digit of at least half the base |
| LongDivision.DivideDigits | device_apps/web/drift_worker.dart.js:8374-8409 | the working array holds quotient and remainder of the two shifted operands, the remainder below the divisor |
| BigIntDivision.TruncDivision | device_apps/web/drift_worker.dart.js:8356-8371 | x == q*y + r with the remainder smaller than the divisor and signed like the dividend |
| BigIntDivision.DivisionCache.Divide | device_apps/web/drift_worker.dart.js:8372-8416 | the remembered state answers for these operands, whether it was computed now or kept from the last call |
| BigIntDivision.DivisionCache.Quotient | device_apps/web/drift_worker.dart.js:8356-8363 | the quotient rounded towards zero, for all signs and any nonzero divisor |
| BigIntDivision.DivisionCache.Remainder | device_apps/web/drift_worker.dart.js:8364-8371 | the remainder of that division, with the dividend's sign |
| BigIntText.Print | device_apps/web/drift_worker.dart.js:8424-8445 | the usual decimal numeral of the integer, minus sign included |
| BigIntText.DecimalByChunk | device_apps/web/drift_worker.dart.js:8433-8443 | a numeral is the numeral of its 10000-quotient followed by exactly four digits, zeros padded |
| BigIntText.TwoDigitsUsed | device_apps/web/drift_worker.dart.js:8433-8443 | while the print loop runs, the quotient by 10000 is not zero, so a chunk is always left for after the loop |
| BigIntText.ParseDecimal | device_apps/web/drift_worker.dart.js:2390-2396 | reading four digits at a time gives the value of the whole numeral, leading partial chunk included |
| BigIntText.TextRoundTrip | device_apps/web/drift_worker.dart.js:2390-2396 | sign and digits of a numeral determine the integer printed |
| BigIntText.Reread | device_apps/web/drift_worker.dart.js:8424-8445 | printing and parsing back returns the same integer |
| Coalesce.FindWrite | device_apps/web/drift_worker.dart.js:12942-12949 | the write found is the latest to that file, with only creates and writes of other files after it |
| Coalesce.DeleteMeaning | device_apps/web/drift_worker.dart.js:12902-12916 | for any pending work, purging a file's pending work and queueing the delete only if still needed has the delete's effect, if and only if no purged create would have found the file there |
| Coalesce.JoinedWriteMeaning | device_apps/web/drift_worker.dart.js:12941-12951 | for any pending work, joining patches into an earlier pending write leaves the store as writing them last would |
| Coalesce.EnqueueMeaning | device_apps/web/drift_worker.dart.js:12895-12951 | for any pending work and any operation, the combined queue does what the old queue followed by the operation does, if and only if it is not a delete of a file that survives its purged create; a queue whose creates all find no file stays so |
| QueueRuns.IssueSettlesExactly | device_apps/web/drift_worker.dart.js:12762-12765 | issuing any operation on any queue changes the store it will settle on by that operation, with exactly that exception |
| QueueRuns.StepSettles | device_apps/web/drift_worker.dart.js:12762-12770 | issuing, starting and finishing keep the store the queue will settle on |
| QueueRuns.CoalescingPreservesMeaning | device_apps/web/drift_worker.dart.js:12762-12770 | under every interleaving of issuing and running, what is pending settles on the store that running every operation in order gives, if no create finds its file there; writes may fail |
| QueueRuns.DrainedStore | device_apps/web/drift_worker.dart.js:12762-12770 | once drained, the store is that of the operations run one by one |
| QueueRuns.FailingCreateIsNotPreserved | device_apps/web/drift_worker.dart.js:12909-12914 | a concrete create of a stored file that, combined with a delete, leaves the file, as running both does not |
| QueueRuns.OneItemLess | device_apps/web/drift_worker.dart.js:12766-12770 | starting the first waiting item and finishing it leaves one item less waiting and the store it was to settle on |
| QueueRuns.CanDrain | device_apps/web/drift_worker.dart.js:12846-12850 | every queue can be drained, by starting and finishing at most twice as many times as items wait and once more, and its store is then the one it was to settle on |
| Combining.EnqueueCombines | device_apps/web/drift_worker.dart.js:12895-12951 | issuing any operation on a queue with nothing left to combine leaves nothing left to combine |
| Combining.AlwaysCombined | device_apps/web/drift_worker.dart.js:12762-12770 | so does any interleaving of issuing, starting and finishing |
| Combining.NothingLeftToCombine | device_apps/web/drift_worker.dart.js:12895-12951 | over every run: between two pending writes to one file there is a delete, a barrier or a create of that file, and between pending work on a file and a pending delete of it a barrier |
| FileSystem.DoSettles | device_apps/web/drift_worker.dart.js:12831-12879 | an operation changes what the queue will settle on by exactly what it issues, whatever that is combined with |
| FileSystem.DoKeepsMirrored | device_apps/web/drift_worker.dart.js:12831-12879 | every operation keeps a file's contents in memory equal to those the queue will settle on, unless it finds the file missing or cuts off more than zeros in its last block |
| FileSystem.DrainedStoreIsMemory | device_apps/web/drift_worker.dart.js:12831-12879 | after any history, file by file: a drained queue's store holds a file exactly if it is persistent and not brought back through a stale handle, and then what memory holds if no cut left more than zeros in its last block |
| FileSystem.StoredExactly | device_apps/web/drift_worker.dart.js:12831-12879 | after any history the store settles on exactly the persistent files that are not astray: not brought back through a stale handle since they were last removed |
| FileSystem.WriteReachesStoreExactly | device_apps/web/drift_worker.dart.js:12866-12879 | after any history a write reaches the store if and only if its file is in memory and not astray, and then changes it by the patch |
| FileSystem.DoKeepsSafe | device_apps/web/drift_worker.dart.js:12831-12879 | every file operation, through stale handles too, keeps what will be stored within memory and issues only creates that will find no file |
| FileSystem.HistoryKeepsSafe | device_apps/web/drift_worker.dart.js:12831-12879 | that holds after any history of file operations |
| FileSystem.CombiningIsAlwaysSound | device_apps/web/drift_worker.dart.js:12831-12951 | after any history of file operations, however the queue ran meanwhile, it settles on what running everything issued one by one, nothing combined, gives |
| FileSystem.NothingSurvives | device_apps/web/drift_worker.dart.js:12902-12916 | after any history of file operations no pending create finds its file there, so no file survives its own deletion |
| FileSystem.StaleHandleWitness | device_apps/web/drift_worker.dart.js:12866-12879 | a concrete create, delete and two writes through the old handle: the first brings the file back in memory only, the second finds it there and is missed by the store too |
| LinkedRing.LinkedList.Last | device_apps/web/drift_worker.dart.js:7839-7843 | the last entry of the ring, or null when it is empty |
| LinkedRing.LinkedList.Previous | device_apps/web/drift_worker.dart.js:7884-7887 | the entry before, or null at the front |
| LinkedRing.LinkedList.Append | device_apps/web/drift_worker.dart.js:7845-7858 | the ring gains exactly this entry at the end and owns it; an entry already in a list is refused and nothing changes |
| LinkedRing.LinkedList.Unlink | device_apps/web/drift_worker.dart.js:7859-7869 | the ring loses exactly this entry, whose links and owner are cleared, and stays one well-formed ring that owns its entries and no others |
| LinkedRing.LinkedList.Remove | device_apps/web/drift_worker.dart.js:7827-7830 | an entry is removed exactly when it is in this ring, wherever it stands; testing its owner field tells |
| PersistQueue.DropWrite | device_apps/web/drift_worker.dart.js:12908-12911 | unlinking during the backward walk leaves the walk at the right entry with one less to visit |
| PersistQueue.PurgeWalk | device_apps/web/drift_worker.dart.js:12902-12916 | walking and unlinking on the ring computes the purged sequence and whether the delete is still needed |
| PersistQueue.MergeStep | device_apps/web/drift_worker.dart.js:12944-12949 | one step of the walk for a write: it joins, goes on to the entry before, or gives up, as the specification says |
| PersistQueue.MergeWalk | device_apps/web/drift_worker.dart.js:12941-12949 | the walk joins the patches into the write the specification finds, and changes nothing if there is none |
| PersistQueue.PersistenceQueue.Issue | device_apps/web/drift_worker.dart.js:12762-12765 | issuing on the ring is the issuing step of the queue model |
| PersistQueue.PersistenceQueue.StartNext | device_apps/web/drift_worker.dart.js:12766-12770 | taking the first pending item out of the ring is the starting step of the queue model, which is the step that drains it (CanDrain) |
| PersistQueue.PersistenceQueue.FinishRunning | device_apps/web/drift_worker.dart.js:12846-12850 | the end of an item is the finishing step of the queue model |
| BlockStore.GrowBuffer.SetLength | device_apps/web/drift_worker.dart.js:13743-13754 | shrinking and growing keep every byte past the length zero, in the same array or a larger one |
| BlockStore.GrowBuffer.WriteAt | device_apps/web/drift_worker.dart.js:11790-11794 | a write past the end fills the gap with zeros; other bytes are unchanged |
| BlockStore.PatchInPieces | device_apps/web/drift_worker.dart.js:12746-12754 | cutting a patch at block boundaries has the effect of the patch |
| BlockStore.BlockWriter.AddWrite | device_apps/web/drift_worker.dart.js:12744-12759 | the touched blocks hold the base bytes under all patches so far, and are exactly those a patch touches |
| FileMirror.FlushedByte | device_apps/web/drift_worker.dart.js:12622-12648 | after a flush each byte is the patched one in a touched block and the old one elsewhere |
| FileMirror.RunFirstAgrees | device_apps/web/drift_worker.dart.js:12952-12964 | running the first pending write keeps pending work over the store equal to the file |
| FileMirror.JoinedWriteAgrees | device_apps/web/drift_worker.dart.js:12945 | a write joined into the last pending one keeps the agreement, though views show the new bytes |
| FileMirror.QueuedWriteAgrees | device_apps/web/drift_worker.dart.js:12866-12879 | a newly queued write keeps the agreement |
| FileMirror.DrainedAgreement | device_apps/web/drift_worker.dart.js:12588-12621 | with nothing pending, reading the blocks back gives the in-memory bytes, and every stored byte past the length is zero |
| FileMirror.TruncateCleanExactly | device_apps/web/drift_worker.dart.js:12649-12672 | a truncation keeps the bytes past the length zero if and only if the cut block already held only zeros from the cut on |
| FileMirror.TruncateAgreesExactly | device_apps/web/drift_worker.dart.js:12649-12672 | a file without pending work goes on agreeing with its blocks when it is cut if and only if it held only zeros from the cut to the end of the cut block |
| FileMirror.CutAgrees | device_apps/web/drift_worker.dart.js:13743-13754 | queueing a resizing keeps the agreement if the part of the cut block that is cut off held only zeros, though views show the bytes it clears |
| FileMirror.CutRuns | device_apps/web/drift_worker.dart.js:12649-12672 | running the first pending resizing, which drops blocks only if the stored file is longer, keeps the agreement |
| FileMirror.FlushedTail | device_apps/web/drift_worker.dart.js:12622-12648 | a flush that does not make the file shorter puts no block after its end |
| FileMirror.TruncateThenGrowParts | device_apps/web/drift_worker.dart.js:12649-12672 | a concrete truncation and growth after which memory and blocks differ |
| MirroredFiles.MirroredFile.WriteAt | device_apps/web/drift_worker.dart.js:12866-12879 | memory changes by the patch and the file still agrees with store and pending work, through buffers that are shared with pending views |
| MirroredFiles.MirroredFile.RunFirst | device_apps/web/drift_worker.dart.js:12952-12964 | one pending write runs; memory is unchanged and the agreement kept |
| FileWorker.PresentWhenSettled | device_apps/web/drift_worker.dart.js:12762-12879 | the blocks will hold a file exactly if the store of whole contents will |
| FileWorker.ActKeepsFile | device_apps/web/drift_worker.dart.js:12762-12879 | any operation on any files and every step of the queue keep a file's pending work over its blocks equal to memory, through the combined queue and live views, unless it finds that file missing or cuts off more than zeros in its last block |
| FileWorker.HistoryStored | device_apps/web/drift_worker.dart.js:12762-12879 | after any history the blocks will hold exactly the persistent files that are not astray |
| FileWorker.BlocksAreMemory | device_apps/web/drift_worker.dart.js:12762-12964 | after any history over any number of files, resizings and stale handles included, however the queue runs meanwhile: drained, the blocks hold a file exactly if it is persistent and not astray, and read back as memory, zero after the end, if no cut left more than zeros in its last block |
| FileWorker.LoadedAgrees | device_apps/web/drift_worker.dart.js:12803-12826 | a worker that has just loaded its files is in that agreement |
| FileWorker.EveryHistoryDrains | device_apps/web/drift_worker.dart.js:12762-12964 | every allowed history over any number of files can be continued, by the queue alone, to one that has drained, memory unchanged, and the blocks are then those of BlocksAreMemory |
| FileHistory.MemoryIsItsHistory | device_apps/web/drift_worker.dart.js:12831-12879 | after any history memory holds a file, its length and each of its bytes as the operations alone say: the byte last written there unless it was cut off or removed since, zero if none was |
| FileHistory.StraysAreSaid | device_apps/web/drift_worker.dart.js:12866-12879 | which files were brought back through a stale handle, by the operations alone |
| FileHistory.CutsAreSaid | device_apps/web/drift_worker.dart.js:12649-12672 | which files a cut has dropped bytes other than zero of, by the operations alone |
| FileHistory.EveryOperationIsPossible | device_apps/web/drift_worker.dart.js:12831-12879 | in every state every operation and every step of the queue can happen, so that the histories spoken of leave none out |
| FileHistory.BlocksAreHistory | device_apps/web/drift_worker.dart.js:12762-12964 | from the callers' operations to the blocks: every history can be continued to a drained one, whose blocks hold exactly the files made and not removed, neither temporary nor brought back through a stale handle, and read back the length and the bytes the operations say unless a cut dropped bytes |
| MirroredFiles.RunHistory | device_apps/web/drift_worker.dart.js:12866-12879 | after any history of writes and runs, drained, the blocks read back as the file with every write applied in order |
| FutureLock.MutualExclusion | device_apps/web/drift_worker.dart.js:10422-10442 | in every run at most one body is active |
| FutureLock.FirstComeFirstServed | device_apps/web/drift_worker.dart.js:10422-10442 | in every run bodies start in the order their uses were asked for |
| FutureLock.TailEmptyWhenIdle | device_apps/web/drift_worker.dart.js:10422-10439 | the lock's field is empty exactly when nothing runs or waits |
| FutureLock.NeverStuck | device_apps/web/drift_worker.dart.js:10422-10442 | while something waits, a body is running or the next may start |
| FutureLock.TicketsAreAsks | device_apps/web/drift_worker.dart.js:10423-10438 | every use asked for has its ticket, and a future is complete exactly when its body has finished |
| FutureLock.EveryUseCanRun | device_apps/web/drift_worker.dart.js:10422-10442 | from every reachable state all uses asked for can be run in the order they were asked for, in at most two steps each, and then the lock is idle |
| FutureLock.Lock.Use | device_apps/web/drift_worker.dart.js:10423-10430 | a use takes over the field, and starts at once exactly when the field was empty |
| FutureLock.Lock.Complete | device_apps/web/drift_worker.dart.js:10435-10438 | the end of a body clears the field only if no later use took it over |
| Utf8.DecodeEncoding | device_apps/web/drift_worker.dart.js:8118-8173 | a strict decoder gives back every encoded sequence of characters |
| Utf8.EncodingDecode | device_apps/web/drift_worker.dart.js:8118-8173 | nothing but the encoding decodes: the table of section 3 of RFC 3629 is one-to-one |
| Utf8.CodePointsAreScalar | device_apps/web/drift_worker.dart.js:8118-8173 | pairing surrogates and replacing lone ones leaves only characters |
| Utf8Encoder.Encoder.WriteReplacement | device_apps/web/drift_worker.dart.js:8107-8117 | exactly the bytes of U+FFFD are added |
| Utf8Encoder.Encoder.WriteSurrogate | device_apps/web/drift_worker.dart.js:8118-8137 | the four bytes of the pair, or U+FFFD when the second unit is not a low surrogate, and which it was |
| Utf8Encoder.Encoder.WriteUnit | device_apps/web/drift_worker.dart.js:8144-8173 | the one, two or three bytes of a unit that is no surrogate |
| Utf8Encoder.Encoder.WriteNext | device_apps/web/drift_worker.dart.js:8143-8173 | each turn writes the bytes of the next character within the buffer; the early exits are unreachable |
| Utf8Encoder.Encoder.Fill | device_apps/web/drift_worker.dart.js:8138-8173 | everything is encoded but a high surrogate in the last place, using at most three bytes a unit |
| Utf8Encoder.Encode | device_apps/web/drift_worker.dart.js:8095-8105 | the encoding of every UTF-16 string, each unpaired surrogate as U+FFFD |
| Utf8Encoder.EncodedDecodes | device_apps/web/drift_worker.dart.js:8095-8105 | the bytes decode to the string's characters |
| DotSegments.RemovesOnSegments | device_apps/web/drift_worker.dart.js:3160-3171 | on every path the string rewriting of section 5.2.4 of RFC 3986 is one pass over its segments |
| DotSegments.Normalize | device_apps/web/drift_worker.dart.js:3160-3171 | on every path, absolute or relative, the result is that of section 5.2.4 of RFC 3986, quick check included |
| DotSegments.PreCheckSound | device_apps/web/drift_worker.dart.js:3157-3162 | a path the quick check lets through has no dot segment and is its own normal form |
| DotSegments.NoDotSegmentLeft | device_apps/web/drift_worker.dart.js:3160-3171 | no "." or ".." segment is left in any path |
| DotSegments.RemovalIsIdempotent | device_apps/web/drift_worker.dart.js:3160-3171 | removing twice is removing once |
| Gateway.Relay.RegisterDevice | hiroserver/gateway/src/hirogateway/relay.py:332-355 | a taken id keeps its socket; a free one is registered with its role |
| Gateway.Relay.UnregisterDevice | hiroserver/gateway/src/hirogateway/relay.py:363-374 | only the socket that holds an id gives it up |
| Gateway.Relay.RegisterDesktopSocket | hiroserver/gateway/src/hirogateway/relay.py:527-531 | the slot holds this socket |
| Gateway.Relay.UnregisterDesktopSocket | hiroserver/gateway/src/hirogateway/relay.py:534-539 | the slot is cleared only if it holds this socket |
| Gateway.Relay.PopPending | hiroserver/gateway/src/hirogateway/relay.py:598-602 | a pending request is handed out once |
| Gateway.Relay.Others | hiroserver/gateway/src/hirogateway/relay.py:442-452 | the recipients of a broadcast are every other registered device, each once, with its socket |
| GatewayInvariant.StepKeepsInv | hiroserver/gateway/src/hirogateway/relay.py:332-379 | every step of every handler keeps registry, roles, slot, pending requests and lock in line with the handlers' phases |
| GatewayInvariant.ReachableInv | hiroserver/gateway/src/hirogateway/relay.py:625-700 | the invariant holds in every reachable state |
| GatewayInvariant.SocketsUnshared | hiroserver/gateway/src/hirogateway/relay.py:332-355 | no two device ids share a socket |
| GatewayInvariant.SlotIsRegisteredDesktop | hiroserver/gateway/src/hirogateway/relay.py:527-539 | the desktop slot is empty or holds a registered socket whose role is desktop |
| GatewayInvariant.PairingSocketUnregistered | hiroserver/gateway/src/hirogateway/relay.py:547-585 | no socket that asked for pairing is in the registry |
| GatewayInvariant.IncumbentKept | hiroserver/gateway/src/hirogateway/relay.py:332-379 | an id stays with its socket through every step but its own handler's unregistration |
| GatewayInvariant.IncumbentStays | hiroserver/gateway/src/hirogateway/relay.py:332-379 | over any run, rejected duplicates and late disconnects of other sockets never take an id from its socket: only its own handler's unregistration does |
| RelayLabels.RelayKind | hiroserver/gateway/src/hirogateway/relay.py:101-146 | computing the kind for the log raises exactly on the payloads described: contents that cannot be gone through, content types that are no texts, request or response bodies whose parsing fails, response bodies that are no object, each only if reached |
| RelayLabels.RequestLabel | hiroserver/gateway/src/hirogateway/relay.py:118-127 | the loop over a request's content raises if and only if a body that cannot be parsed comes before any that has a method |
| RelayLabels.ResponseLabel | hiroserver/gateway/src/hirogateway/relay.py:128-136 | the loop over a response's content raises if and only if a body that cannot be parsed or is no object comes before any object |
| RelayLabels.HintNeverRaisesAlone | hiroserver/gateway/src/hirogateway/relay.py:154-190 | the content hint raises on no payload on which the kind has not raised |
| GatewayDepartures.OwnStep | hiroserver/gateway/src/hirogateway/relay.py:684-700 | a registered handler's session ends at a step if and only if its peer is gone, its peer sent a frame that cannot be read, is no object, whose labels cannot be computed or whose target cannot be a key, or it answers a pairing client that has left |
| GatewayDepartures.SessionLastsExactly | hiroserver/gateway/src/hirogateway/relay.py:684-700 | in every run a session lasts exactly until such a step of its own handler, and never comes back |
| GatewayDepartures.UnlabelledMessageWitness | hiroserver/gateway/src/hirogateway/relay.py:381-406 | a concrete run: a message whose content is a number is never relayed and takes its sender, which never hung up, out of the registry |
| GatewayOrphans.OrphanedStep | hiroserver/gateway/src/hirogateway/relay.py:577-585 | a step leaves a pending entry behind if and only if its handler finds the desktop closed, finds the client closed, or sees the client go |
| GatewayOrphans.OrphanedExactly | hiroserver/gateway/src/hirogateway/relay.py:577-585 | in every run an entry still pending has outlived its handler if and only if one of those steps happened |
| GatewayOrphans.OrphanWitness | hiroserver/gateway/src/hirogateway/relay.py:547-585 | a concrete run after which a departed client's entry is still pending |
| GatewayOrphans.LateAnswerWitness | hiroserver/gateway/src/hirogateway/relay.py:598-622 | that run continued: the desktop answers the departed client, and without having hung up is out of the registry and the slot |
| GatewayFrames.RegistryUntouched | hiroserver/gateway/src/hirogateway/relay.py:332-379 | only registering and unregistering change the registry |
| GatewayFrames.AsideStep | hiroserver/gateway/src/hirogateway/relay.py:625-700 | every step outside relaying and pairing sends no copy and no pairing response and leaves their books alone |
| GatewayHistory.HandlersAreWhoTheySaid | hiroserver/gateway/src/hirogateway/relay.py:674-692 | in every run each handler goes by the id and the role it authenticated as, from registration to departure |
| GatewayHistory.HeardIsReceived | hiroserver/gateway/src/hirogateway/relay.py:382-406 | by the steps alone: what an id has said is the bodies, in order, of the frames that handlers authenticated under it received to be passed on |
| GatewayHistory.RoutedIsHeld | hiroserver/gateway/src/hirogateway/relay.py:382-452 | in every run a handler looks up recipients for exactly the target and the body of the frame it received last, and for none if that was not to be passed on |
| GatewayHistory.RegistryIsHolders | hiroserver/gateway/src/hirogateway/relay.py:332-374 | by the steps alone: an id is held by the first handler that tried for it while it was free, until that one unregisters |
| GatewayHistory.SlotIsLastEntered | hiroserver/gateway/src/hirogateway/relay.py:527-544 | by the steps alone: the slot holds the desktop that entered last and has not left; an earlier desktop's late departure does not clear it |
| GatewayHistory.CopiesGoWhereMeant | hiroserver/gateway/src/hirogateway/relay.py:442-468 | ever after, copies of a routed message go to the holder of its target id, or of any id but the sender's, and to nobody else |
| GatewayHistory.MeantCopiesArrive | hiroserver/gateway/src/hirogateway/relay.py:442-468 | each of those still connected has a copy once the handler has moved on |
| GatewayHistory.RelayedExactly | hiroserver/gateway/src/hirogateway/relay.py:442-468 | by the steps alone: all copies of the message a handler holds when it looks up recipients carry the body of that frame, and a connected socket has one in the end if and only if it held the frame's target id, or for a broadcast any other id, at that moment |
| GatewayHistory.FrameGoesWhereItSays | hiroserver/gateway/src/hirogateway/relay.py:382-468 | the same from the step that receives the frame, whatever other handlers do while it waits and after: a frame with a target goes to that id's socket alone |
| GatewayAnswers.PendingIsAwaiting | hiroserver/gateway/src/hirogateway/relay.py:563-602 | by the steps alone: the pending requests are those stored, not timed out and not picked up by a desktop's answer with a known status |
| GatewayAnswers.AnsweringIsPicked | hiroserver/gateway/src/hirogateway/relay.py:588-602 | in every run a desktop's handler is sending on exactly the answer it picked up, and picks one up exactly when a request with that id still waits |
| GatewayAnswers.RepliesAreDue | hiroserver/gateway/src/hirogateway/relay.py:588-622 | by the steps alone: the responses to a request are one to its asker for each picked answer sent on while the asker's socket is open |
| GatewayAnswers.AnswerArrives | hiroserver/gateway/src/hirogateway/relay.py:619-622 | in every run sending on an answer leaves exactly one response, on the socket that asked, which is closed; there is none ever after if and only if that socket was closed already |
| GatewayAnswers.AnswerReachesAsker | hiroserver/gateway/src/hirogateway/relay.py:588-622 | from the desktop's frame: an answer to a request that still waits reaches whoever asked, once, whatever happens in between, unless that socket closes first |
| GatewayClosing.ClosedForCause | hiroserver/gateway/src/hirogateway/relay.py:332-355 | in every run a closed socket was hung up by its peer, or its handler is rejected, past asking for pairing, or over |
| GatewayClosing.ClosedInSessionIsHungUp | hiroserver/gateway/src/hirogateway/relay.py:684-700 | in every run the socket of a handler in its session is closed only if its own peer has hung up |
| GatewayClosing.RaceIsDecided | hiroserver/gateway/src/hirogateway/relay.py:332-355 | trying for an id that another socket holds closes the newcomer's socket and nothing else; trying for a free one registers it and closes nothing |
| GatewayClosing.LoserNeverServes | hiroserver/gateway/src/hirogateway/relay.py:332-346 | the loser of that race stays closed, never serves and never holds any id |
| GatewayClosing.SessionEndsForCause | hiroserver/gateway/src/hirogateway/relay.py:684-700 | by the steps alone: a session goes on until its peer has hung up, its peer sent a frame that cannot be handled or a target that cannot be looked up, or the pairing client it answers is gone |
| GatewayClosing.IncumbentStaysInSession | hiroserver/gateway/src/hirogateway/relay.py:332-379 | in every run an id stays with its socket, which goes on serving, until such a cause: the end of the stream is one only after that socket's own peer has hung up |
| GatewayTraffic.PairingIsKnown | hiroserver/gateway/src/hirogateway/relay.py:557-585 | in every run a pairing client's handler goes by the desktop it found in the slot and the request it stored |
| GatewayTraffic.ClosedIsShut | hiroserver/gateway/src/hirogateway/relay.py:332-700 | by the steps alone, exactly which sockets are closed: hung up, refused authentication, a lost race, no desktop or one that is gone, a pairing timeout, a pairing answer sent on |
| GatewayTraffic.OutboxIsLog | hiroserver/gateway/src/hirogateway/relay.py:304-700 | by the steps alone, everything the gateway sends, in order and to whom: auth_ok, pairing requests and their notes, news of devices, pairing answers and every copy of every message |
| GatewayProgress.FinishSending | hiroserver/gateway/src/hirogateway/relay.py:454-468 | a message being sent can be sent to all that are left, in as many steps and one more |
| GatewayProgress.FinishRelaying | hiroserver/gateway/src/hirogateway/relay.py:442-468 | a message that waits for its recipients can be routed and sent out, whoever holds the lock |
| GatewayProgress.CanFinish | hiroserver/gateway/src/hirogateway/relay.py:625-700 | from every reachable state each handler can be brought to its end by its own steps and at most the end of a rejection that holds the lock: no handler is ever stuck |
| GatewayDelivery.StepDelivers | hiroserver/gateway/src/hirogateway/relay.py:382-468 | every step keeps the delivery books: copies fit what was said, in order, and tries follow the snapshots |
| GatewayDelivery.ReachableDelivers | hiroserver/gateway/src/hirogateway/relay.py:382-468 | the delivery books hold in every reachable state |
| GatewayDelivery.ReceivedInOrder | hiroserver/gateway/src/hirogateway/relay.py:382-468 | in every run, what a socket is sent from one sender id is, under that id, an in-order subsequence of what the id said, nothing twice, across reconnects |
| GatewayDelivery.BroadcastTriedOnce | hiroserver/gateway/src/hirogateway/relay.py:442-468 | a broadcast is tried exactly once on each other device registered when its recipients were fixed, in that order, and on no other |
| GatewayDelivery.BroadcastArrives | hiroserver/gateway/src/hirogateway/relay.py:442-468 | each such device still on its socket was sent a copy once the handler has moved on |
| GatewayDelivery.UnicastTriedOnce | hiroserver/gateway/src/hirogateway/relay.py:442-468 | a message whose handler is about to look up one connected device is tried exactly once, on that device's socket alone; that the device is the one the frame names is RoutedIsHeld |
| GatewayDelivery.UndeliverableIsNeverSent | hiroserver/gateway/src/hirogateway/relay.py:442-468 | a message to a device that is not connected, or to no device, is never sent to anyone in any continuation |
| GatewayPairing.StepPairs | hiroserver/gateway/src/hirogateway/relay.py:547-622 | every step keeps outcomes, pending requests, answering handlers and responses sent in line |
| GatewayPairing.ReachablePairs | hiroserver/gateway/src/hirogateway/relay.py:547-622 | that holds in every reachable state |
| GatewayPairing.AnsweredAtMostOnce | hiroserver/gateway/src/hirogateway/relay.py:588-622 | in every run each request has at most one pairing response, on the socket that asked, and exactly when it counts as answered; when that is, is AnswerArrives |
| GatewayPairing.SettledStays | hiroserver/gateway/src/hirogateway/relay.py:578-622 | an answered, expired or lost request stays so whatever races follow |
| GatewayPairing.NeverAfterTimeout | hiroserver/gateway/src/hirogateway/relay.py:578-586 | no response is ever sent once the timeout has removed the request |
| PluginSession.Transport.HandleFrame | hiroserver/hiro-channel-sdk/src/hiro_channel_sdk/transport.py:145-162 | one frame changes the session as the step of the model does, exceptions and the cleanup they lead to included; what that step has to do is SessionIsItsHistory |
| PluginSession.Transport.Finish | hiroserver/hiro-channel-sdk/src/hiro_channel_sdk/transport.py:128-139 | on_stop is called exactly when started, and the flag is dropped only if it returns |
| PluginSession.Transport.Dispatch | hiroserver/hiro-channel-sdk/src/hiro_channel_sdk/transport.py:164-223 | one request changes the session as specified and is answered on the current connection |
| PluginSession.CallbacksAlternate | hiroserver/hiro-channel-sdk/src/hiro_channel_sdk/transport.py:98-139 | over any frames, disconnects and reconnects, on_start and on_stop calls that returned alternate, on_start first, and the flag tells which was last |
| PluginSession.OneReplyPerRequest | hiroserver/hiro-channel-sdk/src/hiro_channel_sdk/transport.py:145-223 | over any run the replies are exactly one per request with an id whose connection takes it, in order, echoing the id on the same connection, each with the answer due to that request; notifications get none |
| PluginSession.ReplyMeans | hiroserver/hiro-channel-sdk/src/hiro_channel_sdk/transport.py:164-215 | what one request does and is answered: method-not-found exactly for unknown methods, an internal error exactly when its plugin call raises or its parameters are bad, success otherwise; only a configure starts and only stop sets the stop event |
| PluginSession.StartedAfterEnd | hiroserver/hiro-channel-sdk/src/hiro_channel_sdk/transport.py:128-139 | when a connection ends the plugin stays counted as started if and only if it was started and its on_stop did not return |
| PluginSession.StartedOffLine | hiroserver/hiro-channel-sdk/src/hiro_channel_sdk/transport.py:128-139 | in every run, between connections the plugin is counted as started exactly when the last connection left it so |
| PluginSession.StaleStartWitness | hiroserver/hiro-channel-sdk/src/hiro_channel_sdk/transport.py:128-139 | a concrete run in which on_stop raises and the configure after the reconnect succeeds without starting the plugin again |
| PluginSession.AnsweredAtMostOnce | hiroserver/hiro-channel-sdk/src/hiro_channel_sdk/transport.py:155-162 | each request of the plugin's own is resolved at most once, and never again pending |
| PluginHistory.SessionIsItsHistory | hiroserver/hiro-channel-sdk/src/hiro_channel_sdk/transport.py:61-249 | by the steps alone: when the session is connected, started, stopping and over, which of its own requests are outstanding and how they were resolved, which callbacks returned and everything it sent |
| PluginHistory.ResolvedByResponses | hiroserver/hiro-channel-sdk/src/hiro_channel_sdk/transport.py:155-162 | in every run the plugin's own requests are resolved, in order, exactly by the first response received to each that is not given up, as that response says; a failure without a message resolves nothing |
| PluginHistory.OverForAReason | hiroserver/hiro-channel-sdk/src/hiro_channel_sdk/transport.py:67-92 | in every run run() is over exactly if it was left between connections, could not connect for another reason than a connection error, or an exception other than one got past a connection |
| PluginHistory.ReconnectsAfterEnd | hiroserver/hiro-channel-sdk/src/hiro_channel_sdk/transport.py:67-143 | a connection that ends otherwise is followed by another unless the plugin is to stop, and that one is registered anew |
| TraceCrawl.TakeBatch | scripts/dump_langsmith_trace.py:150-159 | one batch adds the new runs it finds, once each, and leaves nothing it asked for uncovered |
| TraceCrawl.FetchAllRuns | scripts/dump_langsmith_trace.py:139-162 | for any batch size, cyclic or shared child lists and missing runs included, the crawl ends with each run reachable from the root exactly once, the root first |
| StartOrder.SortedIsStable | scripts/dump_langsmith_trace.py:176 | sorting by start time is a permutation in time order that keeps the order of equal times |
| TraceTree.BuildHolds | scripts/dump_langsmith_trace.py:174-194 | if the root is not below itself the tree under it holds exactly its descendants, each once, whatever circles there are elsewhere |
| TraceTree.BuildNested | scripts/dump_langsmith_trace.py:174-194 | every node's children are exactly the runs naming it as parent, stably sorted by start time |
| TraceTree.SiblingsApart | scripts/dump_langsmith_trace.py:168-172 | two children of one run that is not below itself share no descendant |
| TraceTree.BuildTree | scripts/dump_langsmith_trace.py:165-194 | the tree built from fetched runs holds each descendant of the root exactly once, nested and sorted; an unknown root is an error |
| TraceTree.LoopHasNoTree | scripts/dump_langsmith_trace.py:174-194 | a root that is below itself has no such tree at all, so the condition is exact |
| Codecs.EnumRoundTrips | admin_frontend/src/lib/state/codecs.ts:16-22 | a value reads back if and only if it is allowed or the default |
| Codecs.IntRoundTrips | admin_frontend/src/lib/state/codecs.ts:24-37 | an integer reads back if and only if it is within the bounds, or at the upper one where they cross |
| Codecs.ClampIsNearest | admin_frontend/src/lib/state/codecs.ts:30-34 | a number is moved to the nearest one in range, and left alone if it is in range; bounds that cross leave the upper one |
| Codecs.ParseIntReads | admin_frontend/src/lib/state/codecs.ts:28 | any text of white space, a sign, digits and a rest reads as the number of the digits, and as none without digits |
| Codecs.UnknownIsDefault | admin_frontend/src/lib/state/codecs.ts:16-64 | what was never written, a removed key and a text that is no number read as the default |
| Codecs.ParseIntOfText | admin_frontend/src/lib/state/codecs.ts:28 | parsing the text of an integer gives it back |
| Codecs.DecodeInt | admin_frontend/src/lib/state/codecs.ts:25-34 | the step-by-step clamping is the specified decoding |
| Codecs.BoolRoundTrips | admin_frontend/src/lib/state/codecs.ts:39-57 | both encodings give every boolean back |
| Codecs.StringRoundTrips | admin_frontend/src/lib/state/codecs.ts:59-64 | every string reads back, the default through the removed key |
| Codecs.FieldsRoundTrip | admin_frontend/src/lib/state/codecs.ts:66-102 | which boolean, string, enum and array fields read back: all, all, allowed or default, all items kept by the filter |
| Codecs.DecodeRecord | admin_frontend/src/lib/state/codecs.ts:109-126 | filling the record field by field is the specified decoding |
| Codecs.EncodeRecord | admin_frontend/src/lib/state/codecs.ts:127-133 | filling the object field by field is the specified encoding |
| Codecs.RecordRoundTrips | admin_frontend/src/lib/state/codecs.ts:104-135 | a record reads back if and only if every field of the schema does and every other field is at its default |
| Codecs.EncodeKeyed | admin_frontend/src/lib/state/codecs.ts:155-161 | filling the object key by key is the specified encoding |
| Codecs.KeyedRoundTrips | admin_frontend/src/lib/state/codecs.ts:137-163 | a keyed map reads back if and only if every value does and `__proto__` is not a key |
| PersistentState.Setting.SetValue | admin_frontend/src/lib/state/create-persistent-state.svelte.ts:82-85 | value, timer and storage after a set |
| PersistentState.Setting.TimerFires | admin_frontend/src/lib/state/create-persistent-state.svelte.ts:64-74 | the pending value is stored |
| PersistentState.Setting.ResetValue | admin_frontend/src/lib/state/create-persistent-state.svelte.ts:86-92 | a reset drops the pending write and stores the default |
| PersistentState.PendingIsCurrent | admin_frontend/src/lib/state/create-persistent-state.svelte.ts:69-92 | after any sets, timer firings and resets a pending write carries the current value |
| PersistentState.SettingIsItsHistory | admin_frontend/src/lib/state/create-persistent-state.svelte.ts:64-92 | by the operations alone: the value is what was set or reset to last, a write is pending exactly right after a debounced set, and stored is the latest value, or while one is pending what was stored before it |
| PersistentState.StoredIsCurrent | admin_frontend/src/lib/state/create-persistent-state.svelte.ts:64-92 | in every run with something set or reset and nothing pending, the stored text is the encoding of the current value |
| PersistentState.StorageAgrees | admin_frontend/src/lib/state/create-persistent-state.svelte.ts:48-94 | after any such run a fresh instance starts with the current value if and only if the codec gives that value back |
| PersistentState.PendingAgrees | admin_frontend/src/lib/state/create-persistent-state.svelte.ts:64-92 | while a write is pending, the same holds of the value once the timer has fired |
| PersistentState.DefaultOutOfBounds | admin_frontend/src/lib/state/create-persistent-state.svelte.ts:86-92 | a default outside its own bounds does not survive a reset |
| PersistentState.RecordSetting.SetFieldTo | admin_frontend/src/lib/state/create-persistent-state.svelte.ts:138-141 | a field assignment is written through at once |
| PersistentState.RecordIsItsHistory | admin_frontend/src/lib/state/create-persistent-state.svelte.ts:103-146 | by the operations alone: a field is what it was set to last, or its default after a reset |
| PersistentState.RecordAgreesExactly | admin_frontend/src/lib/state/create-persistent-state.svelte.ts:103-146 | after any field assignments and resets a fresh record is equal if and only if every schema field reads back and the others are at their defaults |
| SearchSplit.SplitOnQuery | admin_frontend/src/lib/search/match.ts:2-24 | the loop computes the specified segments |
| SearchSplit.SplitMeans | admin_frontend/src/lib/search/match.ts:2-24 | those segments concatenate to the text, some hit exists exactly when the query matches, and if lowercasing keeps this text's characters in place each hit is the needle and no other segment contains it |
| SearchSplit.TruthfulExactly | admin_frontend/src/lib/search/match.ts:2-24 | on a text that lowercases part by part, every query is split truthfully if and only if the text is as long lowercased |
| SearchSplit.FinalSigma | admin_frontend/src/lib/search/match.ts:10-24 | a text ending in a capital sigma, which does not lowercase part by part: as long lowercased, yet a hit is not the needle |
| SearchSplit.MisalignedSplit | admin_frontend/src/lib/search/match.ts:10-24 | a text with U+0130, whose lowercase is longer, where the hit is not the needle |
| SearchSplit.MatchesQuery | admin_frontend/src/lib/search/match.ts:27-30 | true exactly when the trimmed, lowercased query is not blank and occurs |
| SearchSplit.TrimMeans | admin_frontend/src/lib/search/match.ts:28 | trimming leaves the text between the white space at its two ends |
| SearchSplit.PartTruthful | admin_frontend/src/lib/search/match.ts:13-19 | a part before the next match that lowercases as a part of the whole does not contain the needle |

## Left out

- Sockets, timers, IndexedDB transactions, HTTP and files: modelled as maps, append-only outboxes and nondeterministic steps.
- Ed25519 authentication, base64 and JSON text: an accepted device id and role, and abstract trees.
- Log lines and the device-name cache of the relay: of the labels computed for them only whether that raises is modelled, since nothing else of them affects delivery.
- The persisted `desktop_connected` flag and errors writing it: a status file written last by whoever came last, not tied to the slot.
- What auth_ok, the pairing note and the news of a device to the desktop say: the model has to whom and when they are sent (`OutboxIsLog`), not their contents.
- The pairing code, key, attestation and device-name payloads: only who is asked and answered is modelled; a request with missing fields is an authentication failure of the model.
- Other big-integer entry points: hexadecimal parsing, conversion from doubles and hashing; only decimal text is printed and parsed here.
- Blocks are values rather than typed arrays in the block writer and the store: the worker never shares them.
- Codecs.IntRoundTrips: does not model fractional numbers or those of 10^21 and more, which the original writes in another notation.
- Codecs.KeyedRoundTrips: stored entries that are neither strings nor null decode as absent here, where the original hands them on; encoding never produces them.
- TraceTree.BuildTree: runs with repeated ids and a root that is below itself are left to its precondition; the crawl returns each id once, and such a root has no tree.
- FileSystem.DrainedStoreIsMemory: says nothing of the contents of a file that was cut so that bytes other than zeros were left in its last block; FileMirror.TruncateAgreesExactly says that this is when they differ.
- QueueRuns.CoalescingPreservesMeaning: running a write applies its patches to the file's contents; that the blocks it puts, through views of a buffer that goes on changing, come to the same is FileWorker.BlocksAreMemory.
- QueueRuns.DrainedStore: the store maps names to whole contents, as above.
- FileWorker.BlocksAreMemory: of a file cut in that way only whether it is stored is said; its blocks can differ from memory, as FileMirror.TruncateThenGrowParts shows, until it is written over or removed.
- SearchSplit.TruthfulExactly: texts that do not lowercase part by part are outside it.
- PersistQueue.PersistenceQueue.Issue: the error of a closed database and the futures handed to callers are not modelled; completing them does not touch the queue.
- StartOrder.Sorted: the library sort is an insertion sort here; only its being a stable permutation is used.
- Cancellation in the middle of a plugin callback, and the order in which concurrent requests of the plugin are sent.
- Server-side rendering, where the admin settings have no storage.
- The rest of the worker: runtime types, zones, streams, the table-driven UTF-8 decoder, SQLite bindings and stack traces.
- Admin API clients, tab preferences, styling, command-line code and report scripts: plumbing.
