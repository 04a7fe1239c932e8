# The AVI playback pipeline of `source/video`

A Dafny model of how an AVI file gets from disk to the mixer and the screen: the file's index is
turned into one table of positions per stream, the demultiplexer works through all streams in file
order, MPEG audio and AC-3 are re-framed from arbitrary chunks into access units (AUs), buffers
circulate between threads through ring queues and memory pools, and two real-time consumers (the
audio mixer's callback and the display thread) hand the data out. `dafny verify dfyconfig.toml`
checks everything.

Code that changes things in place is a class with the source's fields and loops. Each such method
is proved against a function on values, and the properties are proved about that function. Threads
are modelled twice where it matters: as the class methods that one thread runs, and as a state
machine whose steps are the regions that a lock protects, with a wait as a step that is not enabled;
theorems about the state machines hold for every run, that is every interleaving.

| file | contents |
|---|---|
| `Bytes`, `Ownership`, `Results` | bytes and concatenation; who owns what; result codes |
| `RingQueue`, `MemPool`, `BufferedReader` | `util.c`: ring queue, pool of blocks, buffered file reader |
| `AuLength`, `Framing`, `Chunking`, `Resuming` | `avidmux.c`: frame lengths, the resumable parser, the parser over the chunks of a stream, in one go and with interruptions |
| `AuStore`, `ParseBuffer`, `AudioStreams` | `avidmux.c`: the block of AU buffers, the parse buffer, and what the two audio formats need of both |
| `AuBuffers`, `EsParser`, `StreamPlayer` | `avidmux.c`: a stream's AU buffers and queues, its parser and its calls, in place |
| `AuPipeline` | `avidmux.c`: the same stream with its decoder's thread interleaved |
| `DemuxMerge`, `IndexTable` | `avidmux.c`: order over all streams; the idx1 index |
| `Timestamps`, `MixerProtocol`, `AudioMixer` | `amixer.c`, `apost.c`: audio time stamps; callback and producer interleaved; the callback in place |
| `DisplayProtocol`, `VideoDisplay` | `vdisp.c`, `vpost.c`: display and post-processor interleaved; the display thread in place |
| `FailingInputs` | the inputs on which the code does not do what one would expect |

The MPEG and the AC-3 parser are the same algorithm with a different sync word and length table, so
`Framing` has it once, over a `Format`; `AuLength.MPEG` and `AuLength.AC3` are the two formats.

Seven promises that one would expect of the code do not hold as they stand. For each the model says
exactly when they do, and names an input on which they do not:

* A stream that consists of a single frame is never emitted, because the first frame waits for the
  sync word of a second one: all frames come out if and only if their number is not one
  (`ParseBuffer.FramesSurvive`). A lone AC-3 frame of 128 bytes gives no AU
  (`FailingInputs.LoneFrameLost`).
* A chunk is read behind the window into a buffer of twice `maxDataSize` bytes, the size of the
  largest chunk, without a check. Reads fit for every stream if and only if `maxDataSize` is larger
  than the longest AU (`ParseBuffer.WritesFitIff`), and header reads too if and only if it is larger
  by the offset of the deepest header byte (`ParseBuffer.AccessesFitIff`): 3841 and 3844 bytes for
  AC-3, 2306 and 2307 for MPEG (`AudioStreams.Ac3Buffer`, `AudioStreams.MpegBuffer`). A long AC-3
  frame in chunks of 100 bytes overruns the buffer (`FailingInputs.SmallChunksOverrun`).
* An AU is copied into its buffer of `maxAuSize` bytes without a check. AC-3 frames always fit; a
  stream of MPEG frames fits if and only if none has a header of one family
  (`AudioStreams.MpegAusFit`). If one does not fit, storing the next AU changes it under the
  decoder's hands, if and only if the bytes stored differ from those they replace
  (`AuPipeline.LongAuDisturbed`). Two MPEG frames that start with FF F6 E8 are 2304 bytes long and
  do so (`FailingInputs.LongFramesOverlap`).
* MPEG audio is cut at the lengths that its headers announce if and only if it is Layer II, or
  Layer III of MPEG-1: frames of the others are taken to be longer than they are
  (`AuLength.StandardLengths`). A Layer I header at 384 kbit/s and 44.1 kHz is taken for 1253 bytes
  instead of 416 (`FailingInputs.LayerOneMisread`).
* A video plays, and ends, only if its queue is full at some time: one of fewer frames than the
  queue holds is never shown and never over (`DisplayProtocol.ShortVideoNeverShown`), and a full
  queue is always seen (`DisplayProtocol.FullQueueSeen`). The same goes for audio blocks and the
  stop (`MixerProtocol.ShortAudioNeverPlayed`, `MixerProtocol.StopIsTaken`). With a queue of two a
  single frame stays queued while the display sleeps (`FailingInputs.ShortVideoSleeps`).
* Switching the buffered reader to unbuffered mode without a seek reads from the wrong place if and
  only if bytes were still pooled (`BufferedReader.UtilBufferedFileReader.SwitchWithoutSeek`,
  about what `SwitchThenRead` returns). With one byte pooled of a file of two it does
  (`FailingInputs.OnePooledByte`).
* The check that tells relative from absolute idx1 offsets is right if and only if the list starts
  the file, or the first entry's chunk is less than `streamOffset` bytes behind the list's first
  chunk and its absolute offset does not wrap around, or `streamOffset` happens to be half the range
  of a word (`IndexTable.ConventionsAgree`). With the list at 100 and the first chunk 100 bytes
  behind the list's first, the two conventions give different tables
  (`FailingInputs.FarIndexMistaken`).

## Model

| member | source | states |
|---|---|---|
| RingQueue.PushContents | source/video/util.c:227-242 | a push appends to the queued items, or changes nothing when the ring is full |
| RingQueue.PopContents | source/video/util.c:208-225 | a pop removes the oldest item and leaves the slots alone |
| RingQueue.WriteHead | source/video/util.c:244-252 | writing through the peeked pointer edits the head of the queued items and nothing else |
| RingQueue.PushMisses | source/video/util.c:227-242 | a push lands neither on a queued slot nor, with a place to spare, on the slot just popped |
| RingQueue.RingRefinesFifo | source/video/util.c:208-252 | over every run of push, pop, peek and in-place edit the ring answers as a bounded list does and keeps its index invariant |
| RingQueue.FifoConserves | source/video/util.c:208-252 | what was queued and pushed is what was popped and is queued, in order, over every run |
| RingQueue.FirstInFirstOut | source/video/util.c:208-252 | the same of the ring itself: items come out in the order they went in, none lost, none twice |
| RingQueue.HeadSurvivesPushes | source/video/util.c:244-252 | any number of pushes leaves the head's slot with the value it had |
| RingQueue.UtilQueue.constructor | source/video/util.c:187-200 | a new queue is empty |
| RingQueue.UtilQueue.Push | source/video/util.c:227-242 | the in-place push is the push on values; it succeeds exactly if there is room |
| RingQueue.UtilQueue.Pop | source/video/util.c:208-225 | the in-place pop is the pop on values and returns the oldest item |
| RingQueue.UtilQueue.Peek | source/video/util.c:244-252 | gives the slot of the oldest item and the number queued |
| MemPool.LedgerStepKeeps | source/video/util.c:150-174 | a pop or the return of a held block keeps every block accounted for exactly once |
| MemPool.PoolStorageDisjoint | source/video/util.c:91-117 | after any run, blocks free and held never overlap, cover the region exactly, and validNum is the size less those held |
| MemPool.UtilMemPool.constructor | source/video/util.c:91-117 | the init loop lays the blocks out one unit apart |
| MemPool.UtilMemPool.Pop | source/video/util.c:150-162 | hands out the top of the stack of free blocks |
| MemPool.UtilMemPool.Push | source/video/util.c:164-174 | puts a block on the stack, or fails exactly if the pool is full |
| BufferedReader.UtilBufferedFileReader.constructor | source/video/util.c:257-276 | an opened reader is at the start, buffered, with nothing pooled |
| BufferedReader.UtilBufferedFileReader.Read | source/video/util.c:290-325 | returns the bytes at the byte to be read next, cut short at the end of the file, across any number of refills; refused in unbuffered mode |
| BufferedReader.UtilBufferedFileReader.Seek | source/video/util.c:331-384 | moves to the offset from the start, the position or the end, along the buffer if it is in there and by a file seek if not; refused exactly outside the file |
| BufferedReader.UtilBufferedFileReader.SetUnbufferedMode | source/video/util.c:386-393 | keeps the position, and moves the byte to be read next past what was pooled if the mode changes |
| BufferedReader.UtilBufferedFileReader.UnbufferedRead | source/video/util.c:395-408 | returns the bytes at the byte to be read next, whether or not that is the one at the position; refused in buffered mode |
| BufferedReader.UtilBufferedFileReader.SwitchThenRead | source/video/util.c:386-408 | a switch to unbuffered mode and a read return the bytes behind the pooled ones |
| BufferedReader.UtilBufferedFileReader.SwitchWithoutSeek | source/video/util.c:386-408 | what that read returns is right for every count exactly if nothing was pooled |
| BufferedReader.PerformAll | source/video/util.c:290-408 | every run of reads, unbuffered reads, seeks, position queries and mode switches answers as a plain cursor over the file, if it seeks after each switch to unbuffered mode |
| BufferedReader.SeekAnswers | source/video/util.c:331-362 | what a run answers to a seek and a query: the offset from the start, the position or the end, or a refusal that leaves the position |
| BufferedReader.ReadAnswers | source/video/util.c:290-325 | what a run answers to a read and a query: the bytes from the position on, cut short at the end of the file, and the position behind them; refused in the other mode |
| BufferedReader.ReadTwice | source/video/util.c:290-343 | a seek back over what was read reads the same bytes again |
| BufferedReader.ReadLast | source/video/util.c:290-343 | a seek from the end reads the last bytes of the file |
| AuLength.MpegAuLength | source/video/avidmux.c:1183-1219 | every MPEG header announces between 6 and 2304 bytes |
| AuLength.MpegFitsAuBuffer | source/video/avidmux.c:1183-1219 | a frame fits the 2048-byte AU buffer exactly unless it is MPEG-2 Layer I at bit rate index 14 and frequency 2 or above |
| AuLength.MpegTableIsNominal | source/video/avidmux.c:1183-1219 | every MPEG length is that of 1152 samples at the nominal bit rate and sampling frequency, which follow their own laws |
| AuLength.MpegHeader | source/video/avidmux.c:1274-1280 | from the fields of an MPEG header to the length it announces |
| AuLength.StandardLengths | source/video/avidmux.c:1183-1219 | the lengths are those of ISO/IEC 11172-3 and 13818-3 exactly for Layer II and for MPEG-1 Layer III |
| AuLength.Ac3AuLength | source/video/avidmux.c:1334-1384 | every AC-3 header announces between 128 and 3840 bytes |
| AuLength.Ac3TableIsNominal | source/video/avidmux.c:1334-1384 | the whole table follows from the nominal bit rates of section 5.4.1 of ATSC A/52 |
| AuLength.Ac3Header | source/video/avidmux.c:1438-1441 | from the fields of an AC-3 header to the length it announces, reserved values counting as the last |
| AuLength.MpegGood | source/video/avidmux.c:1221-1331 | MPEG framing meets what the parser's proofs need: lengths exceed the deepest header byte read |
| AuLength.Ac3Good | source/video/avidmux.c:1386-1493 | so does AC-3 framing |
| Framing.ParseTurn | source/video/avidmux.c:1414-1489 | each turn of the parse loop that does not end it shrinks the window; false syncs are only dropped while searching |
| Framing.StaleBytesIrrelevant | source/video/avidmux.c:1414-1445 | header bytes read past the valid window change neither the AUs nor the state left behind |
| Framing.ResumeAfterFull | source/video/avidmux.c:1463-1466 | running out of AU buffers and resuming gives what one parse with all the buffers gives |
| Framing.EnoughBuffers | source/video/avidmux.c:1413-1492 | with as many free AUs as bytes the parser never runs out, and more change nothing |
| Framing.DrainCarry | source/video/avidmux.c:1393-1445 | a call that did not run out of AUs carries over at most the longest AU and one byte |
| Chunking.Split | source/video/avidmux.c:1386-1493 | parsing a stream in two pieces gives what parsing it in one gives |
| Chunking.StreamParse | source/video/avidmux.c:1386-1493 | the frames of a stream in one chunk all come out, but for a frame on its own |
| Resuming.CallPending | source/video/avidmux.c:1386-1493 | a call with any number of free AUs emits the first of what an unlimited parser would still emit, and leaves exactly the rest to come |
| Resuming.DrainWellFormed | source/video/avidmux.c:1441-1489 | whatever the bytes, every AU cut is a frame: a sync word and the length its header announces |
| Resuming.AuLengths | source/video/avidmux.c:1441-1489 | no AU of any stream is longer than the longest its format knows, or than the largest chunk in the default format |
| ParseBuffer.WritesFitIff | source/video/avidmux.c:1393-1411 | chunks read behind the window stay inside twice maxDataSize for every stream exactly if maxDataSize is larger than the longest AU |
| ParseBuffer.AccessesFitIff | source/video/avidmux.c:1393-1461 | and header reads as well, exactly if it is larger by the offset of the deepest header byte |
| ParseBuffer.BoundariesIrrelevant | source/video/avidmux.c:1386-1493 | any cutting of a steady stream into chunks that stays inside the buffer gives the same AUs, flag and window |
| ParseBuffer.FramesSurvive | source/video/avidmux.c:1386-1505 | from a cleared parser, for any chunks that stay inside the buffer, exactly the frames come out if and only if there is not just one |
| ParseBuffer.LeadingBytesDropped | source/video/avidmux.c:1414-1440 | bytes before the first frame are skipped, for any chunks that stay inside the buffer, when no sync word starts in them |
| AudioStreams.Ac3FramesSurvive | source/video/avidmux.c:1386-1493 | an AC-3 stream of two frames or more, in any chunks that stay inside the buffer - with maxDataSize 3844 or more, any chunks - comes out frame by frame with an empty window |
| AudioStreams.MpegFramesSurvive | source/video/avidmux.c:1221-1331 | the same for MPEG audio, from 2307 on |
| AudioStreams.Ac3Buffer | source/video/avidmux.c:314-318 | the parse buffer is large enough for the chunks of every AC-3 stream exactly from maxDataSize 3841 on, and for header reads from 3844 on |
| AudioStreams.MpegBuffer | source/video/avidmux.c:307-313 | for every MPEG stream from 2306 on, and for header reads from 2307 on |
| AudioStreams.Ac3AusFit | source/video/avidmux.c:316-317 | no AU of any AC-3 stream is longer than its buffer |
| AudioStreams.MpegAusFit | source/video/avidmux.c:310-311 | a stream's MPEG AUs fit their buffers exactly if none has a header of MPEG-2 Layer I with bit rate index 14 and frequency 2 or above |
| AuStore.PutOther | source/video/avidmux.c:359-364 | an AU no longer than its buffer leaves every other buffer's AU alone |
| AuStore.PutNext | source/video/avidmux.c:359-364 | a longer one reads back unchanged, once the next buffer is filled, exactly if the bytes stored there are those they replace |
| EsParser.EnableEs | source/video/avidmux.c:330-371 | a new stream has a block of maxAuSize bytes for each AU, all its AUs in the write queue, and a cleared parser |
| EsParser.EsCtlInfo.ClearParseInfo | source/video/avidmux.c:1495-1505 | clearing empties the window and sets the flags a parse starts with |
| AuBuffers.AuBuffers.GetAu | source/video/avidmux.c:400-420 | moves the oldest filled AU to the release queue, where it stays while the decoder has it |
| AuBuffers.AuBuffers.ReleaseAu | source/video/avidmux.c:422-442 | moves the AU held longest back to the write queue, without waiting, and tells the demultiplexer; refused when none is held |
| AuBuffers.AuBuffers.EmitAu | source/video/avidmux.c:1463-1489 | copies an AU into the oldest free buffer of the block, with size and time stamp, and queues it, or changes nothing when none is free |
| AuBuffers.EmitAllFilled | source/video/avidmux.c:1463-1489 | AUs emitted one after another are what the decoder finds, in order, behind those queued before |
| AuBuffers.EmitAllStamps | source/video/avidmux.c:1474-1480 | of all AUs emitted since the parser was cleared only the first has a time stamp, and it is zero |
| AuBuffers.EmittedInfo | source/video/avidmux.c:1463-1489 | the k-th AU emitted is in the k-th free buffer, as it is, with that time stamp |
| EsParser.EsCtlInfo.FindHeader | source/video/avidmux.c:1414-1424 | finds the first sync word of the window, or that there is none |
| EsParser.EsCtlInfo.Anchor | source/video/avidmux.c:1425-1438 | the window is cut down to its first sync word, or to its last byte |
| EsParser.EsCtlInfo.Locate | source/video/avidmux.c:1413-1461 | up to an AU ready to be copied, a turn does what ParseTurn says, whatever follows the window |
| EsParser.EsCtlInfo.EmitAu | source/video/avidmux.c:1463-1489 | copies the AU at the front of the window into the oldest free buffer and moves the window past it, or keeps it when none is free |
| EsParser.EsCtlInfo.ParseLoop | source/video/avidmux.c:1413-1492 | the loop ends and leaves return code, window, flag, queues and AU contents as Drain says |
| EsParser.EsCtlInfo.ReadChunk | source/video/avidmux.c:1393-1411 | moves the window to the front and appends the chunk, or keeps the window when the file ends first |
| EsParser.EsCtlInfo.ParseAudioEs | source/video/avidmux.c:1386-1493 | a whole call: no re-read after running out of AUs, otherwise read and parse; return code, window, flag, queues and AU contents; room, file and mode are left as the next call needs them |
| EsParser.CallOutcome | source/video/avidmux.c:1386-1493 | a call fails, changing nothing, exactly if it reads and the file is too short; it runs out only when no AU is free; after that it reads nothing; it fills the oldest free AUs in order |
| EsParser.EsCtlInfo.ParseDefaultEs | source/video/avidmux.c:1139-1181 | a chunk that is a whole AU goes into a free buffer; a failed read gives the buffer back; the reader is left as the next call needs it |
| EsParser.WholeOutcome | source/video/avidmux.c:1139-1181 | return code, queues, data and time stamp for an empty chunk, no free AU, a file too short, and success |
| EsParser.WholeIsDrain | source/video/avidmux.c:1139-1181 | parsing a chunk that is a whole AU is the parse loop of the Whole format, so the theorems about that loop cover it |
| StreamPlayer.TakeOne | source/video/avidmux.c:400-442 | what the decoder reads at an AU's address is what the oldest filled AU holds, with its time stamp, and releasing it frees that AU |
| StreamPlayer.Play | source/video/avidmux.c:1021-1060 | call after call over a stream's positions, with any number of AUs taken and released between calls: no access outside a buffer of twice maxDataSize, and what was taken and is queued is a prefix of what a parser with unlimited buffers emits, and all of it past the last position; only the first AU of the stream has a time stamp |
| AuPipeline.StepMoves | source/video/avidmux.c:400-442 | every step of either thread only moves AUs from one owner to another |
| AuPipeline.ExclusiveOwnership | source/video/avidmux.c:352-364 | in every reachable state each AU is in exactly one place; no push waits; the parser stores only into an AU nobody else has and, if the stream's AUs fit, only into that AU's bytes |
| AuPipeline.KeptIntact | source/video/avidmux.c:400-420 | if the stream's AUs fit their buffers, one that the decoder has got and not released holds the bytes it held when got |
| AuPipeline.LongAuDisturbed | source/video/avidmux.c:1463-1489 | if they do not, an AU that runs over its buffer is changed by the store into the next one, exactly if the bytes stored differ from those they replace |
| AuPipeline.BackPressureTransparent | source/video/avidmux.c:1039-1049 | for every schedule of releases the emitted AUs are a prefix of what a parser with unlimited buffers emits, and equal it when finished; if the AUs fit, the decoder gets them in order, byte for byte |
| AuPipeline.FramesReachDecoder | source/video/avidmux.c:1386-1493 | a stream of whole frames reaches the decoder frame by frame, for any chunks and any schedule, if parse buffer and AU buffers are large enough |
| AuPipeline.NeverOutside | source/video/avidmux.c:314-318 | with a parse buffer large enough for the format and AU buffers for the stream, no read, copy or header access is ever outside them, under any schedule; between calls at most the longest AU and one byte is carried over |
| AuPipeline.FailureEndsStream | source/video/avidmux.c:1403-1409 | after a failed read nothing more is emitted |
| AuPipeline.NeverStuck | source/video/avidmux.c:1075-1101 | before the stream is finished some step is always enabled: no wake-up of the demultiplexer gets lost |
| DemuxMerge.AviDmuxCtlInfo.SearchTargetStream | source/video/avidmux.c:1104-1136 | finds the first full stream, or the stream whose next offset is least, ties to the lower index, or that none is left |
| DemuxMerge.AviDmuxCtlInfo.ServeNext | source/video/avidmux.c:1027-1060 | a turn of the thread's loop is a round of the state machine |
| DemuxMerge.OneFull | source/video/avidmux.c:1039-1060 | at most one stream is ever full, and it is the one whose turn it is; DMUX_DONE is sent only when nothing is pending inside the file |
| DemuxMerge.AnswerOutcome | source/video/avidmux.c:1027-1060 | success completes the least pending position and no other; running out completes none; any other answer ends the thread with nothing completed; with no stream left it ends as well |
| DemuxMerge.OrderIgnoresFulls | source/video/avidmux.c:1021-1060 | when and how often parsers were full does not change the order in which positions are completed |
| DemuxMerge.ServedIsMerge | source/video/avidmux.c:1104-1136 | with ascending offsets, completed positions are the stable merge by offset, each exactly once, and none comes after one still pending |
| DemuxMerge.DoneServedAll | source/video/avidmux.c:1050-1059 | when DMUX_DONE is sent, exactly the positions inside the file have been completed |
| IndexTable.WordRoundTrip | source/video/util.h:142-144 | reading a word is little-endian: splitting a word into bytes and reading them are inverse to each other |
| IndexTable.DigitsNameStream | source/video/avidmux.c:800-803 | an id that starts with the two digits of n names stream n |
| IndexTable.OtherIds | source/video/avidmux.c:800-803 | what other ids name: one digit, skipped characters or a sign before a digit, and no number |
| IndexTable.TableIsSubsequence | source/video/avidmux.c:822-842 | each entry of a stream is in its table, eight bytes behind its offset from the base, at the place that counts the entries before it, and the table has nothing else |
| IndexTable.IndexReadBack | source/video/avidmux.c:794-842 | an index written for any chunks is read back as each stream's chunks in order, byte by byte from the file |
| IndexTable.LargestSizeIsLargest | source/video/avidmux.c:839-841 | maxDataSize is the largest entry size, or what it was if that is larger |
| IndexTable.ConventionsAgree | source/video/avidmux.c:806-808 | for all 32-bit offsets, with wrap-around, offsets from the movi list and absolute ones give the same tables exactly if the distance of the first chunk is in the range that the check takes for relative |
| IndexTable.AviDmuxIndex.StoreEntry | source/video/avidmux.c:831-842 | a fill write stays within the counted allocation and touches one table only |
| IndexTable.AviDmuxIndex.ReadIdx1Chunk | source/video/avidmux.c:778-852 | succeeds exactly if the file holds the whole chunk; then every table is its stream's entries in order, and maxDataSize their largest size; otherwise no table changes |
| Timestamps.IncrementsAdd | source/video/amixer.c:167-175 | with upper 0 or 1, n increments add exactly 480 n modulo 2 to the 33, from any time stamp |
| MixerProtocol.PoppedSlotSafe | source/video/amixer.c:245-249 | a push cannot overwrite the slot that the callback has popped and not read yet, because its block still counts as held |
| MixerProtocol.StepMoves | source/video/apost.c:126-135 | every step of producer and callback only moves blocks from one holder to another |
| MixerProtocol.BlocksConserved | source/video/apost.c:126-135 | in every reachable state pool, hands and queue hold each block once; the producer's push never waits and no pool push fails |
| MixerProtocol.SlotSafeAfterPop | source/video/amixer.c:245-249 | along every run, from its pop until it is read, the slot names the block that was popped |
| MixerProtocol.GaplessAudio | source/video/amixer.c:228-253 | samples handed over, without padding, are a prefix of the queued blocks laid end to end |
| MixerProtocol.BlockTimes | source/video/apost.c:113-124 | every queued block has the time that the decoder gave for it, whatever was cut from it; the head's is what the clock is set to |
| MixerProtocol.FailureEndsBlocks | source/video/apost.c:121-134 | after a decoder's failure, or its end, nothing more is queued |
| MixerProtocol.CallbacksFullyServed | source/video/amixer.c:203-258 | each delivering callback hands over exactly what it was asked for, pads only after seeing the queue empty, and none delivers before a full queue was seen |
| MixerProtocol.StopAfterEverything | source/video/amixer.c:215-226 | when the stop is acknowledged, every sample ever queued has been handed over |
| MixerProtocol.StopIsTaken | source/video/amixer.c:215-226 | a stop asked for is acknowledged by the next callback that finds the queue empty, with audio and video ready |
| MixerProtocol.ShortAudioNeverPlayed | source/video/amixer.c:203-213 | until as many blocks as the queue holds have been queued nothing is handed over and no stop acknowledged |
| MixerProtocol.CopyShrinks | source/video/amixer.c:234-250 | the copy loop ends: each copy strictly lowers the samples still asked for |
| AudioMixer.SliceSamples | source/video/amixer.c:235-246 | a slice of the head is the next part of what is left, and leaves the rest |
| AudioMixer.SAmixerCtlInfo.IncrementAudioPts | source/video/amixer.c:167-175 | the in-place increment is the increment on values |
| AudioMixer.SAmixerCtlInfo.FillBuffer | source/video/amixer.c:228-253 | the loop fills the buffer with the next samples and silence, removes exactly these, and moves used-up blocks to the pool in order: the protocol's copy steps and one delivery of that buffer |
| AudioMixer.SAmixerCtlInfo.AmixerCb | source/video/amixer.c:177-258 | the whole callback: when it delivers, what, with zeros behind the last sample, when it acknowledges the stop, and the clock in each case; it ends in a state that the protocol's callback steps lead to, with the buffer as that state's delivery |
| DisplayProtocol.StepMoves | source/video/vdisp.c:141-246 | every step of display and post-processor only moves frames from one holder to another |
| DisplayProtocol.FramesConserved | source/video/vpost.c:239-278 | in every reachable state each frame is held once; pool pushes never fail, queue pushes never wait, and what is drawn is neither free nor being written |
| DisplayProtocol.AllOrNothing | source/video/vdisp.c:187-223 | frames leave in order, each drawn exactly as often as it was to be shown and at least once, or skipped without a draw |
| DisplayProtocol.HoldBeforeFirstDraw | source/video/vdisp.c:187-223 | a frame can only be held or skipped before its first draw |
| DisplayProtocol.HoldKeeps | source/video/vdisp.c:208-214 | the verdict that a head with a time is too early leaves queue, pool, last frame and log as they were |
| DisplayProtocol.SkipDrops | source/video/vdisp.c:216-221 | the verdict that it is too late takes it off undrawn: the last frame goes back to the pool and the head is the last one then |
| DisplayProtocol.ShownLeaves | source/video/vdisp.c:197-206 | a head shown for the last time leaves in the same way, after one more draw |
| DisplayProtocol.SkippedOnVerdict | source/video/vdisp.c:188-221 | along every run, a frame that left skipped was judged too late, by its own time, while it was at the head |
| DisplayProtocol.QueuedAsMade | source/video/vpost.c:239-255 | frames are queued in the order and with the showings and time validity they were made with |
| DisplayProtocol.FailureEndsFrames | source/video/vpost.c:244-249 | after a failure of the post-processor, or the end of the sequence, nothing more is queued |
| DisplayProtocol.EndAfterEverything | source/video/vdisp.c:173-186 | STATUS_END is set only when every frame ever queued has left the queue and no more will come |
| DisplayProtocol.EndIsSeen | source/video/vdisp.c:173-186 | once the sequence has ended a display whose video is ready can wake up, and with the queue empty goes on to STATUS_END |
| DisplayProtocol.FullQueueSeen | source/video/vdisp.c:157-168 | the display never sleeps on a full queue, which makes the video ready |
| DisplayProtocol.ShortVideoNeverShown | source/video/vdisp.c:157-172 | until as many frames as the queue holds have been queued nothing is drawn or skipped and STATUS_END is not set |
| DisplayProtocol.NoMissedFrame | source/video/vdisp.c:255-278 | once the video is ready, the display never sleeps on a queued frame without a wake-up on the way |
| VideoDisplay.SVdispCtlInfo.DrainQueue | source/video/vdisp.c:141-144 | every queued frame goes back to the pool, in order |
| VideoDisplay.SVdispCtlInfo.ShowHead | source/video/vdisp.c:197-206 | a draw counts the head down in place; used up, it becomes the last frame and the previous one goes back to the pool |
| VideoDisplay.SVdispCtlInfo.PresentHead | source/video/vdisp.c:195-223 | a head held stays with everything else; a skipped one becomes the last frame undrawn, the previous one going back to the pool; a shown one is drawn and counted down |
| VideoDisplay.SVdispCtlInfo.Round | source/video/vdisp.c:157-224 | a round of the thread does exactly the protocol's steps, and draws what the decision says |
| VideoDisplay.RoundIdle | source/video/vdisp.c:157-186 | those steps without a picture due, or with none queued: the frames stay, a full queue makes the video ready, the end of the sequence ends the thread |
| VideoDisplay.RoundOutcome | source/video/vdisp.c:187-223 | and with one due: held, taken off, or counted down, by the verdict on a head whose time counts |
| VideoDisplay.SVdispCtlInfo.Finish | source/video/vdisp.c:241-246 | on its way out the thread returns the last frame and every queued one |
| FailingInputs.LoneFrameLost | source/video/avidmux.c:1441-1461 | a stream that is one AC-3 frame of 128 bytes gives no AU, however it is cut |
| FailingInputs.SmallChunksOverrun | source/video/avidmux.c:1393-1411 | the third chunk of 100 bytes of a long AC-3 frame does not fit a parse buffer of 200 |
| FailingInputs.LongFramesOverlap | source/video/avidmux.c:310-311 | storing a second MPEG frame of 2304 bytes in buffers of 2048 changes the first |
| FailingInputs.LayerOneMisread | source/video/avidmux.c:1183-1219 | an MPEG-1 Layer I header that announces 416 bytes is taken to announce 1253 |
| FailingInputs.ShortVideoSleeps | source/video/vdisp.c:157-172 | a run of one frame in a queue of two, at whose end the frame is queued and the display asleep for good |
| FailingInputs.OnePooledByte | source/video/util.c:386-408 | with one byte pooled, a read after the switch misses it |
| FailingInputs.FarIndexMistaken | source/video/avidmux.c:806-808 | an index whose list is at 100 and whose first entry has offset 104 gives different tables in the two conventions |

## Left out

- AuPipeline.NeverStuck: says that some step is enabled, not that the stream is finished in the end; shutdown and the exits through the mode flags are not modelled, and neither is liveness.
- AuPipeline.BackPressureTransparent: is about one stream; the turns of other streams appear only as wake-ups, and DemuxMerge has their order.
- AuPipeline.FramesReachDecoder: takes both buffers to be large enough, which the source does not check; when they are is said by AudioStreams. What the program does after an access outside a buffer is not modelled: such a run ends in the state Overrun.
- EsParser.EsCtlInfo.ParseAudioEs: asks its caller for room in the parse buffer and for AUs that fit their buffers; StreamPlayer.Play has both for whole streams, AuPipeline has what happens without.
- StreamPlayer.Play: the chunks lie wholly inside the file, and the decoder releases what it took before the next call; AuPipeline has the read that fails, and lets the decoder keep AUs over calls.
- EsParser.EnableEs: buffer count and size are parameters; a failing allocation, the choice by wave format and DisableEs are not modelled.
- Framing.Format: the parsers' alignment and the byte order of the sync word read are fixed as on the machine the source is for.
- BufferedReader.UtilBufferedFileReader.Refill: the system's read is short only at the end of the file and its seek never fails inside the file; errors of the device and closing are not modelled.
- BufferedReader.PerformAll: runs that read or switch back between a switch to unbuffered mode and the next seek are left to the contracts of the single operations.
- IndexTable.AviDmuxIndex.ReadIdx1Chunk: the file does not change between the two passes, so a second pass that fails is not modelled.
- MixerProtocol.StopIsTaken: the stop is asked for only after the producer has ended, as video.c does; that the mixer library goes on calling is not claimed.
- DisplayProtocol.AllOrNothing: the count of showings does not wrap around, and what the synchronisation decides is left open; a frame drained at the start or end of the thread may have been drawn fewer times.
- DisplayProtocol.FramesConserved: is about the frames that the display thread tracks; the global that names the frame to flip may still point at one returned after a skip.
- MemPool.PoolStorageDisjoint: addresses are unbounded and clients return only blocks they hold.
- Streams with bytes between frames that belong to none: the search flag then depends on where the chunks end.
- The OpenDML index, the AVI headers and their byte swapping, the choice of streams: long and without state.
- Decoders, codec and mixer libraries, drawing, avsync's comparison: their answers are free choices of the environment.
- The interlaced fields of a picture in vpost.c: each is one more frame made and queued.
- User interface, network, file-system and kernel parts of the repository.
