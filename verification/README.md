# Verified models of librsync, the libev event core and the tree-sync prototype

Dafny models of three pieces of this repository, with proofs of what they promise.

**librsync 0.9.7.** The four jobs (signature, loading a signature, delta, patch) are classes whose methods are the
state functions of the C code, stepped by the loop of `job.c` over a scoop for input and a tube for output. The
callbacks are arbitrary: on every turn one appends any piece of the file to what is still unread, at least a byte when
nothing is, and the other offers any room above zero. Each job is proved against a specification of what it does to the
whole file: `DeltaSpec.Greedy` for the delta, `PatchSpec.Interpret` for a patch stream, `SigSpec.SigBytes` and
`SigSpec.Load` for signatures. Those are proved inverse to each other, which gives the result of rsync end to end
(`Sync.Rsync`). The ghost state of a job says what it has sent and what it still owes; that sum never changes, not even
while a blocked tube leaves the scan position past bytes that are still in the scoop. `Rollsum`, `Search` and `Mdfour`
cover the checksums and the lookup table, `Codec` and `DeltaCodec` the command encoding, `Formats` the files byte by byte.

**libev 4.11.** `Heap` and `Timers` hold the 4-ary timer heap with back-pointers and cached times, `Pending` the queues
of pending events, `Invoke` the callbacks, which may change the queues and the heap and invoke pending events themselves,
`FdReify` and `Backends` the lazy registration of file descriptors against poll and select; `Reports` says what every
watcher gets from their results. `WakeUp` is the protocol between senders and a sleeping loop, as interleavings of atomic
steps, and `Quiet` shows that the loop wakes for nothing else and comes to rest.

**The tree-sync prototype.** `TreeMorph` compiles two key-to-content maps into actions, `TreeSync` runs them. Keys are
visited in arbitrary order.

Definitions that the proofs should see only by name are folded: a predicate such as `OnSchedule` picks the truth value of
its body through a quantifier over a marker, and a lemma named after it opens it. There is one marker for each layer that
is opened by itself: `Open` for the librsync specifications and jobs, `OpenPipe` for the byte plumbing under them, `OpenWay`
for the way of a patch job to its outcome, and `Unfold` for libev.

## Model

| member | source | states |
|---|---|---|
| Sync.Rsync | tmp/librsync-0.9.7/delta.c:140-390 | For every basis, new file, block length, strong sum, qsort order and buffer length, and every schedule of buffers in the four jobs, signature, load, delta and patch end in the new file when no window of it collides with a different basis block; both ends count the same commands, literal and copied bytes add up to the file, and the delta is 5 bytes, the literals and the command headers; when every block of the new file is a block of the basis, no literal byte is sent |
| Sync.HitIsBlock | tmp/librsync-0.9.7/search.c:117-162 | A reported match names the offset of a basis block that has both sums of the window |
| Sync.NoCollisionMatchesTrue | tmp/librsync-0.9.7/delta.c:257-280 | Without collisions every match the scanner can make is of equal basis bytes |
| Sync.MakeSignature | tmp/librsync-0.9.7/mksum.c:65-137 | A driven signature job writes exactly the signature bytes of the file |
| Sync.LoadSignature | tmp/librsync-0.9.7/readsums.c:54-213 | A driven load job recovers the signature that was written |
| Sync.MakeDelta | tmp/librsync-0.9.7/delta.c:140-442 | A driven delta job writes exactly the bytes of the greedy commands, and ends with their statistics |
| Sync.ApplyPatch | tmp/librsync-0.9.7/patch.c:62-283 | A driven patch job writes what the delta means and ends with its statistics |
| Sync.KnownBlocksNotSent | tmp/librsync-0.9.7/delta.c:140-227 | Of a file whose every block is a block of the basis, unchanged or in another order, the delta carries not one byte, collisions or not |
| Codec.Proto | tmp/librsync-0.9.7/prototab.c:18-275 | Every opcode has a row whose parameters take at most eight bytes, with a second parameter only after a first and both for a copy |
| Codec.IntLenSmallest | tmp/librsync-0.9.7/netint.c:171-184 | The width chosen for a value is the smallest of 1, 2, 4 and 8 bytes that holds it |
| Codec.ParamInverse | tmp/librsync-0.9.7/netint.c:88-139 | A value below 2^63 written at its smallest width is read back unchanged, through the signed 64-bit accumulator |
| Codec.NetIntInverse | tmp/librsync-0.9.7/netint.c:88-111 | The low bytes of a value, most significant first, stand for it modulo 256 to their number |
| Codec.ConversionsFit | tmp/librsync-0.9.7/netint.c:88-139 | Conversion to a 32-bit or 64-bit signed integer gives the one value of the type that is congruent |
| DeltaCodec.DecodeEncoded | tmp/librsync-0.9.7/emit.c:64-156 | Decoding the emitted bytes through the opcode table gives back the same list of literals and copies, for every list the C types can carry, empty commands included |
| PatchSpec.RunEncoded | tmp/librsync-0.9.7/patch.c:62-255 | Running the encoding of any list of usable commands writes what each command stands for, logs exactly that list, and stops at the end command whatever follows |
| PatchSpec.EncodedEnds | tmp/librsync-0.9.7/patch.c:210-255 | A well-formed stream is patched to its end if and only if every copy is non-empty and inside the basis; otherwise the first bad copy decides, an empty one ending in the internal error of rs_job_iter and one past the basis in an early end of the input; no such stream waits, whatever follows the end command |
| PatchSpec.CutOffWaits | tmp/librsync-0.9.7/scoop.c:177-186 | Of the streams cut off anywhere, for every list of commands, exactly those wait for ever that stop inside the parameters of a command that is reached, or right behind an empty copy that is the first bad command |
| PatchSpec.CutMagicWaits | tmp/librsync-0.9.7/patch.c:262-282 | A stream cut off inside its magic number waits for ever, an empty one does not |
| PatchSpec.EmptyCopyFails | tmp/librsync-0.9.7/patch.c:217-225 | A delta of one empty copy ends in the internal error, and without its end byte it waits for ever |
| PatchSpec.ShortLiteral | tmp/librsync-0.9.7/prototab.c:20-83 | The command bytes 1 to 64 copy that many bytes of the stream, without a length behind them |
| PatchSpec.ReservedFails | tmp/librsync-0.9.7/patch.c:122-147 | The command bytes from 0x55 on end the job as corrupt |
| DeltaSpec.StatsTotal | tmp/librsync-0.9.7/patch.c:160-199 | The statistics of a log add up: bytes carried, header bytes and number of commands are those of its entries |
| DeltaSpec.StatsApart | tmp/librsync-0.9.7/emit.c:88-142 | Literals and copies are counted apart: for each kind the number of commands, the bytes they stand for and the bytes of their headers |
| Rollsum.Accumulator.Rotate | tmp/librsync-0.9.7/rollsum.h:51-55 | Rotating the sum of a window gives the sum of the window one byte on |
| Rollsum.Accumulator.Rollin | tmp/librsync-0.9.7/rollsum.h:56-61 | Rolling a byte in gives the sum of the longer window |
| Rollsum.Accumulator.Rollout | tmp/librsync-0.9.7/rollsum.h:62-67 | Rolling the first byte out gives the sum of the shorter window |
| Rollsum.Accumulator.Update | tmp/librsync-0.9.7/rollsum.c:32-52 | The loop unrolled by sixteen with the deferred offset correction sums like one byte at a time |
| Rollsum.Accumulator.Digest | tmp/librsync-0.9.7/rollsum.h:68 | The digest of the accumulator is the weak sum of the window it holds |
| Rollsum.CalcWeakSum | tmp/librsync-0.9.7/checksum.c:44-62 | The four-at-a-time sum of the signature side is the same weak sum modulo 2^32 |
| Rollsum.WeakSumByIndex | tmp/librsync-0.9.7/checksum.c:44-62 | The low half of the weak sum is the sum of the bytes, each with 31 more, and the high half counts each of them as often as there are bytes from it on, both modulo 2^16 |
| Search.LookupExact | tmp/librsync-0.9.7/search.c:117-162 | A window matches if and only if some block has its weak and truncated strong sum, and the offset is that of such a block, for any unstable sort |
| Search.TagOfWindow | tmp/librsync-0.9.7/search.c:56-57 | The tag of a window is the sum of both its sums, taken byte by byte, modulo 2^16 |
| Search.OtherTagsMiss | tmp/librsync-0.9.7/search.c:124-131 | Skipping targets of other tags loses no match |
| Search.HashTable.constructor | tmp/librsync-0.9.7/search.c:67-104 | Every tag is mapped to its first target in the sorted list, or to none |
| Search.HashTable.SearchForBlock | tmp/librsync-0.9.7/search.c:117-162 | The table lookup answers like a linear scan of the targets |
| DeltaSpec.DeltaReproduces | tmp/librsync-0.9.7/delta.c:140-227 | Interpreting the greedy delta of a file against the basis gives the file, logs the emitted commands and ends well, when the matches are true |
| DeltaSpec.DeltaAccounts | tmp/librsync-0.9.7/emit.c:53-156 | Literal and copied bytes add up to the file length, the delta is five bytes longer than literals and headers, and no command is empty |
| DeltaSpec.GreedyApart | tmp/librsync-0.9.7/delta.c:284-329 | Whatever can be one command is: neighbouring copies are never of adjacent parts of the basis, and a literal is followed by another only when it has the size at which misses are flushed |
| DeltaSpec.LiteralsAreMisses | tmp/librsync-0.9.7/delta.c:140-227 | Every match the scan comes by is taken: no window of the new file that begins inside a literal has a match |
| DeltaSpec.GreedyEncodable | tmp/librsync-0.9.7/delta.c:332-350 | Every command the scan flushes fits the C types of the emitter |
| DeltaSpec.OnTrackMatch | tmp/librsync-0.9.7/delta.c:284-312 | A match, extended or flushed first, leaves what was sent and what is owed making up the same delta |
| DeltaSpec.OnTrackMiss | tmp/librsync-0.9.7/delta.c:315-329 | A miss, extended or flushed first, leaves what was sent and what is owed making up the same delta |
| Pipe.Pipe.Contents | tmp/librsync-0.9.7/scoop.c:28-60 | Scoop and input buffer are the unread bytes, the output is a prefix of what was queued, and all of it once the tube is empty |
| Pipe.Pipe.CatchupWrite | tmp/librsync-0.9.7/tube.c:74-106 | As many queued bytes as there is room for go out, in order |
| Pipe.Pipe.CatchupCopy | tmp/librsync-0.9.7/tube.c:154-177 | A queued copy moves bytes from scoop and input to the output until it is done, the output full or the input empty |
| Pipe.Pipe.Catchup | tmp/librsync-0.9.7/tube.c:184-209 | Done exactly when the tube is idle; blocked only for want of output or input; a copy at the end of the input ends the job, a negative one aborts it |
| Pipe.Pipe.TubeWrite | tmp/librsync-0.9.7/tube.c:253-264 | Bytes are queued behind those already queued; never more than twenty and never behind a copy |
| Pipe.Pipe.TubeCopy | tmp/librsync-0.9.7/tube.c:235-245 | A copy queues exactly the next bytes of the input stream |
| Pipe.Pipe.BuffersCopy | tmp/librsync-0.9.7/stream.c:112-149 | As many bytes as asked for, available and fitting move from the input to the output; they are the next of the stream unless the scoop held some |
| Pipe.Pipe.ScoopInput | tmp/librsync-0.9.7/scoop.c:79-118 | The scoop grows by input bytes to the length asked for, or by all there are |
| Pipe.Pipe.ScoopAdvance | tmp/librsync-0.9.7/scoop.c:130-147 | Exactly the next bytes are consumed, from the scoop if it holds any, else from the input buffer |
| Pipe.Pipe.ScoopReadahead | tmp/librsync-0.9.7/scoop.c:166-216 | Succeeds exactly when the bytes are there, with the next bytes of the stream; otherwise all input is kept in the scoop and the end of the input is told from a block |
| Pipe.Pipe.ScoopRead | tmp/librsync-0.9.7/scoop.c:230-239 | Succeeds exactly when scoop and input together hold the bytes, and gives the next ones; a read that follows a successful readahead cannot fail |
| Pipe.Pipe.ScoopReadRest | tmp/librsync-0.9.7/scoop.c:247-254 | All that is left is read, whether in the scoop, in the input buffer or in both |
| Pipe.Pipe.SquirtNetInt | tmp/librsync-0.9.7/netint.c:88-118 | The integer is queued big-endian at the width given |
| Pipe.Pipe.SuckNetInt | tmp/librsync-0.9.7/netint.c:121-169 | The next bytes are read as a big-endian signed 64-bit integer, or nothing is consumed |
| DeltaJob.ChooseCopyCmd | tmp/librsync-0.9.7/emit.c:106-132 | The opcode is that of the two widths in the table |
| DeltaJob.DeltaJob.EmitLiteralCmd | tmp/librsync-0.9.7/emit.c:64-93 | The literal header is queued and counted |
| DeltaJob.DeltaJob.EmitCopyCmd | tmp/librsync-0.9.7/emit.c:98-143 | The copy command is queued and counted |
| DeltaJob.DeltaJob.FindMatch | tmp/librsync-0.9.7/delta.c:257-280 | The sum rolled so far is that of the window at the scan position, and the match found is that of the specification |
| DeltaJob.DeltaJob.AppendMatch | tmp/librsync-0.9.7/delta.c:284-310 | A match keeps the job on track even when the tube blocks inside it |
| DeltaJob.DeltaJob.AppendMiss | tmp/librsync-0.9.7/delta.c:315-329 | A miss keeps the job on track even when the tube blocks inside it |
| DeltaJob.DeltaJob.AppendFlush | tmp/librsync-0.9.7/delta.c:332-350 | The match or miss being extended is emitted as one command |
| DeltaJob.DeltaJob.ProcessMatch | tmp/librsync-0.9.7/delta.c:363-371 | The bytes of a match leave the scoop and nothing is queued |
| DeltaJob.DeltaJob.ProcessMiss | tmp/librsync-0.9.7/delta.c:385-390 | The bytes of a miss are queued for copying, and the scan position moves past them although they may not have left the scoop |
| DeltaJob.DeltaJob.ScanOne | tmp/librsync-0.9.7/delta.c:153-177 | One turn of the scan loop moves the scan on, on track, with the rolled sum that of the next window or empty |
| DeltaJob.DeltaJob.FlushOne | tmp/librsync-0.9.7/delta.c:204-216 | One turn of the flush loop moves the scan on, on track, with the sum rolled out |
| DeltaJob.DeltaJob.Work | tmp/librsync-0.9.7/job.c:162-195 | A step returns blocked only for want of output or input, and always uses input or output it was given |
| DeltaJob.DeltaJob.Iter | tmp/librsync-0.9.7/job.c:137-158 | The exit for a job that made no progress is never taken |
| DeltaJob.DeltaJob.Turn | tmp/librsync-0.9.7/job.c:234-250 | Every turn of the driving loop with room to write feeds, consumes, writes or gets nearer to the end |
| DeltaJob.DeltaJob.Drive | tmp/librsync-0.9.7/job.c:225-253 | The job ends, and for every schedule of input pieces and output rooms its output is the delta of the whole file and its statistics those of the greedy commands |
| PatchJob.CopyCallback | tmp/librsync-0.9.7/buf.c:204-225 | Some non-empty prefix of the basis range, or the end of the basis |
| PatchJob.PatchJob.PatchHeader | tmp/librsync-0.9.7/patch.c:262-282 | A wrong magic number ends the job; a short one blocks it, for ever at the end of the input |
| PatchJob.PatchJob.PatchCmdByte | tmp/librsync-0.9.7/patch.c:62-84 | The next command byte selects its row of the table and the stage that follows |
| PatchJob.PatchJob.PatchParams | tmp/librsync-0.9.7/patch.c:90-117 | Both parameters are read together, or the job waits |
| PatchJob.PatchJob.ReadParams | tmp/librsync-0.9.7/patch.c:98-110 | Neither read after the readahead can fail, and the parameters are the next bytes |
| PatchJob.PatchJob.PatchRun | tmp/librsync-0.9.7/patch.c:122-143 | An end command ends the job well, a reserved one as corrupt |
| PatchJob.PatchJob.PatchLiteral | tmp/librsync-0.9.7/patch.c:149-166 | A literal queues the next bytes of the delta and is counted; a negative length is corrupt |
| PatchJob.PatchJob.PatchCopy | tmp/librsync-0.9.7/patch.c:172-201 | A copy is counted; a negative field is corrupt |
| PatchJob.PatchJob.PatchCopying | tmp/librsync-0.9.7/patch.c:210-255 | Whatever prefix the basis serves, the copy goes on where it stopped; it blocks exactly when the copy is empty or there is no room |
| PatchJob.PatchJob.Work | tmp/librsync-0.9.7/job.c:162-195 | A step ends as the whole stream says, or blocks for want of output or input, or at an empty copy, or because the stream was cut off |
| PatchJob.PatchJob.Iter | tmp/librsync-0.9.7/job.c:137-158 | The exit for a job that made no progress is taken if and only if the job is at an empty copy, with input at hand and room for output; every other end is the one the stream means |
| PatchJob.PatchJob.Turn | tmp/librsync-0.9.7/job.c:235-250 | A turn makes progress unless the whole stream has been read in vain; on a stream that waits every turn leaves the job blocked |
| PatchJob.PatchJob.Drive | tmp/librsync-0.9.7/job.c:225-253 | For every stream that does not wait for ever and every schedule the job ends with the output, the statistics and the result the stream means, malformed streams and the internal error at an empty copy included |
| PatchJob.PatchJob.DriveFor | tmp/librsync-0.9.7/job.c:225-253 | The streams that Drive leaves out do wait: on every schedule the job is blocked when it has read the whole stream and been told its end, and after any number of turns more |
| SigSpec.LoadInverse | tmp/librsync-0.9.7/readsums.c:54-191 | Loading a generated signature gives exactly the sums of the blocks of the file |
| SigSpec.LoadWaits | tmp/librsync-0.9.7/scoop.c:177-186 | A signature stream waits for ever if and only if its header, as far as it goes, is not at fault and the stream stops inside the header integers or inside a weak or strong sum |
| SigSpec.OneByteWaits | tmp/librsync-0.9.7/readsums.c:174-190 | The first byte of the magic number alone waits for ever |
| Formats.SignatureLayout | tmp/librsync-0.9.7/mksum.c:65-137 | A signature file begins with the magic number, the block length and the strong length, and has an entry for each block |
| Formats.SignatureEntryLayout | tmp/librsync-0.9.7/mksum.c:83-107 | Entry i of a signature file holds the big-endian weak sum of block i and the first bytes of its strong sum |
| Formats.LiteralLayout | tmp/librsync-0.9.7/emit.c:64-90 | A literal is its command byte, the length big-endian at the smallest width and the data |
| Formats.CopyLayout | tmp/librsync-0.9.7/emit.c:99-142 | A copy is its command byte, the position and then the length, each big-endian at its smallest width |
| Formats.FirstCountsMost | tmp/librsync-0.9.7/netint.c:88-139 | Integers in files are big-endian |
| Formats.DeltaEnds | tmp/librsync-0.9.7/delta.c:332-442 | A delta begins with the four bytes of its magic number and ends with the zero command |
| SigSpec.SignatureEntries | tmp/librsync-0.9.7/mksum.c:83-137 | The signature has one entry for each block, ceil(n / block length) in all, numbered from 1, entry i with the sums of block i, and only the last block may be short |
| SigSpec.WeakInverse | tmp/librsync-0.9.7/readsums.c:89-106 | An unsigned weak sum survives its way through a C int |
| SigJob.SigJob.SigHeaderState | tmp/librsync-0.9.7/mksum.c:65-77 | Magic number, block length and strong sum length are queued |
| SigJob.SigJob.SigDoBlock | tmp/librsync-0.9.7/mksum.c:83-107 | The weak sum and the truncated strong sum of the block are queued, which just fits the tube |
| SigJob.SigJob.ReadBlock | tmp/librsync-0.9.7/mksum.c:113-134 | A whole block, or at the end of the input whatever is left |
| SigJob.SigJob.SigGenerate | tmp/librsync-0.9.7/mksum.c:113-138 | Each block in turn is summed; the end of the input ends the job |
| SigJob.SigJob.Iter | tmp/librsync-0.9.7/job.c:137-158 | The exit for a job that made no progress is never taken |
| SigJob.SigJob.Drive | tmp/librsync-0.9.7/job.c:225-253 | For every schedule the job ends with the signature of the file and the number of its blocks |
| LoadJob.LoadJob.LoadMagic | tmp/librsync-0.9.7/readsums.c:174-192 | A wrong magic number ends the job |
| LoadJob.LoadJob.LoadBlockLen | tmp/librsync-0.9.7/readsums.c:153-171 | A block length below one is corrupt |
| LoadJob.LoadJob.LoadStrongLen | tmp/librsync-0.9.7/readsums.c:127-150 | A strong sum length below zero or above sixteen is corrupt |
| LoadJob.LoadJob.LoadWeak | tmp/librsync-0.9.7/readsums.c:89-107 | The end of the input between entries ends the job well |
| LoadJob.LoadJob.LoadStrong | tmp/librsync-0.9.7/readsums.c:54-121 | An entry is added with the next number |
| LoadJob.LoadJob.Drive | tmp/librsync-0.9.7/job.c:225-253 | For every stream that does not wait for ever and every schedule the job ends as the whole stream says |
| LoadJob.LoadJob.DriveFor | tmp/librsync-0.9.7/job.c:225-253 | The streams that Drive leaves out do wait: on every schedule the job is blocked when the whole stream and its end have been fed, and after any number of turns more |
| Mdfour.Accumulator.Update | tmp/librsync-0.9.7/mdfour.c:333-369 | What was fed is in the chain by whole blocks and in the tail, however it was cut up |
| Mdfour.Accumulator.Finish | tmp/librsync-0.9.7/mdfour.c:298-325 | The tail adds exactly the padding of sections 3.1 and 3.2 of RFC 1320 |
| Mdfour.Accumulator.Result | tmp/librsync-0.9.7/mdfour.c:372-380 | The result is that of the padded message compressed block by block |
| Mdfour.PaddedWhole | tmp/librsync-0.9.7/mdfour.c:319-324 | The padded message is whole blocks, the fewest that hold the length |
| Mdfour.PaddedByIndex | tmp/librsync-0.9.7/mdfour.c:298-325 | Byte by byte the padding is 0x80, zeros up to the last eight bytes of the last 64-byte block, and there the bit length modulo 2^64, least significant byte first |
| Mdfour.Md4ByIndex | tmp/librsync-0.9.7/mdfour.c:372-380 | Byte by byte the result is the four words that the padded message makes of the initial words, each least significant byte first |
| Mdfour.FoldConcat | tmp/librsync-0.9.7/mdfour.c:357-362 | Compressing whole blocks can be interrupted between any two |
| Mdfour.SumChunks | tmp/librsync-0.9.7/mdfour.c:384-391 | Splitting the input across updates never changes the result |
| TreeSync.Patcher.Patch | tmp/proto.js:163-229 | The destructive run ends as the actions one after the other say; it stops at the first action that is refused, with its error, and the tree is then what the actions before it made |
| TreeSync.Patcher.StoreAll | tmp/proto.js:168-172 | Every key named by an action is stored in the tree at first |
| TreeSync.StepRefuses | tmp/proto.js:174-226 | Each error exit is taken exactly when: the key to create exists, the key to read or delete does not, the content to rsync is not the expected one, or the content to copy is gone |
| TreeSync.StepTouches | tmp/proto.js:174-226 | An action changes no key but its own and its destination, writes its own content or the one it was told to read, and only a move and a delete take a key away |
| TreeSync.CopyStep | tmp/proto.js:192-198 | A copy of a source whose content can still be read writes the wanted content |
| TreeSync.MoveStep | tmp/proto.js:199-206 | A move takes its source from the backup if it is there, else from the tree, and removes it from where it was |
| TreeSync.SourcesSafe | tmp/proto.js:115-122 | A source that is overwritten is backed up, so chains and cycles of moves lose nothing |
| TreeSync.FirstHalf | tmp/proto.js:163-198 | Creates, backups and copies run without an error exit and destroy no source |
| TreeSync.SecondHalf | tmp/proto.js:199-226 | Moves, rsyncs and deletes run without an error exit |
| TreeSync.FinalTree | tmp/proto.js:163-229 | What is written or kept is B, and every other key of A is gone |
| TreeSync.GoodPlanWorks | tmp/proto.js:163-229 | Every good plan, in any order of its parts, takes no error exit and ends in B |
| TreeSync.OnlyNewContentSent | tmp/proto.js:58-87 | Creates and rsyncs carry only contents that no key of A holds |
| TreeMorph.ArrayDiff | tmp/proto.js:1-5 | Exactly the elements of the first list that are not in the second, and none of them twice if it was not there twice |
| TreeMorph.DiffConcat | tmp/proto.js:1-5 | Filtering a list is filtering its pieces, so order and repetitions are kept |
| TreeMorph.ArrayCommon | tmp/proto.js:7-11 | Exactly the elements of the first list that are in the second, and none of them twice if it was not there twice |
| TreeMorph.CommonConcat | tmp/proto.js:7-11 | Filtering a list is filtering its pieces, so order and repetitions are kept |
| TreeMorph.SurveyAll | tmp/proto.js:28-89 | Each key of B is classed as kept, rsynced, destination or fresh, in any order of visiting |
| TreeMorph.ChooseAll | tmp/proto.js:91-113 | Each destination gets a source with its content: a move from an unprotected key if there is one, else a copy |
| TreeMorph.Morph | tmp/proto.js:13-161 | The actions are the script of a good plan: every destination filled once, each source moved once at most, overwritten sources backed up, copies only when nothing is left to move; running them takes no error exit and ends in B |
| TreeMorph.MorphThenPatch | tmp/proto.js:276-294 | For all maps A and B and any iteration order, patching A with morph(A, B) takes no error exit and ends equal to B |
| TreeMorph.IsEqual | tmp/proto.js:231-250 | The comparison holds exactly when the maps are equal |
| Heap.Parent | tmp/libev-4.11/ev.c:1661-1664 | The parent of an entry is nearer the root, and only the root is its own, as C division truncates |
| Heap.ChildParent | tmp/libev-4.11/ev.c:1677 | The four children of an entry are exactly those it is the parent of |
| Heap.QuarterWay | tmp/libev-4.11/ev.c:1661-1677 | The root is entry 3, the parent of entry k is entry k/4 + 2, and its first child entry 4k - 8 |
| Heap.RootEarliest | tmp/libev-4.11/ev.c:2510-2523 | No entry of a heap is earlier than its root |
| Heap.SinkStep | tmp/libev-4.11/ev.c:1678-1703 | Moving the earliest child up keeps the rest a heap |
| Heap.RiseStep | tmp/libev-4.11/ev.c:1752-1761 | Moving a later parent down keeps the rest a heap |
| Heap.LooseAdjusts | tmp/libev-4.11/ev.c:1770-1776 | An entry of any time needs only to rise or only to sink |
| Timers.Timers.MinChild | tmp/libev-4.11/ev.c:1680-1697 | Both paths find the earliest child |
| Timers.Timers.DownHeap | tmp/libev-4.11/ev.c:1668-1708 | The result is a heap of the same entries, each pointed at by its watcher |
| Timers.Timers.UpHeap | tmp/libev-4.11/ev.c:1748-1766 | The result is a heap of the same entries, each pointed at by its watcher; later entries stay |
| Timers.Timers.AdjustHeap | tmp/libev-4.11/ev.c:1770-1776 | An entry with a new time finds its place |
| Timers.Timers.ReHeap | tmp/libev-4.11/ev.c:1780-1788 | Entries in any order become a heap of the same entries |
| Timers.Timers.constructor | tmp/libev-4.11/ev.c:2510-2523 | A loop without timers has a valid heap |
| Timers.Timers.TimerStart | tmp/libev-4.11/ev.c:3263-3284 | Exactly the started timer is added, at now plus its time; order, back-pointers and cached times hold |
| Timers.Timers.TimerStop | tmp/libev-4.11/ev.c:3287-3314 | Exactly the stopped timer is removed and keeps what it had left; order, back-pointers and cached times hold, and its events are cleared; a timer that was never started stays as it is |
| Timers.Timers.TimerAgain | tmp/libev-4.11/ev.c:3317-3341 | For a timer that is active, stopped or never started: active afterwards if and only if it repeats, at now plus its repeat; all other entries stay |
| Timers.Timers.Repeat | tmp/libev-4.11/ev.c:2728-2738 | A due timer that repeats moves on, to now at the earliest, and is due no longer |
| Timers.Timers.CollectDue | tmp/libev-4.11/ev.c:2719-2745 | The loop ends; it takes exactly the due timers, each once and earliest first, and leaves none due |
| Timers.Timers.TimersReify | tmp/libev-4.11/ev.c:2714-2749 | Exactly the due timers are fed, each once, the latest first, and every remaining time is at least now; of two of one priority that were not pending the earlier one is the newer in its queue |
| Timers.TimersInOrder | tmp/libev-4.11/ev.c:1432-1444 | In a queue that the due timers were just fed to, emptying from the end gives the timers earliest first, and then what was queued already |
| Pending.Pendings.FeedEvent | tmp/libev-4.11/ev.c:1415-1429 | A pending watcher gets the events merged, another, started or not, is queued last; entries and back-pointers stay inverse to each other |
| Pending.Pendings.ClearPending | tmp/libev-4.11/ev.c:3178-3192 | The events are returned, the entry becomes a tombstone, and the watcher is no longer pending; a watcher that has nothing pending stays as it is |
| Pending.Pendings.PriAdjust | tmp/libev-4.11/ev.c:3195-3201 | The priority is clamped, and that of a watcher in use does not change |
| Watchers.ClampNearest | tmp/libev-4.11/ev.c:3195-3201 | The clamped priority is the nearest to the one asked for of those from -2 to 2 |
| Pending.Pendings.FeedReverseDone | tmp/libev-4.11/ev.c:1439-1444 | The watchers collected are fed last first, so that of two with one priority that were not pending the earlier one is the newer in its queue |
| Pending.Pendings.TakeOne | tmp/libev-4.11/ev.c:2678-2681 | The last entry of a queue is delivered with everything fed to it, or skipped if it is a tombstone |
| Pending.TraceGrows | tmp/libev-4.11/ev.c:1415-1429 | A mask delivered is the OR of all fed since the last delivery or clearing, and each step keeps it so |
| Pending.DeliveredIsOr | tmp/libev-4.11/ev.c:1415-1429 | For every set of events: a delivered mask has one of them if and only if one was fed to the watcher since it was last delivered or cleared |
| Pending.DeliveredWasFed | tmp/libev-4.11/ev.c:2672-2685 | Nothing is delivered that was not fed since the last delivery or clearing |
| Pending.BackwardsForwards | tmp/libev-4.11/ev.c:1439-1444 | Watchers fed backwards and taken from the end of the queue come out in their order |
| Invoke.Callback | tmp/libev-4.11/ev.c:2671-2685 | However a callback mixes feeding, clearing, bringing watchers into use, starting, stopping and restarting timers and invoking pending events itself, the heap and the queues stay valid and the order of the deliveries around it is kept |
| Invoke.InvokePending | tmp/libev-4.11/ev.c:2671-2685 | Whatever the callbacks do, nested invocations included, all that was pending is delivered or cleared, higher priorities first and the newest of a priority first, the lowest queue ends empty and the timers stay valid; without interference all queues end empty |
| Invoke.ReifyAndInvoke | tmp/libev-4.11/ev.c:2671-2749 | After timers_reify and ev_invoke_pending, whatever the callbacks do, starting, stopping and restarting timers included: every timer that was due has been delivered or cleared, of any two of one priority that were not pending the earlier one before the later one is delivered, and the timers stay valid |
| Invoke.ReifyAndDrain | tmp/libev-4.11/ev.c:2671-2749 | Without interference the history is exactly the due timers of each priority, earliest first, before what was queued already, highest priority first |
| Backends.PollSet.Modify | tmp/libev-4.11/ev_poll.c:51-86 | The dense array and the inverse index keep representing the mask of every fd, changed for this one only |
| Backends.SelectSet.Modify | tmp/libev-4.11/ev_select.c:70-135 | The bits keep representing the mask of every fd, changed for this one only |
| FdReify.Fds.FdChange | tmp/libev-4.11/ev.c:1553-1564 | The fd is queued exactly once however often it changes |
| FdReify.Fds.IoStart | tmp/libev-4.11/ev.c:3221-3241 | The watcher joins the list of its fd, which is queued; the backend is not touched |
| FdReify.Fds.IoStop | tmp/libev-4.11/ev.c:3244-3260 | The watcher leaves the list of its fd, which is queued, and its events are cleared; the backend is not touched; a watcher that was never started stays as it is |
| FdReify.Fds.Reify | tmp/libev-4.11/ev.c:1493-1549 | Afterwards the backend watches every fd with the OR of what its started watchers want, and nothing is queued, for both backends |
| FdReify.Fds.FdEvent | tmp/libev-4.11/ev.c:1458-1481 | Each started watcher is fed the reported events it wants, unless the fd is queued |
| FdReify.Fds.FdKill | tmp/libev-4.11/ev.c:1568-1577 | All watchers of the fd are stopped and told |
| FdReify.Fds.PollResults | tmp/libev-4.11/ev_poll.c:108-128 | The loop stops after the last result and never runs past the array; every watcher is fed what was reported for its fd: EV_READ if and only if it wants it and the result has POLLIN, POLLERR or POLLHUP, EV_WRITE likewise with POLLOUT, all of it for an invalid fd and nothing for a queued one |
| FdReify.Fds.SelectResults | tmp/libev-4.11/ev_select.c:246-269 | Words and bits are scanned from the top; every watcher is fed what was reported for its fd: EV_READ if and only if it wants it and the bit of the fd is set in the read set, EV_WRITE likewise, and nothing for a queued fd |
| FdReify.Fds.OnlyThere | tmp/libev-4.11/ev.c:3226-3289 | A started watcher is in the list of its fd and in no other |
| Reports.ResultOfWanted | tmp/libev-4.11/ev_poll.c:72-123 | What poll reports in the terms it was asked in comes back as the events asked for |
| Reports.ResultOfBoth | tmp/libev-4.11/ev_poll.c:119-123 | The events of two results together are those of each |
| Reports.ErrorIsBoth | tmp/libev-4.11/ev_poll.c:119-123 | POLLERR and POLLHUP are both events |
| Reports.PollTells | tmp/libev-4.11/ev_poll.c:108-128 | Watcher by watcher, the feeds of all results together give each event exactly when the result for its own fd says so |
| Reports.SelectTells | tmp/libev-4.11/ev_select.c:246-269 | Watcher by watcher, the feeds of the whole scan give each event exactly when the bit of its own fd says so |
| WakeUp.NoLostWakeUp | tmp/libev-4.11/ev.c:1841-1933 | Over all interleavings of any number of senders with the loop: asleep with an empty pipe and no sender inside evpipe_write, neither flag is raised and no signal and no active async watcher is marked |
| WakeUp.MarkWakesSleeper | tmp/libev-4.11/ev.c:2997-3059 | A marked signal or active async watcher makes the poll of a sleeping loop return and report the pipe |
| WakeUp.MarkIsFed | tmp/libev-4.11/ev.c:1886-1933 | A signal or active async watcher marked while the loop sleeps has been fed the next time the loop is about to poll, over all interleavings, unless it was stopped |
| WakeUp.MarkAtPollIsFed | tmp/libev-4.11/ev.c:2997-3059 | A mark that is there at any poll, blocking or not, with no sender inside evpipe_write has been fed when the loop could next poll, over all interleavings; or a later sender has written to the pipe or is about to, for another wake-up |
| WakeUp.MarkAtPollIsFedAlone | tmp/libev-4.11/ev.c:2997-3059 | When no sender runs on, it has been fed |
| WakeUp.SentIsFed | tmp/libev-4.11/ev.c:1841-3059 | From ev_async_send or ev_feed_signal to the feed, over all interleavings: whatever is sent after any run has been fed when the loop could poll again after the poll that follows the call, unless it was stopped or a later sender has called for another wake-up |
| WakeUp.MarkKeptOrFed | tmp/libev-4.11/ev.c:1919-1931 | A mark goes only when its item is fed |
| WakeUp.OnlyMarkedFed | tmp/libev-4.11/ev.c:1919-1931 | In every run what is fed is active and was marked, and the mark is taken away with it |
| WakeUp.MarkedBySender | tmp/libev-4.11/ev.c:4282-4286 | A mark is set only by a sender, for the item it sends |
| WakeUp.ActiveChanges | tmp/libev-4.11/ev.c:4242-4280 | Stopping takes exactly the watcher at its index out of the list, starting adds exactly the one started, and nothing else changes which signals and watchers are active |
| WakeUp.InvSendStep | tmp/libev-4.11/ev.c:1841-1880 | Every step of a sender keeps the invariant of the protocol |
| WakeUp.InvPipe | tmp/libev-4.11/ev.c:1886-1933 | Every step of pipecb keeps the invariant of the protocol |
| WakeUp.InvPoll | tmp/libev-4.11/ev.c:2997-3059 | Every step of the loop around its poll keeps the invariant of the protocol |
| WakeUp.InvIdle | tmp/libev-4.11/ev.c:4242-4278 | Starting and stopping async watchers and invoking pipe_w keep the invariant of the protocol |
| WakeUp.InvRun | tmp/libev-4.11/ev.c:1841-1933 | The invariant holds in every reachable state |
| Quiet.LoopSettles | tmp/libev-4.11/ev.c:1886-3059 | After any run with no sender inside evpipe_write, the loop left to itself comes to sleep after finitely many steps, with nothing raised, written or marked, and sleeps on |
| Quiet.NothingSent | tmp/libev-4.11/ev.c:1886-3059 | A loop to which nothing is sent never runs pipecb, feeds nothing and stays asleep |
| Quiet.BytesAccounted | tmp/libev-4.11/ev.c:1854-1904 | What is in the pipe was written and not read; pipecb reads no more often than senders have written |
| Quiet.WritesOnlyInPoll | tmp/libev-4.11/ev.c:1854-1858 | A sender that has raised a flag goes on to write exactly when the loop is around its poll |
| Quiet.TidyRun | tmp/libev-4.11/ev.c:1890-1907 | In every reachable state pipe_w is not pending while pipecb runs, and pipecb never reads an empty pipe |

## Left out

- Sync.Rsync: assumes that no window of the new file has both sums of a different basis block; librsync only trusts
  this. Offsets and lengths stay below 2^63 and the buffer length below 2^31, as the C types of the emitter do. The
  numbers of blocks and of targets are unbounded, where the C code counts in an int: bases of 2^31 blocks or more are
  beyond it.
- PatchJob.PatchJob.Drive: claims an end only for streams that do not wait for ever; the others never end, as
  PatchJob.PatchJob.DriveFor states. PatchSpec.CutOffWaits and PatchSpec.CutMagicWaits say which cut-off streams
  those are. PatchSpec.EncodedEnds shows that no well-formed stream does.
- LoadJob.LoadJob.Drive: likewise claims an end only for streams that do not wait for ever; LoadJob.LoadJob.DriveFor
  states that the others never end, and SigSpec.LoadWaits which they are.
- PatchJob.CopyCallback: the basis is a byte sequence, so the callback fails only past its end; I/O errors of files are
  not part of this model.
- TreeSync.Patcher.Patch: JavaScript reads a content that was moved out of the backup as undefined; the model stops with
  NoContent there. No script of morph gets that far. Keys on the prototype chain are not modelled.
- Invoke.InvokePending: the acts of all callbacks together are bounded by a budget of any size, so that the loop ends.
  Callbacks that change the priority of a pending watcher or the times of an active timer, start or stop I/O watchers,
  replace the invoke callback, or run the loop itself are left out.
- Timers.Timers.TimersReify: times are integers, without rounding.
- WakeUp.NoLostWakeUp: steps are sequentially consistent; the memory fences of the C code stand for that. The pipe exists
  from the start, so evpipe_init is not modelled. That the loop never polls while pipe_w is pending is a condition of the
  step GoPoll: in ev_run it follows from ev_invoke_pending settling all that is pending (Invoke.InvokePending)
  and from the top priority of pipe_w. Nested loops and a replaced invoke callback, which could break it, are not modelled.
- Backends.SelectSet.Modify: a word of a select set is the set of its bits, not a machine word.
- Search.HashTable.constructor: the targets come sorted by any qsort, given as a function; its own code is not modelled.
- The scoop and the queued bytes of the tube are sequences; reallocation and shifting of the scoop buffer are not modelled.
- Slack deltas (rs_delta_s_slack), whose literals depend on the buffers of the caller.
- Calling a finished job again, changing rs_outbuflen while jobs run, and the false_matches statistic.
- The rounds of MD4 are an abstract function of the chaining value and a block; Mdfour is not tied to the strong sum of Sync,
  which is any function of 16 bytes.
- Growth of arrays and failure of malloc; intrusive lists of watchers are sequences.
- The order of ev_stop and fd_change, and of fd_change and the masking of EV__IOFDSET, is swapped where nothing reads in between.
- Binary heaps (EV_USE_4HEAP off), periodic timers, idle, check, prepare, fork, child and embedded watchers, and the
  other backends of libev.
- Error recovery of backends other than POLLNVAL (EBADF, ENOMEM, EINTR).
- File I/O, command lines, tracing and statistics formatting, popt, and the other files of the repository.
