# Models of the block layer, AES and event machinery of QEMU 0.12.3

Each module models one component of the source and proves what it is for.  Where the source changes
fields, arrays or lists in place there is a class or an array method beside functions on values;
the methods' contracts tie the one to the other, and the main results are lemmas about the functions.

**Live block migration** (`Migration*.dfy`, `DirtyBitmap*.dfy`).  A state machine whose events are a
guest write, a bulk step, the completion of any outstanding read, moving a finished read to the stream
and the end of a section.  A read may return each sector as it was at any moment since it was issued;
a guest write is one atomic step.  One inductive invariant covers all interleavings; from it follows
that replaying the stream rebuilds the source disks, first on records, then on the bytes of the
stream, and for a whole migration on the source side.  The source neither rejects nor handles sizes
that are not multiples of 2048 sectors: a partial last chunk is sent in the bulk phase but not written
by the loader.  And a last stage whose flush is stopped by the rate limit drops what is still queued
(block-migration.c:340-342, 390-394). The exact condition for both is part of the theorem.  The words
of the dirty bitmap are taken to have 32 bits, since its mask is the int `1 << bit`;
`DirtyBitmapWide.dfy` shows what fails with wider ones.

**AES** (`Aes*.dfy`).  FIPS-197 over bit-vectors and GF(2^8), the table form with two rounds in each
iteration, both key set-ups in place, and CBC, with examples of FIPS-197.  The tables are given by the
formulas of the comment at aes.c:46-58.

**Block requests** (`Iovec.dfy`, `Multiwrite*.dfy`, `ByteIo.dfy`, `Commit.dfy`).  Merging of
multi-writes and their completion callbacks, byte access on top of sectors, and committing a
copy-on-write image.

**Events** (`BottomHalves.dfy`, `BottomHalfRuns.dfy`, `AsyncContexts.dfy`, `AioHandlers.dfy`,
`AioWalks.dfy`, `AioQueues.dfy`, `AioList.dfy`, `BottomHalfDrain.dfy`, `BufferedFile.dfy`).  Callbacks
are arbitrary scripts of the operations of the interface, one script for each call.  Contexts and
bottom halves are covered with all their nesting; the handler list with all changes made while it is
walked; the output buffer over a backend with arbitrary answers.

**CRIS opcode lookup** (`CrisBits.dfy`, `CrisLookup.dfy`).  For any opcode table: the memo tables
keyed by a class of prefixes give the answer of the plain search, under an exact condition on the
sizes of the special registers which the sizes 1, 2 and 4 of cris-dis.c:57-119 meet.

Where the code does less than one might expect, the code is followed, and lemmas give the exact
condition and, mostly, a run on which it happens: `MigrationEnd.MigrationCopies` and
`DroppedQueueLoses`, `MigrationEnd.DirtyPassOk` and `DirtyPartialChunkFails`,
`DirtyBitmap.WordsAllocatedExact` and `OneChunkNotAllocated`, `DirtyBitmapWide.WideWordExact` and
`Chunk31Spills`, `Multiwrite.ComparesRightExact` and `MisorderedPair`, `Multiwrite.MergedPairExact`,
`MultiwriteCompletion.ExactlyOnce` and `TwoFailuresCallTwice`, `BufferedFile.PutPrefixExact` and
`ErrorOvertakes`, `BottomHalfDrain.PopStrandsExact` and `BottomHalfRuns.IdleCallbackLosesBottomHalf`
(the comment at async.c:81-84 says that all bottom halves are executed before the context changes),
`AioQueues.DeletedCallsExact` and `UnsafeIsReachable`, `CrisLookup.ClassSufficesExact`.

## Model
| member | source | states |
|---|---|---|
| MigrationInvariant.InitInv | qemu-0.12.3/block-migration.c:221-261 | the invariant (Inv: what is in flight, queued, sent, re-dirtied or failed accounts for every chunk; submitted, read_done and transferred add up to the reads begun) holds after set-up, whatever is marked dirty |
| MigrationInvariant.WriteInv | qemu-0.12.3/block.c:642-686 | a guest write of any extent, at any moment, keeps the invariant: an outstanding or older copy it makes stale is covered by a dirty chunk |
| MigrationInvariant.CompletionInv | qemu-0.12.3/block-migration.c:127-138 | a read completing in any order, with each sector as it was at some moment since the read was issued, keeps the invariant |
| MigrationInvariant.FlushInv | qemu-0.12.3/block-migration.c:331-361 | moving one finished read to the stream, or noticing its failure, keeps the invariant and the order of copies of each chunk |
| MigrationBulk.BulkInv | qemu-0.12.3/block-migration.c:140-210 | a bulk step keeps the invariant whether it skips, submits, reads at once, is refused or fails, in spite of aligning down |
| MigrationBulk.BulkStepMeans | qemu-0.12.3/block-migration.c:140-210 | what a bulk step reads and changes: the chunk of the first sector from cur_sector on that the base image does not have, whole or as far as the device goes; or, if there is none, the device is done |
| MigrationBulk.BulkProgress | qemu-0.12.3/block-migration.c:154-207 | a bulk step from a paced state moves cur_sector forward or ends the device, and completed_sectors never falls nor passes the total |
| MigrationBulk.BulkPaced | qemu-0.12.3/block-migration.c:164-207 | every bulk step keeps the pacing (completed_sectors not ahead of cur_sector) |
| MigrationBulk.PercentBounds | qemu-0.12.3/block-migration.c:263-294 | the reported progress is between 0 and 100 in every reachable state |
| MigrationRuns.ReportedShare | qemu-0.12.3/block-migration.c:263-294 | in every run a bulk step reports the share of all sectors that all devices have completed, and sends the report if and only if it differs from the last |
| MigrationRuns.HundredExact | qemu-0.12.3/block-migration.c:263-294 | that share is 100 percent if and only if every sector of every device is completed |
| MigrationRuns.RunInv | qemu-0.12.3/block-migration.c:127-361 | the invariant holds after every sequence of guest writes, bulk steps, completions and flushes |
| MigrationRuns.RunOnce | qemu-0.12.3/block-migration.c:127-361 | in every reachable state each chunk has been read at most once: none is in flight or queued twice, or is so after it was sent |
| MigrationRuns.RunForward | qemu-0.12.3/block-migration.c:140-210 | every reachable state is paced, and along every run without an error cur_sector, completed_sectors and bulk_completed never go back |
| MigrationRuns.ReachableProgress | qemu-0.12.3/block-migration.c:140-210 | so in every reachable state an unfailed bulk step makes progress, in spite of aligning down |
| MigrationEnd.DirtyDeviceOk | qemu-0.12.3/block-migration.c:303-327 | the pass over a device succeeds if and only if every dirty chunk below cur_sector ends on the device and is not refused |
| MigrationEnd.DirtyPassOk | qemu-0.12.3/block-migration.c:298-329 | the whole pass succeeds if and only if that holds of every device |
| MigrationEnd.DirtyPassSends | qemu-0.12.3/block-migration.c:298-329 | the pass sends, device after device and in order, each dirty chunk below cur_sector once, with its data of now, and clears it; it stops in front of the first that cannot be read |
| MigrationEnd.DirtyPassCopies | qemu-0.12.3/block-migration.c:298-329 | after a successful pass the last copy of a chunk in the stream is the current data if the pass came to it dirty, and otherwise what it was |
| MigrationEnd.Delivered | qemu-0.12.3/block-migration.c:445-469 | sector by sector, what replaying the stream yields: the source, but for partial last chunks and for clean chunks still in flight or queued |
| MigrationEnd.MigrationCopies | qemu-0.12.3/block-migration.c:401-523 | for every run whose bulk phase is over and whose last pass meets no error: replaying the stream rebuilds every source disk if and only if the sectors beyond the last whole chunk, and the clean chunks still in flight or queued, agreed already; with an empty queue and whole chunks, always |
| MigrationEnd.DroppedQueueLoses | qemu-0.12.3/block-migration.c:363-394 | chunks do get lost that way: for every pair of one-chunk disks, a run after which is_stage2_completed holds, no error is noticed and nothing arrives |
| MigrationEnd.DirtyPartialChunkFails | qemu-0.12.3/block-migration.c:298-329 | a dirty partial chunk can occur: for every disk shorter than a chunk, a run from the start to a drained, error-free state in which the dirty pass fails whatever the driver accepts |
| MigrationEngine.BlockMigration.ReadCb | qemu-0.12.3/block-migration.c:127-138 | the completion callback on the queue and counters |
| MigrationEngine.BlockMigration.Write | qemu-0.12.3/block.c:670-686 | a guest write on the fields: the chunks marked, the data written, the outstanding reads that may see it |
| MigrationEngine.BlockMigration.SaveDevice | qemu-0.12.3/block-migration.c:140-210 | the statements on the real fields refine the bulk step, the skipping loop included |
| MigrationEngine.BlockMigration.BulkDevice | qemu-0.12.3/block-migration.c:140-210 | the step and its verdict on the fields: what BulkStepMeans says |
| MigrationEngine.BlockMigration.SaveBulkedBlock | qemu-0.12.3/block-migration.c:263-294 | picks the first device that is not done and refines the bulk step with its progress report, sent exactly if it changed; returns 0 exactly when all are done |
| MigrationEngine.BlockMigration.FlushBlks | qemu-0.12.3/block-migration.c:331-361 | the same on the fields |
| MigrationEngine.FlushSends | qemu-0.12.3/block-migration.c:331-361 | the flush sends a prefix of the queue, none of which has failed, in order, and moves it from read_done to transferred; it stops only at the end of the queue, at the rate limit or at a failed read, and raises the error if and only if it is the last |
| MigrationEngine.BlockMigration.SaveDirtyBlocks | qemu-0.12.3/block-migration.c:298-329 | the loop over devices and chunks is that pass, on the fields, and raises the error exactly if it gives up |
| MigrationEngine.BlockMigration.Stage2Completed | qemu-0.12.3/block-migration.c:363-378 | nothing submitted is outstanding and every device has been read |
| MigrationEngine.BlockMigration.BulkWhileBelow | qemu-0.12.3/block-migration.c:431-441 | the rate-limited bulk loop makes only steps of the protocol, and goes on until the outstanding and queued reads reach the limit or every device is done |
| MigrationEngine.BlockMigration.Cleanup | qemu-0.12.3/block-migration.c:380-399 | both lists are emptied, sent or not |
| MigrationEngine.BlockMigration.BulkToTheEnd | qemu-0.12.3/block-migration.c:449-451 | the unbounded bulk loop of the last stage terminates with every device done, whatever is dirty, as long as the driver refuses finitely often |
| MigrationEngine.BlockMigration.SaveLive | qemu-0.12.3/block-migration.c:401-443 | stages 1 and 2 make only steps of the protocol, keep the invariant, end the section, and report completion exactly when nothing is outstanding and all devices are done; with an open limiter the queue ends up empty and reads are begun up to the limit; no error arises unless a queued read has failed or the driver refuses one |
| MigrationEngine.BlockMigration.SaveLiveLast | qemu-0.12.3/block-migration.c:445-469 | the last stage, if no error is noticed, leaves a stream that rebuilds the disks but for partial last chunks and the clean chunks in flight or queued when the dirty pass began; there are none of the latter if stage 2 was complete and a flush is not limited; no error arises if no queued read has failed, the driver refuses none and every dirty chunk can be read |
| MigrationWhole.Migrate | qemu-0.12.3/block-migration.c:221-469 | a whole migration on the source side, from the set-up through any live stages, guest writes and read completions to the last stage: if it meets no error, the stream rebuilds the disks as the last guest write left them, but for what SaveLiveLast excepts; completely, if the devices are whole chunks and the last stage begins when stage 2 is complete and is not limited; and if no read fails or is refused it meets no error |
| MigrationWire.ParseEncode | qemu-0.12.3/block-migration.c:79-93 | the parser reads back every record that blk_send and block_save_live write, with what follows untouched, whatever its buffers held |
| MigrationWire.BlockBytes | qemu-0.12.3/block-migration.c:79-93 | every byte of a block on the wire: the sector number above nine flag bits in eight bytes, highest first, the length and the bytes of the name, and the data in order |
| MigrationWire.MarkBytes | qemu-0.12.3/block-migration.c:284-288 | the bytes of the progress and end marks |
| MigrationWire.LoadEncoded | qemu-0.12.3/block-migration.c:471-523 | loading the bytes of any stream of sections is replaying its records |
| MigrationWire.CutNeverSucceeds | qemu-0.12.3/block-migration.c:471-523 | a section that is cut short anywhere, in a header, a name or the data, never loads successfully |
| MigrationWire.LoadCutHeader | qemu-0.12.3/block-migration.c:471-523 | cut in front of or within a header: invalid, and the records before it are loaded |
| MigrationWire.LoadCutBlock | qemu-0.12.3/block-migration.c:486-519 | cut within the data of a block: an I/O error, and the block is written with what the buffer held behind the cut |
| MigrationWire.LoadUnknownDevice | qemu-0.12.3/block-migration.c:488-497 | a block for an unknown device: invalid, whatever follows, and the records before it are loaded |
| MigrationWire.LoadUnknownFlags | qemu-0.12.3/block-migration.c:513-516 | a header without a known flag: likewise |
| MigrationWire.BlockLoad | qemu-0.12.3/block-migration.c:471-523 | the loop of the loader: disks and status after one section, with unknown devices, unknown flags, and streams cut in a header, a name or a block |
| MigrationWire.MigrationCopiesBytes | qemu-0.12.3/block-migration.c:401-523 | end to end in bytes, under the same condition as MigrationCopies: loading what a run wrote turns the destination disks into the source disks |
| DirtyBitmap.ChunksOfMeaning | qemu-0.12.3/block.c:642-652 | the chunks a non-empty write touches are exactly those of its sectors |
| DirtyBitmap.DirtyMeaning | qemu-0.12.3/block.c:642-662 | after any writes and resets a chunk is dirty exactly if it was written and not reset since |
| DirtyBitmap.DirtyBitmap.Put | qemu-0.12.3/block.c:653-660 | setting or clearing a bit in its 32-bit word changes that chunk and no other |
| DirtyBitmap.DirtyBitmap.Set | qemu-0.12.3/block.c:642-662 | the loop over words adds or removes exactly the chunks of the range |
| DirtyBitmap.DirtyBitmap.Get | qemu-0.12.3/block.c:2137-2148 | the test is membership of the sector's chunk, and false beyond the device |
| DirtyBitmap.TestAfter | qemu-0.12.3/block.c:642-662 | on the real bitmap: after any history of settings and resets since it was allocated, a sector tests dirty if and only if it is on the device and its chunk was written and not reset since |
| DirtyBitmap.WordsAllocatedExact | qemu-0.12.3/block.c:2117-2127 | the words that are read and written all lie in the allocation if and only if its size in bytes is a multiple of 4 |
| DirtyBitmap.OneChunkNotAllocated | qemu-0.12.3/block.c:2117-2127 | they do not on any device of one chunk: one byte is allocated |
| DirtyBitmapWide.WideWordExact | qemu-0.12.3/block.c:653-660 | why the words are taken to have 32 bits: in a word of 64, the sign-extended int mask changes one bit and no other if and only if that is not bit 31 or the upper half was so already |
| DirtyBitmapWide.Chunk31Spills | qemu-0.12.3/block.c:653-660 | where that fails: marking chunk 31 in a clean word of 64 bits makes all of its upper half test dirty |
| AesField.InvSBoxUndoes | qemu-0.12.3/aes.c:46-58 | the two substitution tables undo each other |
| AesField.SBoxMeaning | qemu-0.12.3/aes.c:46-58 | the substitution table is the affine image of the multiplicative inverse in GF(2^8) (section 5.1.1 of FIPS-197) |
| AesCipher.TimesAreProducts | qemu-0.12.3/aes.c:46-58 | the factors 2, 3, 9, 11, 13 and 14 written with xtime are the products of GF(2^8) |
| AesCipher.InvMixColumnUndoes | qemu-0.12.3/aes.c:832-878 | InvMixColumns undoes MixColumns, as polynomial arithmetic over GF(2^8) |
| AesCipher.EqInvCipherUndoes | qemu-0.12.3/aes.c:832-1261 | for every state and number of rounds, the equivalent inverse cipher under the reversed, InvMixColumns-transformed schedule undoes the cipher (section 5.3.5 of FIPS-197) |
| AesTables.RoundColumn | qemu-0.12.3/aes.c:46-58 | four Te lookups and a key word are SubBytes, ShiftRows, MixColumns and AddRoundKey of one column |
| AesTables.InvRoundColumn | qemu-0.12.3/aes.c:46-58 | four Td lookups and a key word are one column of the inverse round |
| AesTables.LastColumn | qemu-0.12.3/aes.c:1037-1070 | the masked Te4 lookups are the last round, without MixColumns |
| AesTables.InvLastColumn | qemu-0.12.3/aes.c:1228-1261 | the masked Td4 lookups are the last inverse round |
| AesTables.KeyColumn | qemu-0.12.3/aes.c:853-876 | Td lookups of Te4 bytes are InvMixColumns of a key word |
| AesKeySchedule.RconTable | qemu-0.12.3/aes.c:722-726 | the round constants are the powers of x |
| AesVector.ExpansionVector | qemu-0.12.3/aes.c:731-773 | the round keys of the 128-bit key of appendix C.1 of FIPS-197 are those printed there |
| AesVector.ExpansionVector256 | qemu-0.12.3/aes.c:796-825 | the first new words of the 256-bit key of appendix A.3, the extra SubWord included |
| AesVector.EncryptVector | qemu-0.12.3/aes.c:885-1070 | the block of appendix C.1 encrypts to the one printed there |
| AesKeySchedule.Expand128 | qemu-0.12.3/aes.c:752-773 | the loop fills 44 words as the recurrence of section 5.2 of FIPS-197 has it |
| AesKeySchedule.Expand192 | qemu-0.12.3/aes.c:774-795 | the loop fills 52 words by the recurrence |
| AesKeySchedule.Expand256 | qemu-0.12.3/aes.c:796-825 | the loop fills 60 words by the recurrence, with the extra SubWord |
| AesKeySchedule.SetEncryptKey | qemu-0.12.3/aes.c:731-827 | the status of bad arguments, the number of rounds, and all 4*(rounds+1) words of the expanded key, of which the first hold the bytes of the user key in order, the first byte of a word highest |
| AesKeySchedule.ReverseRoundKeys | qemu-0.12.3/aes.c:846-852 | the in-place swaps reverse the order of the round keys |
| AesKeySchedule.MixInnerKeys | qemu-0.12.3/aes.c:853-876 | all round keys but the first and the last become their InvMixColumns |
| AesKeySchedule.SetDecryptKey | qemu-0.12.3/aes.c:832-878 | the in-place reversal and transformation give the inverse schedule of the encryption key |
| AesBlock.DecryptUndoesEncrypt | qemu-0.12.3/aes.c:885-1261 | decrypting an encrypted 16-byte block gives it back under an inverse schedule |
| AesBlock.KeyRoundTrip | qemu-0.12.3/aes.c:731-1261 | for every key of 128, 192 or 256 bits and every block, what the two key set-ups produce makes decryption undo encryption |
| AesBlock.EncRounds | qemu-0.12.3/aes.c:977-1036 | the loop of two table rounds per iteration computes the round function of section 5.1 of FIPS-197 |
| AesBlock.Encrypt | qemu-0.12.3/aes.c:885-1070 | the table-driven routine writes exactly the cipher of the block, in place or not |
| AesBlock.DecRounds | qemu-0.12.3/aes.c:1168-1227 | the decrypting loop computes the inverse rounds |
| AesBlock.Decrypt | qemu-0.12.3/aes.c:1076-1261 | the table-driven routine writes exactly the inverse cipher of the block |
| AesCbc.CbcRoundTrip | qemu-0.12.3/aes.c:1265-1314 | for every length, a partial last block included, decrypting a ciphertext gives back the message (section 6.2 of NIST SP 800-38A) |
| AesCbc.CbcBlocks | qemu-0.12.3/aes.c:1276-1294 | block by block: each block of ciphertext is the cipher of the message block added to the ciphertext before it, or to the ivec; what is missing of the last block is filled from there |
| AesCbc.CbcSplit | qemu-0.12.3/aes.c:1276-1294 | encrypting in two parts cut at a block boundary, threading the ivec, gives the same ciphertext |
| AesCbc.IvAgreesOnWholeBlocks | qemu-0.12.3/aes.c:1276-1313 | on whole blocks both directions leave the same ivec |
| AesCbc.IvAfterPartial | qemu-0.12.3/aes.c:1276-1313 | behind a partial block they differ: encrypting leaves the last block of ciphertext, decrypting the padded block that was encrypted to it |
| AesCbc.CbcEncryptBuffer | qemu-0.12.3/aes.c:1276-1294 | the encrypting loop, in place or not: output, final ivec, and nothing written past the padded length |
| AesCbc.CbcDecryptBuffer | qemu-0.12.3/aes.c:1295-1313 | the decrypting loop, in place or not: output, final ivec, and exactly length bytes written |
| Iovec.Concat | qemu-0.12.3/cutils.c:156-193 | appending at most size bytes of one vector to another appends exactly that prefix of its data |
| Multiwrite.MergedSizesExact | qemu-0.12.3/block.c:1643-1708 | after merging in the comparator's order, every vector is nb_sectors*512 long if and only if the requests given were pairwise disjoint |
| Multiwrite.MergingPreservesMeaning | qemu-0.12.3/block.c:1634-1708 | for disjoint requests: the merged ones have gaps between them, are well formed, and in any completion order leave the same disk as the originals in theirs |
| Multiwrite.MergedPairExact | qemu-0.12.3/block.c:1654-1708 | for any two requests in order, overlapping ones too: merging leaves the disk as it would be without if and only if what the first holds behind the end of the second is on the disk already |
| Multiwrite.ComparesRightExact | qemu-0.12.3/block.c:1634-1637 | the truncating comparator gets a pair of requests right, both ways round, if and only if the low 32 bits of their distance are a positive int or the distance is 0 |
| Multiwrite.MisorderedPair | qemu-0.12.3/block.c:1634-1637 | a pair it gets wrong, at every sector: one 2^31 + 1 sectors further on is put first |
| Multiwrite.CompareIsOrder | qemu-0.12.3/block.c:1634-1637 | for sectors less than 2^32 apart: if and only if they are less than 2^31 apart |
| Multiwrite.OrderedIsSorted | qemu-0.12.3/block.c:1634-1652 | a list in the comparator's order is sorted by sector, if all its pairs are compared right |
| Multiwrite.MergeRequests | qemu-0.12.3/block.c:1654-1708 | the in-place pass over the array leaves the merged requests in front |
| MultiwriteCompletion.CallbackCount | qemu-0.12.3/block.c:1605-1632 | for every completion order: how often each user callback runs, and that the record is freed once |
| MultiwriteCompletion.NotFreedEarly | qemu-0.12.3/block.c:1616-1632 | while a completion is missing the record is not freed |
| MultiwriteCompletion.ExactlyOnce | qemu-0.12.3/block.c:1605-1773 | each callback runs exactly once if and only if at most one request fails (exactly one, when a submission was refused) |
| MultiwriteCompletion.TwoFailuresCallTwice | qemu-0.12.3/block.c:1605-1632 | where it fails: two accepted requests that both fail, in which case every callback runs twice |
| MultiwriteCompletion.RightStatus | qemu-0.12.3/block.c:1605-1632 | all user callbacks of a run with their statuses, also when a later request was refused: one round for each failure with its status; so where they run exactly once they are told the failure, or success |
| MultiwriteCompletion.SubmitMeaning | qemu-0.12.3/block.c:1747-1773 | the submission loop: what is pending, the recorded error, and when the call itself fails, in which case the record is freed and no callback runs |
| MultiwriteCompletion.MultiwriteCB.SubmitAll | qemu-0.12.3/block.c:1747-1773 | the submission loop on the record's fields |
| MultiwriteCompletion.MultiwriteCB.Cb | qemu-0.12.3/block.c:1616-1632 | the completion callback on the record's fields |
| ByteIo.ReachableParts | qemu-0.12.3/block.c:600-626 | the three sector ranges of an unaligned access are on the device exactly when the whole byte range is |
| ByteIo.BlockDevice.Pread | qemu-0.12.3/block.c:688-731 | for every offset and length: success returns exactly the bytes of the device, and if nothing fails in the driver success is exactly reachability |
| ByteIo.BlockDevice.Pwrite | qemu-0.12.3/block.c:733-780 | success changes exactly the bytes [offset, offset+count) to the buffer; whatever fails, every byte is old or new and none outside the range changes |
| ByteIo.BlockDevice.PatchSector | qemu-0.12.3/block.c:742-758 | the read-modify-write of one sector changes only the piece |
| ByteIo.BlockDevice.WriteAligned | qemu-0.12.3/block.c:760-769 | the aligned middle is written as it is, or in part |
| Commit.CowImage.DoCommit | qemu-0.12.3/block.c:558-598 | whatever fails, the guest sees the same before and after; success is exactly the absence of a failing sector, and then the backing image alone reads like the merged image |
| Commit.CowImage.CopySector | qemu-0.12.3/block.c:573-581 | a round of the inner loop changes one backing sector, to the guest's view or not at all |
| BufferedFile.RunLossless | qemu-0.12.3/buffered_file.c:49-239 | for every interleaving of puts, flushes, ticks, short writes and EAGAIN: until the error flag is set, delivered bytes followed by the buffer are all the bytes put |
| BufferedFile.FlushLoopMeans | qemu-0.12.3/buffered_file.c:73-108 | a flush hands over a prefix of the buffer as long as the answers are good, and ends with an empty buffer, frozen because the answer was EAGAIN, or with an error because it was none of the two |
| BufferedFile.PutDelivers | qemu-0.12.3/buffered_file.c:110-160 | how many old and new bytes a put hands over, that the new ones count against the limit, why any stay behind, and where they go |
| BufferedFile.TickMeans | qemu-0.12.3/buffered_file.c:221-239 | a tick with no error or freeze resets the budget and empties the buffer, unless the backend asks to wait or fails |
| BufferedFile.TickDelivers | qemu-0.12.3/buffered_file.c:221-239 | so with a willing backend everything put has been delivered after it |
| BufferedFile.PutKeeps | qemu-0.12.3/buffered_file.c:110-160 | one put keeps that, whatever the backend does |
| BufferedFile.PutPrefixExact | qemu-0.12.3/buffered_file.c:110-160 | a put leaves the backend with a prefix of all bytes put, whatever it answers, if and only if the transfer limit is exceeded, nothing is buffered or put, or all those bytes are equal |
| BufferedFile.ErrorOvertakes | qemu-0.12.3/buffered_file.c:110-160 | it does happen: for any two non-empty puts into a fresh file, a backend with which only the second arrives |
| BufferedFile.CloseDelivers | qemu-0.12.3/buffered_file.c:162-183 | close ends with the error flag set or with everything delivered |
| BufferedFile.QEMUFileBuffered.Append | qemu-0.12.3/buffered_file.c:49-71 | the buffer's contents grow by the data, within its capacity, moved or not |
| BufferedFile.QEMUFileBuffered.DoFlush | qemu-0.12.3/buffered_file.c:73-108 | the partial-write loop and the move of the rest do what FlushLoopMeans says |
| BufferedFile.QEMUFileBuffered.PutBuffer | qemu-0.12.3/buffered_file.c:110-160 | result and state of a put, as PutDelivers says |
| BufferedFile.QEMUFileBuffered.RateTick | qemu-0.12.3/buffered_file.c:221-239 | the same on the fields |
| BufferedFile.QEMUFileBuffered.RateLimit | qemu-0.12.3/buffered_file.c:185-199 | limited exactly if frozen or over the budget, and never after an error |
| BufferedFile.QEMUFileBuffered.SetRateLimit | qemu-0.12.3/buffered_file.c:201-212 | a new rate takes effect unless there was an error |
| BufferedFile.QEMUFileBuffered.Close | qemu-0.12.3/buffered_file.c:162-183 | as CloseDelivers, on the fields |
| BottomHalfRuns.RunKeeps | qemu-0.12.3/async.c:65-195 | everything that callbacks and nested contexts can do keeps the state well formed and looks like a step from outside: other contexts make no calls, and what is scheduled stays so unless stopped |
| BottomHalfRuns.CallsInOwnContext | qemu-0.12.3/async.c:65-166 | over whole runs: a callback runs only while the context it was created in is on top; ids are stack positions; the lists are disjoint |
| BottomHalfRuns.PollRuns | qemu-0.12.3/async.c:138-166 | one poll: calls go in list order, the result is 1 exactly if a non-idle one ran, and what remains is the new and the old bottom halves in order, minus the deleted ones |
| BottomHalfRuns.PollOnce | qemu-0.12.3/async.c:138-166 | no bottom half runs twice in a poll, none created during it runs, and what was due runs unless cancelled or deleted meanwhile |
| BottomHalfRuns.DrainRuns | qemu-0.12.3/async.c:85-91 | after the polling loop nothing in the context is due, unless an idle bottom half was called |
| BottomHalfRuns.PopLeavesNothingDue | qemu-0.12.3/async.c:85-105 | leaving a context restores the parent with one new scheduled bottom half, and strands nothing unless an idle one was called |
| BottomHalfDrain.PopStrandsExact | qemu-0.12.3/async.c:85-105 | before a context is left: whatever the callbacks do short of scheduling idle bottom halves, nothing scheduled is stranded if and only if the first due bottom half in the list is not an idle one; whatever they do at all, if and only if nothing is due |
| BottomHalfRuns.IdleCallbackLosesBottomHalf | qemu-0.12.3/async.c:138-174 | such a loss is reachable: a run from the start whose last poll reports nothing although its callback scheduled another, which is then lost |
| AsyncContexts.Async.BhPoll | qemu-0.12.3/async.c:138-166 | the two loops over the linked list refine the poll |
| AsyncContexts.Async.VisitAll | qemu-0.12.3/async.c:143-151 | the loop that reads the next pointer after each callback, while callbacks put nodes in front, visits exactly the list as it was |
| AsyncContexts.Async.Follow | qemu-0.12.3/async.c:143 | the node in hand is still linked when its next pointer is read, and that points to what is behind it in the list the poll began with |
| AsyncContexts.Async.Pop | qemu-0.12.3/async.c:85-105 | the polling loop, the switch to the parent and the new bottom half |
| AsyncContexts.Async.New | qemu-0.12.3/async.c:127-136 | puts a fresh, unscheduled bottom half in front of the current context's list |
| AsyncContexts.Async.Push | qemu-0.12.3/async.c:65-71 | puts an empty context with the next id on the stack |
| AsyncContexts.Async.Schedule | qemu-0.12.3/async.c:176-184 | schedules as non-idle what is not scheduled yet |
| AsyncContexts.Async.ScheduleIdle | qemu-0.12.3/async.c:168-174 | schedules as idle what is not scheduled yet |
| AsyncContexts.Async.Cancel | qemu-0.12.3/async.c:186-189 | unschedules |
| AsyncContexts.Async.Delete | qemu-0.12.3/async.c:191-195 | unschedules and marks deleted |
| AsyncContexts.Unlink | qemu-0.12.3/async.c:153-163 | the removal loop drops and frees exactly the deleted ones and keeps the order |
| AioHandlers.FindIs | qemu-0.12.3/aio.c:42-53 | the lookup finds the live node of a descriptor whenever there is one |
| AioHandlers.SetHandlerLive | qemu-0.12.3/aio.c:55-99 | a registration changes which node is live for its own descriptor and for no other |
| AioHandlers.SetHandlerRegisters | qemu-0.12.3/aio.c:55-99 | a registration with a read or a write handler is found from then on, entry and all, in the old node if there was one; one with neither makes the lookup find nothing, and the node is marked during a walk and freed otherwise; no other descriptor or node changes |
| AioHandlers.SetHandlerIsWf | qemu-0.12.3/aio.c:55-99 | a registration, inside or outside a walk, keeps at most one live node per descriptor and the live nodes equal to the registrations in force |
| AioWalks.RegistrationsInForce | qemu-0.12.3/aio.c:42-226 | in every run of registrations and walks: the lookup finds exactly what was last registered, and every call was of what was registered at that moment |
| AioWalks.DispatchRuns | qemu-0.12.3/aio.c:195-226 | the dispatch walk goes through the list it began with, in order, calls each handler at most once and only for a descriptor that is ready for it, frees what was marked deleted before, and keeps the old nodes in order |
| AioWalks.DispatchServes | qemu-0.12.3/aio.c:195-226 | a handler registered for a ready descriptor is called, unless a registration named the descriptor meanwhile |
| AioWalks.DispatchServesLast | qemu-0.12.3/aio.c:195-226 | in terms of the last registration of the descriptor: its read and its write handler are called if the descriptor is ready for them |
| AioWalks.WalkFrees | qemu-0.12.3/aio.c:217-224 | only the node being left is ever freed, and every node already marked is |
| AioWalks.VisitRuns | qemu-0.12.3/aio.c:202-224 | after a visit the walk stands at the old successor, though the node may be gone and others may be in front |
| AioWalks.ProcessQueueRuns | qemu-0.12.3/aio.c:121-139 | the queue walk frees nothing and keeps every registration |
| AioQueues.ProcessQueueCalls | qemu-0.12.3/aio.c:121-139 | queue handlers are called in list order, each at most once; that of a node marked deleted, or whose descriptor no registration names meanwhile, if and only if it has one; the result tells whether one returned nonzero |
| AioQueues.DeletedCallsExact | qemu-0.12.3/aio.c:121-139 | this walk calls nodes marked deleted: with handlers that delete nothing, if and only if a marked node has a queue handler; whatever handlers do it calls none, if and only if no marked node has one and only marked nodes follow a node that has |
| AioQueues.UnsafeIsReachable | qemu-0.12.3/aio.c:121-139 | two registrations with queue handlers suffice for a list that is not safe |
| AioList.HandlerList.SetFdHandler | qemu-0.12.3/aio.c:55-99 | the same in place, with its two ways of deleting |
| AioList.HandlerList.DispatchWalk | qemu-0.12.3/aio.c:195-226 | the loop over next pointers, which may free the node it leaves, refines the dispatch walk and touches no freed node |
| AioList.HandlerList.Leave | qemu-0.12.3/aio.c:217-224 | the successor is read while the node is linked in, which reading it needs, and only then is the node freed; the successor is still linked and not freed afterwards |
| AioList.HandlerList.ProcessQueues | qemu-0.12.3/aio.c:121-139 | the loop and its result refine the queue walk |
| CrisLookup.ConstraintByClass | qemu-0.12.3/cris-dis.c:1601-1752 | for every argument template the constraint score depends on the prefix only through its class, given good register sizes |
| CrisLookup.ClassSufficesExact | qemu-0.12.3/cris-dis.c:1601-1752 | that is so if and only if every special register an instruction can name has size 1, 2 or 4, or one that no signed byte offset can match (above 128 and up to 2^32-128, or 2^32 and more) |
| CrisLookup.PowerSizesAreGood | qemu-0.12.3/cris-dis.c:57-119 | the sizes 1, 2 and 4 of the register table are good |
| CrisLookup.SearchFindsBest | qemu-0.12.3/cris-dis.c:1490-1580 | the search finds the first best match of the table, or of the part up to the first full match |
| CrisLookup.ConstraintMeans | qemu-0.12.3/cris-dis.c:1601-1752 | what a score means: a template matches if and only if each of its letters admits the instruction and one of them takes the prefix, if there is one; then it scores 5 for the letter D and 3 for each P behind the last D |
| CrisLookup.LevelMeans | qemu-0.12.3/cris-dis.c:1490-1575 | how well an entry matches: it must apply to the family, have its bits set and its losing bits clear and its template match; then it weighs two for each bit it fixes plus that score |
| CrisBits.BitMatchMeans | qemu-0.12.3/cris-dis.c:1559-1560 | the test of the bits, one by one |
| CrisLookup.FamilyExact | qemu-0.12.3/cris-dis.c:1499-1548 | an entry is looked at if and only if its versions reach into the family of the disassembler |
| CrisLookup.SpecRegIsFirst | qemu-0.12.3/cris-dis.c:1332-1362 | the register information is that of the first usable entry with the number |
| CrisLookup.Fields | qemu-0.12.3/cris-dis.c:1714 | the two register fields of an instruction: its highest four bits and its lowest four |
| CrisLookup.Offsets | qemu-0.12.3/cris-dis.c:1686-1689 | the offset of a prefix is its lowest byte as a signed number |
| CrisLookup.LookupAnswers | qemu-0.12.3/cris-dis.c:1379-1595 | what a lookup returns: an entry that describes the instruction under the prefix, such that none before it weighs as much and none behind it more, unless it is a full match; nothing only if none describes it |
| CrisLookup.Disassembler.GetOpcodeEntry | qemu-0.12.3/cris-dis.c:1379-1595 | after any sequence of calls the memoised, mutually recursive lookup gives what the plain search gives, which is the best entry in the sense of LookupAnswers, and it terminates |
| CrisLookup.Disassembler.SearchTable | qemu-0.12.3/cris-dis.c:1490-1580 | the loop over the opcode table gives the specified search result |
| CrisLookup.Disassembler.CheckConstraint | qemu-0.12.3/cris-dis.c:1601-1752 | the loop over the template computes the score |

## Left out
- Migration: the integer width of the counters, and the sections of other devices between the block sections; a driver that refuses reads for ever keeps the last stage in its loop for ever, so refusals are a finite list.
- Migration: the calls of block_save_live with a negative stage, which only clean up, and without block migration enabled, which only end the section.
- Migration: asynchronous guest writes whose data reaches the disk after the bit was set; the code gives no guarantee for them.
- MigrationBulk.PercentBounds: needs at least one device, since the source divides by the total number of sectors.
- MigrationEngine: set_dirty_tracking(0) in blk_mig_cleanup comes after the device list has been emptied and so does nothing; what is dirty when a migration starts is therefore arbitrary.
- MigrationWire.BlockLoad: writes to the destination are taken to succeed if they fit the device, as the source ignores their status; names with a zero byte are not modelled.
- DirtyBitmap: memory beyond the allocation.  The class has whole words; the source allocates bytes, which make whole words only under the condition of `DirtyBitmap.WordsAllocatedExact`.
- DirtyBitmap: words of 64 bits, for which the mask `1 << bit` is sign-extended at bit 31 (`DirtyBitmapWide.WideWordExact`) and has no defined value from bit 32 on.
- AES: the FULL_UNROLL branches and the literal table entries, which mean the same as the loops and formulas.
- AesCbc.CbcEncryptBuffer: input and output are one buffer or disjoint ones, not overlapping ones.
- AesCbc.CbcDecryptBuffer: input and output are one buffer or disjoint ones; after a partial block the ivec is the decrypted block (`AesCbc.IvAfterPartial`).
- Multiwrite: the driver's own bdrv_merge_requests, filling of gaps, and the memory of merged vectors; qsort stands for any permutation that is in order for the comparator.
- Multiwrite: what qsort does with requests that the comparator does not compare right (`Multiwrite.ComparesRightExact`).
- Multiwrite.MergingPreservesMeaning: overlapping requests.  `Multiwrite.MergedPairExact` says what merging two of them loses, and `Multiwrite.MergedSizesExact` when vectors no longer have the size of their request.
- MultiwriteCompletion: a completion that arrives while requests are still being submitted, and the error field of the first request, which is set to EIO when the call fails.
- ByteIo: growable devices, and the 32-bit width of counts.
- Commit: bdrv_write's marking of the backing image as dirty, and the limit of 65536 on an allocation query (any run length is allowed).
- BufferedFile: timers and put_ready callbacks, which are later operations of the run; waiting for a backend that never thaws.
- BottomHalves: a poll from within a poll of the same context, use of freed bottom halves, and qemu_bh_update_timeout; leaving the outermost context aborts and is a precondition. The bottom halves are a map from identity to fields, and each linked list is a sequence.
- BottomHalves: the results are about runs that end; a polling loop that never ends, because callbacks keep scheduling, is not covered.
- AioHandlers: select itself and the loop that fills the descriptor sets (the dispatch walk is proved for every answer), qemu_set_fd_handler2, and walks started from inside a walk.
- CrisLookup: the opcode and register tables themselves, whose entries must not carry the versions at which the source aborts; one distype for all calls.
- bdrv_open2, format probing, snapshots, monitor commands, operand printing and the other disassemblers: plumbing and text formatting.
