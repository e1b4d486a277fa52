# Verification of the PS3 Moonlight client

A Dafny 4.11 model of the parts of the client that carry real state, loops or arithmetic, with
proofs of what they are for. `dafny verify dfyconfig.toml` checks all of it.

The model covers six components.

1. The SPU crypto kernel, `src/spu/source/spu_crypto.c`. `Gf256` is multiplication in GF(2^8)
   against its definition by polynomials; `AesTables`, `FipsSbox`, `Blocks`, `KeySchedule`, `Cbc` and
   `Aes` are AES-128 and CBC after FIPS 197 and NIST SP 800-38A; `BlockLoops` and `AesKernel` are the
   kernel's in-place loops over its buffers, proved to compute them. `Compression` is the unrolled SHA-256
   compression with rotating register arguments against the form of FIPS 180-4; `HashFold`,
   `Sha256Words` and `Sha256` are the streaming context, and `Sha256Constants` derives the constants from
   the primes. `AesExamples` and `Sha256Example` are worked examples of the standards, proved value by
   value, so that the definitions the theorems share are those of the standards. `CryptoBridge` runs both
   commands end to end through the bounce buffers of `src/spu_crypto_bridge.c`.
2. The pool of decoded frames, `vdec_poll` and `ps3video_draw` in `src/video.c`. `FramePool` is the
   pool as a list with its history, under every interleaving of the picture write, the publishing
   section and the draw section. `FrameRing` is the program's ring of indices, proved to make exactly
   those steps. `Circular` is the ring arithmetic shared with the audio ring.
3. The submission of access units, also in `src/video.c`. `NalUnits` holds both byte formats and
   their parsers, `NalConvert` the conversion in place with its 32-bit sums, `AuRing` the ownership of
   the four bitstream buffers under every interleaving with the decoder's callbacks, `AuSubmit` the
   submission as a whole.
4. The request protocol between the PPU and an SPU, `Mailbox`: both programs as atomic memory
   accesses and DMA transfers that interleave freely, with the codec as a parameter.
5. The audio ring, `AudioRing`.
6. The app list scanner (`Strings`, `AppList`), the settings file (`Settings`) and the keyboard
   differencing (`KeyEvents`).

Results that the source does not promise, or promises wrongly:

- Entry 0xa7 of `sbox` (src/spu/source/spu_crypto.c:272) is 0x5e where FIPS 197 has 0x5c. The forward
  S-box of the model is the inverse of `rsbox`, which is proved to be the S-box of the standard. Block
  decryption uses only `rsbox`, so it is right for any round keys. The key schedule uses `sbox`: it
  agrees with the standard's exactly for the keys whose standard schedule never sends the byte 0xa7
  through the table (`Aes.StandardKeysExactly`). A key with 0xa7 among its last four bytes is always
  expanded wrongly (`Aes.WrongSchedule`).
- Length-prefixed input whose first length is 1 or 256 to 511 is taken for a byte stream with start
  codes and submitted unchanged (`NalConvert.UnitsConverted` gives the exact condition,
  `NalConvert.ShortUnitKept` such units).
- Bytes whose first length is bad are kept behind one start code exactly if that length plus 4 is below
  2^32 (`NalConvert.NoUnitKept`); a larger one wraps the sum and is converted (`NalConvert.WrapMisleads`).
- Valid lengths followed by a bad one are dropped if the sum at the bad one does not wrap
  (`NalConvert.PartlyValidDropped`). If it wraps they can be submitted (`NalConvert.PartlyValidSubmitted`).
- After a mailbox timeout the next caller can be given the late reply to the previous request, with any
  codec (`Mailbox.StaleAfterTimeout`). The condition is the status field, which the caller can read before
  staging: if it is not BUSY the next reply is right in every run; if it is BUSY there is a run that returns
  the old reply, so unless that is by chance the right one the next reply is right exactly if the field is
  not BUSY (`Mailbox.RightExactly`). Equal replies alone are not enough, because a worker that has not
  fetched its packet yet gives a third (`Mailbox.SameReplyIsNotEnough`). Callers that wait for the field are
  always given the right replies (`Mailbox.RepliesAfterTimeouts`).
- The crypto bridge uses the same protocol. Its calls promise the digest or the plaintext only if the worker
  is not late with a call given up before; a caller that has always waited for the status field to be not
  BUSY has that promise (`CryptoBridge.Bridge.Sha256`, `CryptoBridge.Bridge.Aes128CbcDecrypt`). Before the
  self-test of the initialization the zeroed field reads BUSY although nothing is under way, because BUSY is
  0 there (src/spu/include/spu_crypto.h:13).
- An error callback, or an AUDONE for nothing, that comes while the decoder is being asked to take a unit
  leaves the pending count one short. Ownership of the buffers holds all the time if and only if neither
  happens (`AuRing.AlwaysOwned`); otherwise a buffer that the decoder holds can be filled again
  (`AuRing.Overwritten`).
- The audio ring holds 32767 floats, an odd number. A block read while it is exactly full starts with
  a right channel; every other block starts with a left one (`AudioRing.BlockStartsPair`). Three frames of
  the greatest length fill it (`AudioRing.RightFirst`). The comment at src/audio.c:22-26 counts 16384
  stereo samples; the code is followed.
- A host name with white space does not survive saving and loading (`Settings.HostRestored`, with such a
  name in `Settings.HostLost`).
- All keyboards send to one host. A key held on two of them is let go for both with the first release
  (`KeyEvents.HeldTwice`). Over any run the host holds what is held on any keyboard if and only if no poll
  releases a key still held elsewhere (`KeyEvents.SharedRun`).
- The comments at src/video.c:93-96 and src/video.c:714-715 speak of two buffers that the callback
  swaps. The code has four, and moves on to the next one at the end of a submission; it is followed.

## Model

| member | source | states |
|---|---|---|
| Gf256.TimesIsProduct | src/spu/source/spu_crypto.c:327-336 | shift-and-add multiplication is the remainder of the polynomial product modulo x^8+x^4+x^3+x+1, for all bytes |
| Gf256.ProductIsUnique | src/spu/source/spu_crypto.c:327-336 | there is only one such remainder |
| Gf256.Gmul | src/spu/source/spu_crypto.c:327-336 | the loop, with its early exit on zero, returns that product |
| AesTables.SboxInverse | src/spu/source/spu_crypto.c:261-297 | `rsbox` undoes the corrected forward table on every byte |
| AesTables.SboxIsTheInverse | src/spu/source/spu_crypto.c:261-297 | and the corrected table undoes `rsbox`, so it is the one inverse |
| AesTables.KeySboxDiffers | src/spu/source/spu_crypto.c:261-278 | the table of the source, entry by entry, equals the corrected one except at 0xa7 |
| FipsSbox.SboxIsFips | src/spu/source/spu_crypto.c:261-297 | every byte has one inverse in GF(2^8), and the corrected table is the affine transformation of it, as FIPS 197 section 5.1.1 defines the S-box |
| FipsSbox.OneInverse | src/spu/source/spu_crypto.c:327-336 | under the kernel's multiplication a byte has at most one inverse |
| Aes.ColumnInverse | src/spu/source/spu_crypto.c:355-367 | the constants 14, 11, 13, 9 invert the MixColumns constants on every column |
| Blocks.RoundsUndone | src/spu/source/spu_crypto.c:344-368 | each round of the inverse cipher undoes the matching round of the cipher, by induction over the rounds |
| Blocks.InvCipherUndoes | src/spu/source/spu_crypto.c:338-371 | for any byte operations that undo each other the inverse cipher undoes the cipher of FIPS 197 section 5.1 |
| Aes.DecryptUndoesEncrypt | src/spu/source/spu_crypto.c:338-371 | for all round keys and blocks, decryption undoes the AES-128 cipher |
| AesKernel.Engine.InvMixColumnsInto | src/spu/source/spu_crypto.c:355-367 | the sixteen products a round are InvMixColumns |
| AesKernel.Engine.DecryptBlock | src/spu/source/spu_crypto.c:338-371 | the in-place loops write the decrypted block where it belongs and nothing else |
| AesKernel.RconTable | src/spu/source/spu_crypto.c:299-301 | the table holds the powers of x in GF(2^8) |
| BlockLoops.ExpandKey | src/spu/source/spu_crypto.c:305-325 | the byte loops produce the key expansion over the given table |
| AesKernel.Engine.KeyExpansion | src/spu/source/spu_crypto.c:305-325 | the round keys are the expansion over the table of the source |
| Aes.KernelKeyBytes | src/spu/source/spu_crypto.c:305-325 | the round keys in their own bytes: the key, then each byte from the one sixteen before and either the rotated last word through the table of the source, with the power of x on its first byte, or the byte four before |
| KeySchedule.KeyFollows | src/spu/source/spu_crypto.c:311-325 | each round key follows from the one before in that way, for any table |
| AesExamples.ExpandedExample | src/spu/source/spu_crypto.c:305-325 | the example key of FIPS 197 appendix A.1 has the round keys listed there |
| KeySchedule.SameExpansionExactly | src/spu/source/spu_crypto.c:305-325 | two tables that differ in one entry expand a key alike exactly if that entry is never used for it |
| Aes.StandardKeysExactly | src/spu/source/spu_crypto.c:261-325 | the kernel's key schedule is the standard's for exactly the keys whose standard schedule never looks up 0xa7, and the same read off the kernel's own schedule |
| Aes.WrongSchedule | src/spu/source/spu_crypto.c:272 | every key with 0xa7 among its last four bytes is expanded wrongly |
| Aes.DecryptsStandard | src/spu/source/spu_crypto.c:416-462 | for the keys whose standard schedule avoids 0xa7, the kernel's CBC decryption gives back what was encrypted with the standard's round keys |
| Cbc.CbcSplits | src/spu/source/spu_crypto.c:442-452 | decryption of the later blocks depends on the earlier ones only through the last ciphertext block |
| Cbc.CbcRoundTrip | src/spu/source/spu_crypto.c:427-460 | CBC decryption undoes CBC encryption for any block cipher, initialization vector and number of blocks |
| Aes.CbcRoundTripAes | src/spu/source/spu_crypto.c:427-460 | the same for AES-128 under any round keys |
| AesExamples.CbcExample | src/spu/source/spu_crypto.c:305-460 | the first block of SP 800-38A section F.2.1 encrypts to the listed ciphertext, and the round keys of the kernel decrypt it |
| AesKernel.Engine.ChainBlock | src/spu/source/spu_crypto.c:442-452 | one block: deciphered, added to the previous ciphertext block, which is then replaced |
| AesKernel.Engine.DecryptChunk | src/spu/source/spu_crypto.c:441-453 | a chunk continues the decryption of the whole from where the last one ended |
| AesKernel.Engine.CbcCommand | src/spu/source/spu_crypto.c:416-462 | the command writes the SP 800-38A section 6.2 decryption of the whole blocks of an input of any length, whatever the chunk boundaries, and touches nothing past the last quadword |
| Sha256Words.KernelForms | src/spu/source/spu_crypto.c:51-52 | the macros F1 and F0 are Ch and Maj of FIPS 180-4 on all words |
| Sha256Words.WordValue | src/spu/source/spu_crypto.c:27-33 | a word is its four bytes in base 256, the most significant first |
| Compression.P | src/spu/source/spu_crypto.c:60-65 | one line with rotated arguments is one round of the shifting-variable form |
| Compression.PR | src/spu/source/spu_crypto.c:54-58 | a word filled in on the way is that word of the message schedule |
| Compression.Process | src/spu/source/spu_crypto.c:73-176 | the 64 unrolled lines leave in the state the compression of FIPS 180-4 section 6.2.2, for every state and block |
| Compression.SameCompression | src/spu/source/spu_crypto.c:43-65 | word operations that agree give the same compression |
| Sha256Words.KernelCompression | src/spu/source/spu_crypto.c:73-176 | the kernel's operations give the compression function of the standard |
| Sha256Constants.ConstantsFrom0 | src/spu/source/spu_crypto.c:103-110 | round constants 0 to 7 are the first 32 bits of the fractional parts of the cube roots of the primes |
| Sha256Constants.ConstantsFrom8 | src/spu/source/spu_crypto.c:111-118 | round constants 8 to 15 are the first 32 bits of the fractional parts of the cube roots of the primes |
| Sha256Constants.ConstantsFrom16 | src/spu/source/spu_crypto.c:119-126 | round constants 16 to 23 are the first 32 bits of the fractional parts of the cube roots of the primes |
| Sha256Constants.ConstantsFrom24 | src/spu/source/spu_crypto.c:127-134 | round constants 24 to 31 are the first 32 bits of the fractional parts of the cube roots of the primes |
| Sha256Constants.ConstantsFrom32 | src/spu/source/spu_crypto.c:135-142 | round constants 32 to 39 are the first 32 bits of the fractional parts of the cube roots of the primes |
| Sha256Constants.ConstantsFrom40 | src/spu/source/spu_crypto.c:143-150 | round constants 40 to 47 are the first 32 bits of the fractional parts of the cube roots of the primes |
| Sha256Constants.ConstantsFrom48 | src/spu/source/spu_crypto.c:151-158 | round constants 48 to 55 are the first 32 bits of the fractional parts of the cube roots of the primes |
| Sha256Constants.ConstantsFrom56 | src/spu/source/spu_crypto.c:159-166 | round constants 56 to 63 are the first 32 bits of the fractional parts of the cube roots of the primes |
| Sha256Constants.InitialHash | src/spu/source/spu_crypto.c:178-189 | the initial hash value is that of the square roots of the first eight primes |
| Sha256Example.DigestOfAbc | src/spu/source/spu_crypto.c:73-255 | the digest of "abc" is the published one, worked out round by round |
| Sha256Words.DigestChain | src/spu/source/spu_crypto.c:191-255 | a digest is the last of a chain of states, one block of the padded message after the other |
| HashFold.AbsorbedBlock | src/spu/source/spu_crypto.c:203-209 | completing the buffered block keeps: state is the fold over all full blocks, the rest waits |
| HashFold.AbsorbedTail | src/spu/source/spu_crypto.c:217-219 | so does buffering bytes that complete no block |
| HashFold.CountedOn | src/spu/source/spu_crypto.c:199-201 | the two words, each wrapping at 2^32, count bytes modulo 2^64 |
| HashFold.LengthWords | src/spu/source/spu_crypto.c:235-236 | the shifted and or-ed words are the two halves of the length in bits |
| HashFold.KernelPadding | src/spu/source/spu_crypto.c:241-242 | the padding count is that of FIPS 180-4 section 5.1.1 |
| HashFold.PaddedToBlocks | src/spu/source/spu_crypto.c:230-245 | a padded message is a whole number of blocks |
| HashFold.PaddingIs | src/spu/source/spu_crypto.c:230-245 | the padding is 0x80, as few zeros as make whole blocks, and the length in bits in eight bytes |
| HashFold.DigitsOf | src/spu/source/spu_crypto.c:35-41 | a word is written as its digits in base 256, the most significant first |
| Sha256.Context.constructor | src/spu/source/spu_crypto.c:178-189 | the initial context has absorbed nothing |
| Sha256.Context.Update | src/spu/source/spu_crypto.c:191-221 | an update absorbs exactly its input, whatever is buffered |
| Sha256.Context.Finish | src/spu/source/spu_crypto.c:230-255 | after less than 2^61 bytes the output is the SHA-256 digest of everything absorbed |
| Sha256.HashPieces | src/spu/source/spu_crypto.c:178-255 | however a message is cut into updates the digest is that of the whole |
| CryptoBridge.HashCommand | src/spu/source/spu_crypto.c:393-415 | the chunk loop hashes the first data_len bytes of its input |
| CryptoBridge.Bridge.Sha256 | src/spu_crypto_bridge.c:253-310 | the error code of every refused call and of a timeout, or, if no call given up before is still at work, the digest of the caller's bytes; what the status field reads afterwards |
| CryptoBridge.Bridge.Aes128CbcDecrypt | src/spu_crypto_bridge.c:320-380 | the error code of every refused call and of a timeout, or, if no call given up before is still at work, the CBC decryption of the caller's bytes, which for keys that avoid 0xa7 undoes the standard's encryption; what the status field reads afterwards |
| CryptoBridge.Bridge.constructor | src/spu_crypto_bridge.c:90-202 | after the self-test the status field tells whether the worker is late |
| FramePool.SomeFree | src/video.c:304-318 | with four queued and one on screen some buffer is free |
| FramePool.FreeWithinFive | src/video.c:304-318 | right after a push, also one that overflowed, the fifth probe at the latest finds it |
| FramePool.StepKeeps | src/video.c:253-325 | every step keeps: write buffer, screen and queue entries distinct, contents as published, every picture counted |
| FramePool.PublishedNext | src/video.c:288-302 | a publication appends the buffer just written, and drops the oldest entry exactly if four are queued |
| FramePool.NextWrite | src/video.c:304-318 | the next write buffer is the first after the last one, in cyclic order, that is neither queued nor on screen |
| FramePool.PublishesWritten | src/video.c:254-302 | the picture published is the one written, however many draws come in between |
| FramePool.DrawNothing | src/video.c:846-864 | a draw with nothing queued changes nothing |
| FramePool.AlwaysSafe | src/video.c:241-327 | so every interleaving of writes, publications and draws is safe; published = shown + dropped + queued, shown strictly increasing |
| FramePool.HeldThroughout | src/video.c:253-325 | from publication until it is dropped or replaced a picture stays in its buffer with its contents, over any run |
| FramePool.DrawShowsNewest | src/video.c:838-864 | a draw with pictures queued shows the newest published one |
| FramePool.WriteUnseen | src/video.c:254-255 | the picture write outside the lock changes no buffer on screen or in the queue |
| FrameRing.Ring.IsFree | src/video.c:307-315 | the scan of the ready entries decides whether a buffer is in use |
| FrameRing.Ring.FindFree | src/video.c:304-318 | the search returns the first free buffer after one to five probes |
| FrameRing.Ring.Push | src/video.c:290-302 | the ring indices make the push, dropping the oldest entry when four are queued |
| FrameRing.Ring.Publish | src/video.c:288-325 | the locked section is the Publish step |
| FrameRing.Ring.Drain | src/video.c:846-852 | the drain leaves the newest entry |
| FrameRing.Ring.Draw | src/video.c:838-864 | the locked section is the Draw step |
| FrameRing.Ring.Poll | src/video.c:253-326 | a poll publishes every picture the decoder hands out, in order and as handed out, wherever draws come between |
| Circular.SlotsPushed | src/video.c:290-294 | storing at the head lengthens the queue by one |
| Circular.SlotsDropped | src/video.c:846-856 | advancing the tail drops the oldest |
| NalUnits.ParsePrefixed | src/video.c:662-669 | parsing undoes length-prefixing, for any list of units and any bytes behind that are no unit |
| NalUnits.PrefixedParse | src/video.c:662-669 | and prefixing undoes parsing |
| NalUnits.SplitStream | src/video.c:665-669 | units that obey emulation prevention come back from their byte stream (H.264 sections 7.4.1 and B.1) |
| NalUnits.SameLength | src/video.c:677-679 | both formats have the same length |
| NalConvert.Walk | src/video.c:680-697 | the walk stays in the buffer and ends on all input, by (bytes 255, bytes to go), although the sum can wrap |
| NalConvert.MarkedCount | src/video.c:688-696 | a step that does not move on has overwritten a byte 255 |
| NalConvert.WalkIs | src/video.c:684-697 | one step of the walk, its three ends and its start code, in plain bytes and sums |
| NalConvert.ConvertInPlace | src/video.c:680-697 | the loop leaves the bytes, position and count of the walk |
| NalConvert.WalkIsParse | src/video.c:680-697 | until a sum wraps the walk converts exactly the units the parser finds |
| NalConvert.PrepareInPlace | src/video.c:670-712 | the whole preparation in place |
| NalConvert.PreparedByParse | src/video.c:671-711 | if no sum wraps: all units converted, or one start code in front, or nothing submitted, by what the parser finds; for input that is all units or holds none, exactly if no sum wraps |
| NalConvert.PartlyValidDropped | src/video.c:707-711 | valid lengths followed by a bad one whose sum does not wrap are never submitted |
| NalConvert.PartlyValidSubmitted | src/video.c:688-697 | an input whose second length wraps the sum and which is submitted although it is only partly valid |
| NalConvert.NoUnitKept | src/video.c:699-706 | bytes with a bad first length are kept behind one start code if and only if that length plus 4 is below 2^32 |
| NalConvert.NoRoomKept | src/video.c:699-706 | without room for the start code such bytes are submitted as they are |
| NalConvert.StartedKept | src/video.c:671-676 | bytes that already start with a start code, and up to four bytes of any kind, are submitted as they are |
| NalConvert.UnitsConverted | src/video.c:671-711 | length-prefixed units become the byte stream if and only if the first length is neither 1 nor 256 to 511, or all lengths are 1; the length is unchanged |
| NalConvert.ShortUnitKept | src/video.c:671-676 | a unit of one byte before a longer one: both are submitted length-prefixed as they came |
| NalConvert.DecoderSeesUnits | src/video.c:671-711 | the decoder splits the submitted bytes into the units that arrived |
| NalConvert.WrapMisleads | src/video.c:688 | a wrapping length makes two units of five bytes that hold none |
| AuRing.StepKeeps | src/video.c:220-238 | a step of a submission or a callback keeps the ownership invariant if and only if it is no error, and no AUDONE for nothing, while the decoder is being asked |
| AuRing.AlwaysOwned | src/video.c:618-761 | over any interleaving, if and only if no such callback comes: the pending count is the number of units the decoder holds, plus one while one is offered, at most 4, in the slots just before the front |
| AuRing.Overwritten | src/video.c:232-236 | a run in which such an error makes a submission fill a buffer that the decoder holds |
| AuRing.FrontNotHeld | src/video.c:625-639 | the buffer being filled, grown or offered is not held by the decoder |
| AuRing.HeldIntact | src/video.c:714-761 | a unit not given back is still in its slot, unchanged, after any run without such a callback |
| AuRing.HeldAt | src/video.c:714-761 | the units held are the last ones accepted, in order, each in the slot of its turn |
| AuRing.OnlyGrows | src/video.c:224-226 | over any run the list of accepted units and the count of units given back only grow |
| AuRing.PendingAreHeld | src/video.c:224-226 | between submissions the pending count is exactly the number of units held |
| AuSubmit.Concatenate | src/video.c:651-660 | the fragments are joined, or refused if one is missing or does not fit |
| AuSubmit.RoomEnough | src/video.c:701 | the growth by 64 bytes makes the headroom test for the start code always true |
| AuSubmit.Assemble | src/video.c:651-712 | the front buffer holds the packet to submit exactly if the unit is submittable |
| AuSubmit.Submitter.AuDone | src/video.c:224-226 | the callback is the AuDone step |
| AuSubmit.Submitter.Error | src/video.c:232-236 | the error callback is the Error step, at any point of a submission |
| AuSubmit.Submitter.Callbacks | src/video.c:220-238 | any number of callbacks in a row are their steps |
| AuSubmit.Submitter.Accept | src/video.c:748-763 | the unit is the decoder's and the front moves on, with callbacks in between |
| AuSubmit.Submitter.Offer | src/video.c:725-763 | the offer, its retry and its failure are the steps of the ring, with callbacks in between |
| AuSubmit.Submitter.Submit | src/video.c:604-764 | which packet is sent, with its limit of 4194304 bytes and of four units, which code returned, with the one retry of a busy decoder, and the exact steps on the buffer ring, in every case and with any callbacks in the course of the submission; ownership is kept unless one is untimely |
| AuSubmit.UnitsSent | src/video.c:651-712 | fragments that join to length-prefixed units are sent as a stream that splits into those units |
| AuSubmit.StreamSent | src/video.c:651-712 | fragments that join to a byte stream are sent as they are, and the decoder sees its units |
| AuSubmit.JoinedInOrder | src/video.c:651-660 | the fragments are joined in their order |
| AuSubmit.QuietSubmission | src/video.c:618-764 | without callbacks in its course: the state of the buffer ring after a submission abandoned, refused or accepted |
| Mailbox.WorkerServes | src/spu/source/spu_opus.c:155-192 | each transfer of the worker brings the posted request on, with bounce buffers and DMA rounding |
| Mailbox.CallerKeeps | src/spu_opus_bridge.c:190-231 | each access of the caller keeps the protocol invariant |
| Mailbox.StatusTells | src/spu_opus_bridge.c:200-209 | with no request open the status field is BUSY exactly if the worker is awake |
| Mailbox.RunKeeps | src/spu_opus_bridge.c:190-231 | the invariant holds in every interleaving, also with timeouts, that stages no request while the status is BUSY |
| Mailbox.RepliesAreIdeal | src/spu_opus_bridge.c:184-232 | the n-th reply is that of one codec serving the requests in order, each once; with none open no signal is pending and the worker writes nothing |
| Mailbox.RepliesSpelledOut | src/spu_opus_bridge.c:184-232 | the same without the definitions of the model: each reply is what the codec makes of the packet itself, cut only beyond 1024 bytes, up to the room there is |
| Mailbox.RepliesAfterTimeoutsSpelledOut | src/spu_opus_bridge.c:184-232 | and so with timeouts, if no request is staged while the status is BUSY |
| Mailbox.RepliesAfterTimeouts | src/spu_opus_bridge.c:190-231 | with timeouts, if no request is staged while the status is BUSY, every reply that is no timeout is still that of one codec that has served all requests in order |
| Mailbox.BusyGivesStale | src/spu_opus_bridge.c:199-231 | from every state with a BUSY status and for every codec and next request there is a run without a timeout that returns the reply to the last request |
| Mailbox.RightExactly | src/spu_opus_bridge.c:199-231 | the next request is answered rightly in every run without a timeout if the status is not BUSY, and only then unless the two replies agree |
| Mailbox.SameReplyIsNotEnough | src/spu/source/spu_opus.c:155-192 | a state in which the two replies agree and the next request is still answered wrongly |
| Mailbox.Progress | src/spu_opus_bridge.c:208-216 | while a request is open one side can bring it on and no step sets it back |
| Mailbox.AnsweredWithin | src/spu_opus_bridge.c:190-231 | every schedule without a timeout that gives both sides a step per round answers the open request, rightly, within at most 13 rounds |
| Mailbox.StaleAfterTimeout | src/spu_opus_bridge.c:211-215 | for every codec and any two requests, a run from the start in which the first is given up and the second is answered with the reply to the first |
| AudioRing.StepKeepsOrder | src/audio.c:59-113 | the queue stays the end of the decoded stream and what was played lies before it in order |
| AudioRing.PlayedInOrder | src/audio.c:59-113 | over any run the floats played are a subsequence of those decoded |
| AudioRing.ReadPlaysOldest | src/audio.c:87-113 | a successful read plays the oldest floats and leaves the rest of the stream, or its last 1024 floats if more than 4096 remain |
| AudioRing.Underrun | src/audio.c:91-94 | a read of more floats than are queued changes nothing |
| AudioRing.WriteKeepsLast | src/audio.c:59-79 | a write leaves the last 32767 floats of the stream among those queued and written |
| AudioRing.AlwaysAligned | src/audio.c:62-71 | with even writes and reads of 512 the queue has even length unless it is exactly full |
| AudioRing.ReadAligns | src/audio.c:106-109 | every successful read leaves the queue at a stereo pair |
| AudioRing.BlockStartsPair | src/audio.c:149 | a block starts with a left channel exactly when the ring was not full |
| AudioRing.RightFirst | src/audio.c:376 | three frames of 5760 samples fill the ring, and the next block starts with a right channel |
| AudioRing.Ring.EvenIndices | src/audio.c:62-78 | the write index is even, and the read index unless the ring is full |
| AudioRing.Ring.Write | src/audio.c:59-79 | after a write of any length the ring holds the last 32767 floats of contents and data |
| AudioRing.Ring.Read | src/audio.c:87-113 | the oldest floats or nothing, then the last 1024 if more than 4096 remain |
| AppList.ParseApps | src/handshake.c:1156-1208 | the loop returns the apps of the blocks in order, or the fallback |
| AppList.Scan | src/handshake.c:1156-1190 | the position moves on with every block of any document; at most 32 apps |
| AppList.BetweenPieces | src/handshake.c:669-688 | the text of the first element of a tag is extracted, whatever comes before |
| AppList.FirstBlock | src/handshake.c:1158-1164 | the first block is found behind any text without one, up to its closing tag |
| AppList.AppsRoundTrip | src/handshake.c:1139-1210 | a document of blocks with a title free of `<` and an id, each in either spelling, in any order and among other elements and gaps, gives back the first 32 apps, ids equal and names cut to 63 |
| AppList.LowerRoundTrip | src/handshake.c:1158-1173 | so does a document whose blocks are all in lower case |
| AppList.PassedOver | src/handshake.c:1175-1189 | a block without a title or without an id is passed over |
| AppList.FallbackApp | src/handshake.c:1192-1207 | a document without blocks but with an id gives that app, with its title or the default name |
| AppList.UsualIsFine | src/handshake.c:1166-1180 | the usual block with an element in front meets the conditions |
| AppList.NoApps | src/handshake.c:1192-1210 | a document without blocks and ids gives none |
| Strings.PassesText | src/handshake.c:676-680 | a search finds a tag right behind a text that does not contain it |
| Strings.AtoiOfSigned | src/handshake.c:1178 | the number read back is the number written |
| Strings.AtoiIgnores | src/handshake.c:1178 | also behind white space and in front of anything but a digit |
| Settings.SetterStable | src/ui.c:217-232 | the setter stores only hosts it would store again unchanged, also after cutting |
| Settings.SetterIdempotent | src/ui.c:217-232 | storing the stored host changes nothing |
| Settings.QuadStored | src/ui.c:217-228 | four numbers with dots: those from 0 to 255 replace the octets, and the host is written from them |
| Settings.QuadLoose | src/ui.c:220 | white space and a plus sign in front make no difference |
| Settings.TextStored | src/ui.c:229-232 | other text is stored, cut to 63 characters; the empty text changes nothing |
| Settings.SavedRestored | src/ui.c:258-389 | whatever the settings were, loading what was saved restores every saved setting, for a host without white space |
| Settings.HostRestored | src/ui.c:275 | from settings with another host, the saved host comes back if and only if it has no white space |
| Settings.HostLost | src/ui.c:275 | a name that the setter stores as it is and that does not come back |
| Settings.LoadedWellFormed | src/ui.c:295-389 | no file brings a setting out of its range |
| Settings.ScalingDecided | src/ui.c:360-388 | in any order of lines the last scaling_mode decides, else the older keys |
| Settings.LineEntries | src/ui.c:311-324 | a written line is read back as its key and value |
| Settings.SpacedLine | src/ui.c:312-333 | blanks around key and value and a carriage return make no difference |
| Settings.SkippedLine | src/ui.c:312-324 | comments, blank lines and lines without `=` bring nothing |
| Settings.LongValue | src/ui.c:322-324 | of a value the first 63 characters count |
| Settings.LongLine | src/ui.c:310-311 | a line is read 127 characters at a time |
| Settings.EveryKey | src/ui.c:339-388 | what each key, also those of older versions, does with a number |
| Settings.HostKeys | src/ui.c:335-338 | both names of the host store it |
| Settings.SavedText | src/ui.c:274-284 | the text of the file that is written |
| Settings.Store.SetTargetIp | src/ui.c:217-232 | the setter in place |
| Settings.Store.Load | src/ui.c:295-389 | the reader line by line |
| KeyEvents.Keyboard.Poll | src/input.c:382-399 | replaying the events of one keyboard the host holds exactly the reported keys; pressed events only for new keys, released ones only for keys let go |
| KeyEvents.ReportedIs | src/input.c:382-392 | the reported keys are those from 1 to 255 that some code is |
| KeyEvents.PollElsewhere | src/input.c:382-399 | what the events of a poll do to a host that holds anything |
| KeyEvents.SharedHost | src/input.c:341-399 | with keys held on other keyboards the host stays at what is held on any of them if and only if the poll releases no key that is still held elsewhere |
| KeyEvents.SharedRun | src/input.c:341-399 | over any run of polls of several keyboards the host holds what is held on any of them after every poll if and only if no poll releases a key still held elsewhere |
| KeyEvents.HeldTwice | src/input.c:341-399 | a key held on two keyboards is let go at the host with the first release |

## Left out

- Sha256Constants.InitialHash: the list of the first 64 primes is taken as it is.
- Blocks, KeySchedule, Cbc, Compression and BlockLoops take the byte and word operations as parameters; Aes, AesKernel, Sha256Words and Sha256 supply those of the kernel.
- The S-box tables are nested choices on the bits of the index instead of arrays.
- The `update` input and the `finish` padding are values, because the source never writes through those pointers.
- CryptoBridge.Bridge.Sha256: telemetry and shutdown are left out. Null pointers, whether the poll gives up, and what a call made while the worker is late finds are parameters; how the two processors take turns is stated in Mailbox only.
- CryptoBridge.Bridge.Aes128CbcDecrypt: as for the digest.
- Mailbox.RepliesAreIdeal: one caller, and decode requests after initialization; runs with timeouts are in Mailbox.RepliesAfterTimeouts. The write-back of the command block is one atomic transfer of its 128 bytes, and the codec is any function with at most 960 samples a packet. The crypto bridge makes the same accesses in the same order and is not stated a second time.
- Mailbox.RepliesAfterTimeouts: runs that stage a request while the status is BUSY are in Mailbox.RightExactly, for that one request; the source itself does not wait.
- Mailbox.RightExactly: with a BUSY status and two replies that agree nothing is stated, as the answer then depends on the codec and on where the worker is.
- FramePool.AlwaysSafe: set-up, cleanup and reset are the initial state only; the screen shows the buffer last picked, so a display that still scans the one before is not modelled.
- AuRing.AlwaysOwned: AUDONE callbacks come for the oldest unit held, non-atomic counting is left out, and a decoder that has failed is taken to have given back its buffers.
- AuSubmit.Submitter.Submit: a fragment with a null pointer or a negative length is one `Missing` entry.
- Settings.SavedRestored: hosts with white space are in Settings.HostRestored; integers are unbounded in `sscanf` and `atoi`; fopen, the directory creation and the debounce timer are left out.
- AppList.AppsRoundTrip: ids are unbounded integers, and allocation failure is left out.
- KeyEvents.Keyboard.Poll: one keyboard, with the host shared by several in KeyEvents.SharedRun; modifier keys and mouse buttons follow the same pattern and are left out; the key code table is a parameter.
- `bin_to_hex` and `hex_to_bin_checked`, gamepads, statistics, drawing, menus, sockets, TLS and pairing are left out.
