# Dafny model of Inferno's core libraries

A model, with proofs, of the parts of Inferno whose correctness is least visible in the code: the queueing and
reader/writer locks of lib9, the image compressor and its reader in libdraw, the 386 code generator of the Dis virtual
machine, the buffered I/O of libbio, the 9P2000 message codec, the text transformations of lib9, and `alt`, the choice
between channel communications.

`dafny verify dfyconfig.toml` checks the whole project.

| modules | source | what they are |
|---|---|---|
| `QueueLock`, `Mutex`, `RWLock`, `RWLockCalls` | `lib9/lock.c` | locks as interleaved atomic steps of any number of processes; what each call gets |
| `Pixels`, `HashChains`, `CompressedImage`, `WriteImage`, `ReadImage` | `libdraw/writeimage.c`, `libdraw/unloadimage.c`, `libdraw/computil.c`, `libdraw/creadimage.c` | reading the pixels, compressor, format, decoder as a specification, reader |
| `Jit`, `JitLayout`, `JitCompile`, `JitJumps`, `JitTargets`, `CaseTable` | `libinterp/comp-386.c` | code layout in two passes; jumps and what they go to; case tables |
| `Processor`, `JitRun`, `CaseSearch`, `JitCases`, `JitMeaning`, `JitLongs`, `JitRefines` | `libinterp/comp-386.c`, `libinterp/xec.c` | the finished code run on a model of the 386: case statements, and the integer instructions against the interpreter |
| `BioReader`, `BioWriter`, `BioExamples` | `libbio` | buffers against a plain cursor over a file; runs in which they differ |
| `NineP`, `NinePFcall`, `NinePBuffers` | `include/fcall.h`, `lib9/convS2M.c`, `lib9/convM2S.c` | the 9P2000 codec: intro(5), section 5 of the Plan 9 Programmer's Manual; the three switches of the code over struct Fcall; the loops over buffers |
| `Utf8`, `Tokens`, `Quoting`, `CleanName` | `lib9` | UTF-8 (sections 3 and 4 of RFC 3629), quoting and tokenizing, path cleaning |
| `Channels`, `AltMarks`, `AltCases`, `Alternation` | `libinterp/alt.c`, `libinterp/xec.c` | channels, queues of waiting progs, `alt`, and the case it reports |

How things are modelled:

- Locks. Every statement is one step: at most one write to shared memory, with the reads that go into it; `_tas` is
  atomic; `osblock` and `osready` are a binary semaphore, so that a ready before the block is remembered. History variables (who owns the lock, who waits) are kept
  beside the memory and never influence it; `Mutex.Run` and `RWLock.Run` do not mention them.
- Descriptors. A file is a sequence of bytes; a read returns any non-empty prefix of what is left, or nothing at the end.
- Code generation. What `comp` decides is a list of emitter calls per instruction; what a call writes depends on base,
  offsets, literal pool, address and pass. Structure offsets and addresses are parameters, so the results hold for all.
  A short jump is emitted with a zero byte and filled in when its label is reached, as in the code.
- Processor. Instructions are decoded from the bytes of the finished code, and change registers, flags, stack and words of
  memory; what it does not decode has no behaviour. Dis operands are frame, module and pointer operands and constants.
- 9P. The format is one table, after the manual. `sizeS2M`, `convS2M` and `convM2S` are three separate switches over the
  named fields of struct Fcall, each proved against the table for every message type.
- Channels. Progs, channels, registers and a history of values are one value; the methods of `Alternation.Interp`
  are the code, proved against functions on that value.

Findings:

- `writeimage` finishes for an image with lines if and only if a line has at least one byte and fits the display's buffer
  besides the header. A wider line makes the first loop go round without taking a line, for ever; a line without bytes is
  a division by zero in `unloadimage`. `Pixels.ReadPixels` says which happens when, `Pixels.Unwritable` is an example of
  both. When it finishes, `creadimage` loads exactly the original image (`ReadImage.WriteAndRead`).
- `Bseek` ends up elsewhere than it says when the displacement does not fit an int and the wrapped count still looks like a
  place in the buffer, and outside its buffer when the count becomes -2^31, whose negation as an int is itself. The
  postcondition of `BioReader.Reader.Bseek` is an equivalence; `BioExamples.SeekStays` and `BioExamples.SeekOutside` are
  examples.
- `badd` compares a plain `char` with an int delimiter, so that delimiters from 128 on are found but not removed where
  `char` is signed: a delimiter that is found is removed if and only if it is from -128 to 127
  (`BioReader.Reader.Brdstr`; `BioExamples.DelimiterKept` with delimiter 200).
- `Brdline` and `Brdstr` lose bytes that were put back if and only if more bytes are unread than the buffer holds without
  the unget area and no delimiter is among them (`BioReader.Reader.Overfull` in their postconditions;
  `BioExamples.PutBackIsLost` is a run).
- `Bgetc` at the end of the file declares the whole buffer good although nothing was read. That is right if and only if
  the buffer held nothing but bytes of the file (postcondition of `BioReader.Reader.Bgetc`); otherwise, after a second
  Bgetc, a seek within the buffer may deliver wrong bytes, as in `BioExamples.WrongByteAfterEnd`.
- `Brdstr` leaves a NUL after the last byte when a string ends with the file, and takes it for a byte of the file: a seek
  then finds every byte one place too late, as in `BioExamples.NulForB`. `BioReader.Reader.StringKeeps` is the exact
  condition for what it leaves to be right. What is not right always shows: `BioReader.Misled` gives a seek that stays in
  the buffer at a wrong byte.
- `cqdelp` removes every occurrence of a prog, not one; and from a queue with several nodes that are all for that prog it
  leaves a nil pointer. `Channels.CqDelPWaits` says exactly when, `AltMarks.SafeIff` what that means for the marks of an
  alt, and `Alternation.Interp.XecAlt` what it means for the whole operation: it goes right if and only if every channel
  listed twice on a side still has somebody else waiting there, and so do those of the partner. `Alternation.QueueDestroyed`
  is a run in which it does not. A prog that waits with a channel listed twice can be woken through that channel, but not if
  it is listed three times (`AltMarks.Wakes`, `Alternation.WaitsRepeatedly`).
- `altrdy` refuses an alt that sends and receives on one channel only if no other receiver waits there. If one does,
  `altcomm` can take the prog's own send for a partner: `Alternation.SelfService` is an example, `Channels.ReadyExact`
  says exactly when the two passes count the same, and `AltMarks.DisjointChoice` that disjoint sides are always right.
- A string with a NUL in it arrives intact in the buffer of `convM2S` but is cut short as a C string:
  `NinePBuffers.ResendExact` is an equivalence, `NinePBuffers.NulCutsShort` an example in which 12 bytes become 10.
- `cleanname` protects a name that begins with # by "./" when a front part of the path has led back to where it starts, although
  the path may have been a device: "#a/../#b" becomes "./#b" (`CleanName.DeviceLost`). `CleanName.ProtectedIff` and
  `CleanName.DeviceIff` say exactly when.
- The code for `movl` copies word by word, so that it differs from the interpreter's assignment if and only if the
  destination begins at the high word of the source and its two words differ (`JitLongs.LongMove`); aligned operands never do.
- The code emitted for `lea` of an immediate loads an address as a constant, and constants 0 are shorter: the one way in
  which a length could depend on the address (`JitLayout.LengthFixed`).
- The short jumps of `macret` land if and only if the code they pass over is shorter than 128 bytes
  (`JitCompile.RetReaches`), which it is if all structure offsets fit the short form of an address
  (`JitCompile.SmallOffsets`). Of the jumps with constant displacements, those of `lena`, `lenc` and `lenl` are right if and
  only if the length of an array or string, or the tail of a list, is at offset 0, and one of `macfrp` if and only if the
  reference count is at a short offset other than 0 (`JitJumps.LengthJumps`, `JitJumps.FrpHops`). A displacement of 127, which would fit a byte, is not short: `bc` is narrower than a byte.

## Model

| member | source | states |
|---|---|---|
| QueueLock.StepKeepsInv | lib9/lock.c:40-93 | every atomic step of qlock, canqlock and qunlock keeps the invariant: the list, possibly caught in the middle of an insertion or removal, spells the waiting sequence, waiters are distinct and parked, owner, spin holder and pending wakeup are unique |
| QueueLock.StepTouches | lib9/lock.c:40-93 | a step changes the words of processes inside an operation on the lock only, and never the ownership of an outsider |
| QueueLock.Frame | lib9/lock.c:40-93 | processes outside may change their words without disturbing the lock, so one process can use several locks |
| QueueLock.EnterKeepsInv | lib9/lock.c:40-74 | a call of qlock or canqlock by a process that is not the owner keeps the invariant |
| QueueLock.EnterUnlockKeepsInv | lib9/lock.c:76-93 | a call of qunlock by the owner, or on behalf of the group that owns the lock, keeps the invariant |
| QueueLock.LeaveKeepsInv | lib9/lock.c:40-93 | when an operation returns, it has the lock exactly if it says so, and no wakeup is left over |
| Mutex.StepKeepsMInv | lib9/lock.c:40-93 | every step of every process that pairs its calls keeps the whole-system invariant |
| Mutex.RunKeepsMInv | lib9/lock.c:40-93 | the invariant holds in every state of every schedule of any number of processes |
| Mutex.AtMostOneHolder | lib9/lock.c:40-93 | in every run at most one process is between acquiring and releasing |
| Mutex.FirstInFirstOut | lib9/lock.c:51-59 | in every run blocked qlock calls return in exactly the order in which they queued |
| Mutex.QueueIsTheSleepers | lib9/lock.c:51-92 | whenever the spin word is free, the linked list is exactly the sequence of sleeping processes nobody is waking, and an unlocked lock has an empty list: no wakeup is lost |
| Mutex.CanqlockNeverBlocks | lib9/lock.c:61-74 | in every run a process that called canqlock last neither spins for it nor sleeps in the queue |
| Mutex.QlockIsServed | lib9/lock.c:40-59 | in every run a process that called qlock last and is idle again has held the lock in between |
| RWLock.StepKeepsRInv | lib9/lock.c:95-141 | every step of rlock, canrlock, runlock, wlock and wunlock keeps the invariant relating `x`, `k`, `l`, the reader count and all program counters; which call gets what is in RWLockCalls |
| RWLock.RunKeepsRInv | lib9/lock.c:95-141 | the invariant holds in every state of every schedule |
| RWLock.KIsQuiet | lib9/lock.c:98-103 | a reader that holds `x` and `l` finds nobody inside an operation on `k`, and its spin word free |
| RWLock.IgnoredCanqlockIsSound | lib9/lock.c:100-101 | the canqlock whose result is ignored takes `k` exactly when the reader count goes from 0 to 1, and `k` is locked whenever it returns |
| RWLock.WriterExcludesAll | lib9/lock.c:95-141 | in every run a writer between wlock and wunlock excludes every reader and every other writer; that these are the callers of wlock and of rlock and canrlock is CallAcquires, that readers do not exclude each other is ReadersShare |
| RWLockCalls.CallAcquires | lib9/lock.c:95-134 | in every run, read off the schedule: who writes has called wlock last, who reads has called rlock or canrlock |
| RWLockCalls.CallIsServed | lib9/lock.c:95-134 | a process that called rlock or wlock last and is idle again has been reading or writing in between |
| RWLockCalls.CanrlockNeverBlocks | lib9/lock.c:107-119 | in every run a process that called canrlock last is neither waiting for `x` nor asleep in a queue |
| RWLockCalls.ReadersShare | lib9/lock.c:95-119 | for any number of processes, each calling rlock or canrlock, there is a run after which all of them are reading together |
| RWLock.NoDeadlock | lib9/lock.c:95-141 | in every reachable state with a busy process, some process can make a step that changes its program counter |
| HashChains.CutKeepsLinks | libdraw/writeimage.c:146-147 | the `prev` of the oldest node points at the link that leads to it; cutting that link forgets it and nothing else |
| HashChains.UnlinkKeepsLinks | libdraw/writeimage.c:146-147 | recycling a node, new or old, leaves all links right for the window without it |
| HashChains.PushKeepsLinks | libdraw/writeimage.c:148-152 | putting a node in front of its chain keeps `next` and `prev` of all live nodes and all heads right |
| HashChains.ChainIsExact | libdraw/writeimage.c:96-158 | a chain is strictly newest first and holds exactly the live insertions with its hash |
| HashChains.OldestIsTail | libdraw/writeimage.c:146-157 | the node about to be reused is the tail of its own chain and on no other |
| HashChains.WalkIsChain | libdraw/writeimage.c:96-117 | following the pointers from a head visits the nodes of exactly that chain |
| HashChains.Window.Insert | libdraw/writeimage.c:145-158 | after any number of insertions into the 1024 recycled nodes the window holds the latest ones, at their positions |
| HashChains.Window.LongestMatch | libdraw/writeimage.c:90-117 | the match is confirmed byte by byte, its distance is 1 to 1024, and no string on the chain matches longer |
| HashChains.Rolls | libdraw/writeimage.c:156-157 | the hash of the next string is the update of that of the string before it: three updates forget all else |
| HashChains.SameHash | libdraw/writeimage.c:96-117 | strings that match for NMATCH bytes have the same hash, so that one chain is enough |
| CompressedImage.MatchCode | libdraw/writeimage.c:139-143 | the two bytes of a match give back its length and its distance, and cannot be taken for a literal |
| CompressedImage.CodeMeans | libdraw/computil.c:4-8 | the format in numbers: what a literal code adds, and how many bytes a match code repeats from how far back, or that there are too few |
| CompressedImage.DecodeAppend | libdraw/computil.c:4-8 | decoding a code after other code continues where that ended |
| CompressedImage.DecodeMatch | libdraw/writeimage.c:139-143 | a match code appended to an encoding extends it over the match, also when the match overlaps itself |
| CompressedImage.TwiddleCommutes | libdraw/computil.c:9-25 | decoding a twiddled block gives the complement of decoding the block, well-formed or not, although matches are untouched |
| CompressedImage.TwiddleTwice | libdraw/computil.c:9-25 | twiddling twice is the identity |
| CompressedImage.Twiddle | libdraw/computil.c:9-25 | the loop complements in place exactly the literal bytes of the first `n` bytes and the bytes of a last literal that runs past them, and touches nothing else |
| CompressedImage.CompBlockSize | libdraw/computil.c:27-37 | the block size is the larger of twice the line and NCBLOCK |
| WriteImage.Encoder.EmitLiteral | libdraw/writeimage.c:118-129 | a literal costs at most two bytes of output, and fails only if the pending ones do not fit |
| WriteImage.Encoder.EmitMatch | libdraw/writeimage.c:130-144 | pending literals and a match are written so that the output stands for the text up to the end of the match |
| WriteImage.Searched | libdraw/writeimage.c:90-118 | the strings of one chain decide: if none of them matches longer, no string in the window does |
| WriteImage.Encoder.Emit | libdraw/writeimage.c:90-144 | a literal is emitted only if no string in the window matches NMATCH bytes; otherwise the match is one that no string in the window exceeds |
| WriteImage.Encoder.EncodeLine | libdraw/writeimage.c:87-168 | a line encodes to at most twice its length, and does not fit only if that much room was missing |
| WriteImage.Encoder.EncodeBlock | libdraw/writeimage.c:77-174 | the part of the block up to the last whole line decodes to exactly those lines; with room for two lines' bytes there is at least one |
| WriteImage.Compress | libdraw/writeimage.c:73-179 | for every image: the error exit is unreachable, the loop ends, headers rise, sizes are in range, and block by block the code decodes to exactly the next lines up to the last |
| ReadImage.Read | libdraw/creadimage.c:71-113 | accepts exactly the streams whose headers rise to the last line with counts in range, and sends for each block its lines and its bytes, twiddled for old images |
| ReadImage.WrittenIsReadable | libdraw/creadimage.c:72-113 | every correct file passes all checks of the reader, and the messages load exactly the original lines, complemented for old images |
| Pixels.Unload | libdraw/unloadimage.c:7-54 | delivers exactly the lines asked for, or divides by zero for lines without bytes, or refuses lines of more than 8000 bytes |
| Pixels.ReadPixels | libdraw/writeimage.c:57-66 | the first loop ends with all the pixels if and only if there are no lines or a line has some bytes and fits both buffers; it goes on for ever if and only if a line is wider than the chunk |
| Pixels.Unwritable | libdraw/writeimage.c:57-66 | with the display's buffer of 8000 bytes, a line of 7969 bytes is never written, and one of none is a division by zero |
| ReadImage.WriteAndRead | libdraw/writeimage.c:57-179 | for every image: if the pixels can be read, the file is written and accepted, and its messages load the image from top to bottom, each exactly its lines |
| JitLayout.LengthFixed | libinterp/comp-386.c:233-379 | the length of an emitter call depends on neither pass, base, offsets, literal pool nor address, if and only if it is not the self-address at address 4 |
| JitLayout.CodeLength | libinterp/comp-386.c:1915-1920 | for every list of emitter calls, the length measured is the length written, in either pass and wherever the code is |
| JitLayout.ScratchFits | libinterp/comp-386.c:1903-1920 | the code of any one instruction fits the 4096-byte scratch buffer |
| JitLayout.MacroFits | libinterp/comp-386.c:1922-1927 | so does the code of any macro |
| JitCompile.Assembler.ModRM | libinterp/comp-386.c:254-271 | for every register and displacement and every base but 4 and 5, the bytes written are read back as the same operation, register, base and displacement, the byte form sign-extended |
| JitCompile.Assembler.PutLiteral | libinterp/comp-386.c:365-379 | literal loads the next place of the pool and in pass 1 fills it; the number of literals does not depend on the pass |
| JitCompile.Assembler.Emit | libinterp/comp-386.c:382-1514 | the calls of one instruction, with the bytes of short jumps filled in when their labels are reached, leave the code specified for their address, count its literals and advance pool and address accordingly |
| JitCompile.Assembler.Compile | libinterp/comp-386.c:1892-1949 | succeeds exactly if every instruction can be compiled, for any initial offsets; then patch and macro are the true offsets in the finished code, which has the length measured, with as many literals behind it as counted |
| JitCompile.BranchLands | libinterp/comp-386.c:356-363 | every rbra of every program lands on the first byte of the Dis instruction or macro it names, modulo 2^32; that it names the right one is JitTargets.RefersExactly |
| JitTargets.RefersExactly | libinterp/comp-386.c:880-1514 | for every instruction that can be compiled: its branches and calls, with their conditions, its stored program counters and literal addresses are exactly those the instruction should have, for its target, the next instruction, and the macros of return, case, frames, calls, pointers and scheduling |
| JitTargets.BranchTargets | libinterp/comp-386.c:588-665 | every branch to an instruction goes to the target of the instruction, but for the one of a frame for another module, which goes to the next |
| JitTargets.HasBranch | libinterp/comp-386.c:1268-1285 | jumps, calls with a constant target and all conditional branches have such a branch |
| JitTargets.RetLabels | libinterp/comp-386.c:1612-1679 | the seven short jumps of macret go to lpunt, lnomr, lfrmr and linterp as their tests require |
| JitTargets.McalLabels | libinterp/comp-386.c:1697-1738 | those of macmcal go to the call of rmcall, to the entry of the module, and to the return to the interpreter |
| JitTargets.FramLabel | libinterp/comp-386.c:1740-1770 | that of macfram passes over extend |
| JitTargets.FrameLabels | libinterp/comp-386.c:732-768 | those of commframe go to macmfra for a nil module, and to macfram for a type with an initializer |
| JitTargets.CallLabel | libinterp/comp-386.c:769-800 | that of commcall goes to macmcal |
| JitTargets.LongLabel | libinterp/comp-386.c:604-642 | that of a two-word comparison goes behind it |
| JitTargets.ShiftLabels | libinterp/comp-386.c:814-870 | those of shll and shrl choose between the two sequences |
| JitCompile.PcFound | libinterp/comp-386.c:404-408 | every stored program counter is the address of its instruction |
| JitCompile.NextPcStored | libinterp/comp-386.c:401-405 | sends, receives, alts, string comparisons and raises store the program counter of the next instruction, for which there is an offset unless they are the last |
| JitCompile.LiteralFound | libinterp/comp-386.c:365-379 | every literal is loaded from a place of its own behind the code, inside the allocation, and is what pass 1 stored there |
| JitCompile.CompInside | libinterp/comp-386.c:604-870 | back-patched short jumps of an instruction go forward to a label of the same instruction |
| JitCompile.ShortLands | libinterp/comp-386.c:604-870 | in the finished code a back-patched short jump lands on the first byte of the call its label is in front of if and only if the distance fits a signed byte |
| JitCompile.CompReaches | libinterp/comp-386.c:880-1514 | it does for every short jump of every instruction |
| JitCompile.CaseReaches | libinterp/comp-386.c:1541-1588 | every short jump of maccase is in range of its call, the two backward ones included; that it is the right one is CaseSearch.SearchReachesArm |
| JitCompile.RetReaches | libinterp/comp-386.c:1612-1679 | it does for every short jump of macret if and only if the code between the first of them and the label lpunt is shorter than 128 bytes |
| JitCompile.SmallOffsets | libinterp/comp-386.c:1612-1679 | which is so whenever all structure offsets are short displacements |
| JitCompile.MacrosReach | libinterp/comp-386.c:1541-1805 | of all macros, only macret can have a jump that is too long |
| JitJumps.HopLands | libinterp/comp-386.c:239-244 | in the finished code a jump with a constant displacement lands on the first byte of the call it is meant for if and only if the displacement is the length of the calls in between |
| JitJumps.LengthJumps | libinterp/comp-386.c:1106-1134 | it is, in the code of lena, lenc and lenl, backward jump included, if and only if the field loaded is at offset 0 |
| JitJumps.CharHops | libinterp/comp-386.c:1396-1440 | it is for all jumps of indc whatever the offsets, with and without bounds checks, for runes of two and of four bytes; the backward one goes to the call of the bounds error |
| JitJumps.PlainHops | libinterp/comp-386.c:1098-1100 | it is for the jumps over one call: of movp, of schedcheck and of bounds checks, and for the one over the constant in the code of lea |
| JitJumps.TrapHops | libinterp/comp-386.c:435-445 | it is for the jump of punt over the return to the interpreter |
| JitJumps.ColrHops | libinterp/comp-386.c:1681-1695 | it is for the jump of maccolr |
| JitJumps.FrpHops | libinterp/comp-386.c:1590-1610 | it is for the first jump of macfrp, and for the second if and only if the offset of the reference count is short and not 0 |
| CaseTable.Mark | libinterp/comp-386.c:692-696 | pass 0 marks a table once, however many instructions share it |
| CaseTable.Relocate | libinterp/comp-386.c:697-705 | pass 1 relocates a marked table, restores its count, and leaves a finished one alone |
| CaseTable.CompileCases | libinterp/comp-386.c:671-706 | for every sequence of case instructions, with shared tables: each arm is relocated exactly once, each count is restored, no other word changes |
| CaseSearch.SearchReachesArm | libinterp/comp-386.c:1541-1588 | for every sorted table in memory and every value, the bytes of maccase, run on the processor, end in the jump to the arm that a scan of all ranges gives, or the default, with the saved frame pointer back in SI and off the stack |
| CaseTable.CompiledCaseIsCorrect | libinterp/comp-386.c:671-706 | after both passes the search goes to the relocated address of the arm that the source table gives for the value |
| JitCases.MacroInPlace | libinterp/comp-386.c:1922-1927 | the calls of maccase write those bytes, short jumps included, wherever the finished code is |
| JitCases.DispatchLands | libinterp/comp-386.c:671-706 | in the finished program, the code of a case instruction, run on the processor from its first byte, with any source operand, ends at the first byte of the code of the arm that the source table gives for the value; data, stack, frame and module pointer are as they were |
| JitCases.CodeStands | libinterp/comp-386.c:1942-1949 | what stands there is the code of that instruction |
| JitMeaning.WordArithmetic | libinterp/comp-386.c:478-516 | run on the processor, the code of addw, subw, andw, orw and xorw makes the destination `mid op src` and changes nothing else, for every addressing mode, constant and missing middle operand |
| JitMeaning.WordMove | libinterp/xec.c:42 | so does that of movw and cvtlw for the source |
| JitMeaning.AddressOf | libinterp/xec.c:40 | and that of lea for the address of the source |
| JitMeaning.Jumps | libinterp/comp-386.c:1281-1285 | the code of jmp goes to the code of its target, a backward one after decreasing the count |
| JitMeaning.WordBranches | libinterp/xec.c:94-99 | the code of the six conditional branches on words goes to the code of the target if and only if the source stands in that relation to the middle operand, as signed numbers, and else to the next instruction |
| JitLongs.LongArithmetic | libinterp/xec.c:54-79 | the code of addl, subl, andl, orl and xorl puts the result modulo 2^64 at the destination, carry and borrow included |
| JitLongs.LongMove | libinterp/comp-386.c:1445-1452 | the code of movl makes the destination the source if and only if the destination does not begin at the high word of a source with different words |
| JitLongs.LongBranches | libinterp/xec.c:100-105 | the code of the six conditional branches on two-word integers decides as the signed numbers do |
| JitRefines.StepRefined | libinterp/xec.c:37-105 | for each of these instructions and case: whatever the interpreter does in one step, the compiled code does, and arrives at the code of the same instruction |
| JitRefines.RunRefined | libinterp/comp-386.c:1892-1949 | over any number of steps of any program of such instructions: same instruction, same memory, stack and pointers as they were |
| BioWriter.Writer.Bputc | libbio/bputc.c:4-20 | bytes sent followed by bytes buffered grow by exactly the byte; `ocount` stays in range |
| BioWriter.Writer.Bwrite | libbio/bwrite.c:4-42 | the same for any number of bytes, through any number of flushes |
| BioWriter.Writer.Bflush | libbio/bflush.c:9-19 | everything written so far has been sent, once and in order |
| BioWriter.Writer.Boffset | libbio/boffset.c:20-22 | the position is the number of bytes written |
| BioReader.Reader.Bgetc | libbio/bgetc.c:4-41 | the byte at the cursor, or end of file, for every pattern of short reads; up to Bungetsize earlier bytes stay recoverable across a refill; after end of file the bytes from gbuf on that stand for places in the file are those of the file if and only if those of the whole buffer were before |
| BioReader.Reader.Bungetc | libbio/bgetc.c:43-53 | the cursor goes back by one, from end of file too, for any state of the buffer; the byte is still there if and only if it is one of the valid bytes before the cursor |
| BioReader.Reader.Bread | libbio/bread.c:4-47 | exactly the bytes at the cursor, fewer than asked for only at the end |
| BioReader.Reader.Brdline | libbio/brdline.c:4-87 | for any int delimiter and with bytes put back: the line at the cursor, in place, if it fits the buffer, else nothing consumed and `rdline` the number of bytes there are, if and only if the buffer is not overfull without a delimiter; if it is, the bytes put back are skipped |
| BioReader.Reader.Brdstr | libbio/brdstr.c:23-111 | for any int delimiter, with and without its removal, and with bytes put back: the whole delimited string at the cursor, also when it is longer than the buffer or ends with the file, if and only if the buffer is not overfull without a delimiter; a delimiter found is removed if and only if it is the value of a signed char; the bytes from gbuf on that stand for places in the file are those of the file after it if and only if a condition on the state, the file and the cursor before it holds |
| BioReader.Reader.Bseek | libbio/bseek.c:4-57 | if the bytes from gbuf on are those of the file: the cursor is at the place returned, and the bytes there in the buffer or to be read, if and only if the seek leaves the buffer or the count and its negation fit an int |
| BioReader.PerformAll | libbio/bgetc.c:9-40 | every run of Bgetc, Bread, Brdline and Brdstr, with or without removal of the delimiter, gives the answers of a plain cursor over the file, and Boffset is that cursor |
| BioReader.GetAndUnget | libbio/bgetc.c:20-53 | in runs of Bgetc and Bungetc, backing up at most Bungetsize from the furthest point re-delivers the same bytes, across refills, short reads and end of file |
| BioReader.PerformSeeking | libbio/bseek.c:19-48 | in runs of Bgetc, Bread, Brdline, Brdstr and Bseek from the start, the cursor and the end, every answer is that of a plain cursor up to the first operation after which a seek cannot be trusted, if there is one; whether an operation is one is decided on the state before it, and none is if Bgetc stays before the end of the file and Brdstr finds its delimiter or leaves no harm |
| BioReader.Perform | libbio/bgetc.c:9-40 | each operation answers as a plain cursor, and leaves a buffer a seek can trust if and only if it is not a second Bgetc at end of file on a buffer with other bytes, or a Brdstr that fails its condition |
| BioReader.Misled | libbio/bseek.c:28-40 | if a byte from gbuf on is not that of the file, some seek stays in the buffer at a wrong byte |
| BioExamples.DelimiterKept | libbio/brdstr.c:5-21 | delimiter 200 is found and kept, the same byte as a negative int is removed |
| BioExamples.PutBackIsLost | libbio/brdline.c:39-47 | sixteen bytes, nine read, two put back: Brdline moves the cursor from 7 to 8 |
| BioExamples.SeekStays | libbio/bseek.c:19-40 | a seek from 2^32 + 100 to 100 answers 100 and stays |
| BioExamples.SeekOutside | libbio/bseek.c:37-40 | a seek from 2^31 to 0 answers 0 with a count of -2^31, outside the buffer |
| BioExamples.NulForB | libbio/brdstr.c:67-94 | after a string that ends with the file, a seek to its last byte finds a NUL |
| BioExamples.WrongByteAfterEnd | libbio/bgetc.c:9-40 | after the end of a file of the bytes 0 to 9, a seek to 2 finds an 8 |
| NineP.ParseEncode | lib9/convS2M.c:192-385 | for every message type of the format and all fields in range, parsing the written message, whatever follows it, gives the message back, nil strings as empty ones |
| NineP.EncodeParse | lib9/convM2S.c:49-314 | every accepted message is the encoding of what was parsed, byte for byte, and its fields are in range |
| NineP.TrailingBytesIgnored | lib9/convM2S.c:49-314 | acceptance and result do not depend on what follows the message |
| NineP.PutIntByte | include/fcall.h:70-76 | byte `i` of a number written is its digit `i` to the base 256 |
| NineP.GetIntByte | include/fcall.h:64-69 | a number read has the bytes as its digits |
| NineP.PutQidByte | lib9/convS2M.c:25-34 | a qid is one byte of kind, four of version and eight of path, each lowest byte first |
| NinePFcall.SizeS2MExact | lib9/convS2M.c:47-190 | the switch of sizeS2M gives, type by type, exactly the number of bytes of the encoding, and 0 exactly for unknown types |
| NinePFcall.WritesExact | lib9/convS2M.c:205-380 | the switch of convS2M puts, type by type, exactly the fields of the format, in its order and widths |
| NinePFcall.ReadsExact | lib9/convM2S.c:66-306 | the switch of convM2S knows the types of the format, reads their fields in its order into different places, and each of its length checks covers exactly what is read after it |
| NinePBuffers.ConvS2M | lib9/convS2M.c:192-385 | returns 0 exactly for an unknown type, too little room or an Rwalk with more than MAXWELEM qids; else writes exactly the encoding of the named fields and nothing past it |
| NinePBuffers.GString | lib9/convM2S.c:4-22 | accepts exactly the strings that lie within the message, and moves them down over their count with a NUL behind, touching no byte after |
| NinePBuffers.GFixed | lib9/convM2S.c:66-306 | one length check and the reads it covers accept exactly what the fields need, counted data, names and qids after them included, set exactly those fields and leave what they point at intact |
| NinePBuffers.ConvM2S | lib9/convM2S.c:49-314 | accepts exactly what the format accepts, returns its size, and sets the fields of struct Fcall for its type, with all strings and data intact together in the buffer |
| NinePBuffers.SpelledIsCString | lib9/convM2S.c:16-19 | a string left in the buffer reads back as a C string exactly if it has no NUL in it |
| NinePBuffers.ResendExact | lib9/convM2S.c:49-314 | writing a parsed message again from the pointers convM2S left gives the original bytes if and only if no string has a NUL in it |
| NinePBuffers.NulCutsShort | lib9/convM2S.c:16-19 | an Rerror of 12 bytes whose text is a, NUL, b is written again as 10 bytes |
| NinePBuffers.Arrives | lib9/convS2M.c:192-385 | what is written from a structure with fields in range parses to the message those fields describe, with the size sizeS2M says |
| Utf8.RuneToChar | lib9/rune.c:74-116 | writes the specified encoding, the error rune for anything without one |
| Utf8.CharToRune | lib9/rune.c:25-72 | reads the specified rune and length; malformed, overlong and out-of-range sequences are errors of one byte |
| Utf8.DecodeEncode | lib9/rune.c:25-116 | decoding undoes encoding for every scalar value, whatever follows |
| Utf8.EncodeDecode | lib9/rune.c:25-116 | whatever decodes without error re-encodes to the bytes read |
| Utf8.EncodeTable | lib9/rune.c:74-116 | the table of RFC 3629: length, lead byte and continuation bytes for every rune |
| Tokens.QToken | lib9/tokenize.c:5-41 | the token is unquoted in place and ended by a NUL, the rest of the string is intact |
| Tokens.Tokenize | lib9/tokenize.c:91-106 | the strings at the positions returned are the first tokens of the text, all intact together |
| Tokens.WordsAreSeparated | lib9/tokenize.c:3-106 | two plain words around a byte are two tokens if it is blank, tab, carriage return or newline, and else one |
| Quoting.PrintedIsToken | lib9/fmtquote.c:106-178 | a printed string is read back as exactly one token up to the separator that follows |
| Quoting.QuotedRoundTrip | lib9/fmtquote.c:30-218 | for every list of NUL-free strings, quoted where needed and joined by any separators, tokenizing gives the list back |
| Quoting.QuoteSetup | lib9/fmtquote.c:30-104 | for byte and for rune output: the predicted counts of bytes and of runes are those of the printed form of the runes accepted, never above the limit; with room for all, all are accepted and quoted only if needed |
| Quoting.PrintedBytes | lib9/fmtquote.c:106-178 | the bytes of the printed form encode the runes that are counted |
| Quoting.QStrFmt | lib9/fmtquote.c:106-178 | emits exactly the predicted bytes |
| Quoting.QuoteStrFmt | lib9/fmtquote.c:180-218 | prints within the limit a prefix of the string in its quoted form, and the whole string if it fits |
| Quoting.QuotedExactly | lib9/fmtquote.c:64-84 | quotes are put around the empty string and around one with a character up to the blank, a quote or one the hook names, and around no other |
| CleanName.MeaningNormal | lib9/cleanname.c:23-60 | every path leads to a place in normal form: dot-dots only as a leading prefix, and only if it is not rooted |
| CleanName.CleanKeepsMeaning | lib9/cleanname.c:23-60 | the clean form leads where the path leads: same root, same unresolved dot-dots, same elements |
| CleanName.CleanIsIdempotent | lib9/cleanname.c:23-60 | cleaning a clean path, also one beginning with the protective `./#`, changes nothing |
| CleanName.CleanText | lib9/cleanname.c:23-60 | the text of every clean path is `.`, `/`, or parts between single slashes that are real names, with dot-dots only in front and only if it is not rooted, or `./` before such a text that begins with # |
| CleanName.DeviceIff | lib9/cleanname.c:55-60 | the clean path begins with # if and only if the path does and no front part of it leads back to where it starts |
| CleanName.ProtectedIff | lib9/cleanname.c:55-60 | it is protected by `./` if and only if a front part of the path leads back and what is left begins with # |
| CleanName.DeviceLost | lib9/cleanname.c:55-60 | a path that is a device, left and found again, is protected all the same |
| CleanName.Rewrite | lib9/cleanname.c:23-51 | the loop leaves the text of the place the path means, the write pointer never ahead of the read pointer, with two bytes to spare if the front was erased |
| CleanName.CleanInPlace | lib9/cleanname.c:7-62 | the string is replaced by its clean form, never longer unless it was empty; what that looks like is CleanText, ProtectedIff and DeviceIff |
| Channels.CqAddWaits | libinterp/xec.c:962-979 | cqadd appends to the queue |
| Channels.CqDelWaits | libinterp/xec.c:980-992 | cqdel removes the first |
| Channels.CqDelPWaits | libinterp/xec.c:993-1011 | cqdelp removes every occurrence of the prog; it leaves a nil pointer if and only if there are several nodes, all for that prog |
| Channels.SendKeepsInv | libinterp/xec.c:1013-1047 | a send, taken, buffered or blocked, keeps the invariant: queues hold exactly the progs that wait there, nobody waits for what is to be had, values flow in order |
| Channels.ReceiveKeepsInv | libinterp/xec.c:1048-1089 | so does a receive, from a sender, from a buffer refilled by a sender, or blocked |
| Channels.TakeMarked | libinterp/alt.c:137-250 | a prog taking a ready case neither sees its own marks, in whatever queues, nor disturbs them |
| Channels.ReadyExact | libinterp/alt.c:76-132 | altrdy counts what altcomm sees if and only if every receive on a channel also sent on was ready by itself |
| AltMarks.SafeIff | libinterp/alt.c:137-183 | after marking, no queue is destroyed by altdone if and only if no channel whose queue was empty is listed twice on that side |
| AltMarks.FaultIff | libinterp/alt.c:88-129 | altrdy raises an exception if and only if a channel is nil or the alt would send to itself |
| AltMarks.DisjointChoice | libinterp/alt.c:188-250 | if the two sides of an alt share no channel, the case taken is the one the random number picks among exactly those that are ready |
| AltMarks.Popped | libinterp/xec.c:1030-1038 | after cqdel, the altdone of a waiting prog leaves every queue its node if and only if the queue it is woken through held it at most twice or somebody else too, and every other one at most once or somebody else too |
| AltCases.OptionsAreCases | libinterp/alt.c:193-250 | the cases counted and chosen among are exactly those of the alt's two arrays that are not nil, in their order |
| AltCases.TakeReports | libinterp/alt.c:193-250 | after a case is taken, the register of the prog names, in the arrays of its alt, the channel and value of its own event, and that of a partner in an alt the first case on the channel of the partner's event; no other register changes |
| AltCases.DefaultNamesNone | libinterp/alt.c:284-289 | the number stored when nothing is ready names no case |
| Alternation.Interp.AltMark | libinterp/alt.c:19-41 | marks the channels of an array, counting those ready before, passing over nil ones |
| Alternation.Interp.AltUnmark | libinterp/alt.c:46-70 | takes the prog out of the queues of an array and notes the first element that is the selected channel |
| Alternation.Interp.AltRdy | libinterp/alt.c:76-132 | marks each queue as often as it is listed and counts ready cases; after a fault, reports the last one and restores every queue |
| Alternation.Interp.AltDone | libinterp/alt.c:137-183 | takes the prog out of all its queues and stores the number that names, in the arrays of the alt, the first case on the selected channel on the side selected, with its value, and nothing if there is none; reports exactly whether a queue was destroyed |
| Alternation.Interp.AltComm | libinterp/alt.c:188-250 | takes exactly the ready case with number `which`, and the registers then name the cases that the events show, or does nothing if there are not so many |
| Alternation.Interp.ISend | libinterp/xec.c:1013-1047 | hands the value to the first receiver, waking it from whatever it waited on, or buffers it, or waits; fails exactly if waking the receiver destroys a queue |
| Alternation.Interp.IRecv | libinterp/xec.c:1048-1089 | takes the value of the buffer or of the first sender, which is woken, its value going into the buffer, or waits; fails exactly if waking the sender destroys a queue |
| Alternation.Interp.XecAlt | libinterp/alt.c:265-294 | for every alt of a running prog, channels shared or listed twice included: it raises an exception, blocks, finds nothing ready, or does one communication, on the case the random number picks, as a plain send or receive would, or takes its own mark for a sender; that result is reached and no queue destroyed if and only if no own mark was taken, the partner can be woken and, in the state after the communication, every channel listed twice on a side has another prog waiting there; then the invariant holds; the number stored is that of the case picked, and names its channel in the alt's own arrays |
| Alternation.StepKeepsInv | libinterp/alt.c:265-294 | every send, receive and alt of a running prog that destroys no queue and does not take its own mark for a sender keeps the invariant |
| Alternation.StepKeepsOrder | libinterp/xec.c:1013-1089 | in every step the progs that stay in a queue keep their order, the running one joins at the end, and whoever it communicates with was first |
| Alternation.EveryRun | libinterp/alt.c:265-294 | in every state of every run of such steps: a running prog is in no queue, nobody waits for what is to be had, and each channel delivers what was sent, in order |
| Alternation.SelfService | libinterp/alt.c:76-250 | an alt sharing a channel between its two sides, with a receiver waiting, for which altcomm takes a case that is not ready |
| Alternation.QueueDestroyed | libinterp/alt.c:137-183 | an alt with two receives on a channel where only a sender waits takes the value and destroys the queue |
| Alternation.WaitsRepeatedly | libinterp/alt.c:137-183 | a prog that waits in an alt with n receives on a channel is woken by a send without harm if and only if n is at most 2 |

## Left out

- Locks: fairness and timing of the spin loop in `lock`; processes that release a lock they do not hold.
- Files and memory: allocation failures, read, write and seek errors, and the state Binactive they lead to.
- WriteImage: the decimal layout of headers, and 32-bit overflow of the byte count of the image or of a line.
- Pixels.ReadPixels: the display answers a request for lines with exactly their bytes; locks, and errors of the connection, are not modelled.
- Image decoder: not part of the repository; it is a specification after the format comment of `libdraw/computil.c`.
- CompressedImage.Twiddle: a last literal that runs past the block must end within the buffer, as must ReadImage.Read's for old images; the source would write past it.
- JitCompile.Assembler.Compile: takes the memory it is given as above address 4 and not wrapping around; `preamble`, `typecom`, `comd`, `comi`, `patchex` and the links of the module are not modelled.
- Jit: the meaning of the instructions emitted for Dis instructions other than those that have a step in JitRefines.DisStep, and of the macros other than maccase; `compdbg` and the branches of `commframe` and `commcall` that are never taken.
- JitRefines.RunRefined: ends where the count of the scheduler runs out, at an operand outside memory, and at an overlapping movl; tables must not have been overwritten. The stack is a value of its own, and the code is not in the memory written.
- JitCompile.PcFound: the program counter after the last instruction: the code reads `patch[size]`, one past the array (libinterp/comp-386.c:403,762,777,1273), if the last instruction stores one (JitCompile.NextPcStored and calls); the model has 0 there, as it has for a `movpc` of a number that is no instruction.
- JitCompile.BranchLands: the jump of `commframe` to the instruction after the last one, for the same reason (libinterp/comp-386.c:762).
- JitCompile.Assembler.Emit: the labels of `macret` are offsets kept from pass 0 in the source; here they are filled in like the others.
- Case tables: those of `casel`, whose entries are longer (`comcasel`), and the tables of `goto`, which pass 1 relocates without a mark, setting the count to 0 for good (libinterp/comp-386.c:1296-1305).
- Other JIT back ends.
- BioReader.Reader.Bseek: requires a target that is not negative, and the buffer not to be open for writing.
- `Bgetrune`, `Bgetd`, `Bprint`, `Bbuffered` and the table of buffers flushed at exit.
- NinePBuffers.ConvS2M: requires the size of the message to be below 2^32, where the source would wrap around, and, as NinePFcall.SizeS2MExact does, that a Twalk has at most MAXWELEM names: `sizeS2M` reads past `wname` before `convS2M` checks (lib9/convS2M.c:89).
- NinePBuffers.ConvM2S: bounds are compared as numbers; the source compares pointers, which may overflow for counts near 2^32.
- `convD2M` and `convM2D`, the directory entries inside stat messages.
- Quoting.QuoteStrFmt: strings of valid UTF-8 printed as bytes, without field width, precision or input count.
- Quoting.QuoteSetup: strings of runes as input, and the input count.
- Quoting.QStrFmt: padding, and output as runes.
- Tokens: `etoken` and `gettokens`; `utfecpy`, `runenlen`, and `fullrune` beyond its use in quoting.
- CleanName.CleanInPlace: the empty string needs room for two bytes, as in the source.
- Alternation.Interp.XecAlt: what happens after a queue has been destroyed or an own mark taken for a sender; killing a prog (`altgone`) and hung-up channels.
- Channels: the ring in which a channel keeps its values is a sequence; copying of pointers, reference counts and the run queue.
- Alternation.Interp.CqDelP: works on the sequence of waiting progs; the linked list itself is in Channels.
