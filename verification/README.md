# Verified model of the CA0132 tools

The repository holds user-space tools for the Creative CA0132 codec: an assembler and a
disassembler for its DSP, a tool that plants a small 8051 program in the codec and rebuilds the
8051's state from what it dumps, bus drivers and a bus trace decoder, and an emulation of the
DSP's LOG and EXP instructions. This project models these parts in Dafny and proves that the two
ends of each agree, or says exactly where they do not.

Run `dafny verify dfyconfig.toml` to check everything. A `hide` statement in a proof only takes
definitions away from the solver that the proof does not need.

**DSP assembler and disassembler.** An instruction is one, two or four words of 25 bits. `Bits` and
`OpWords` say what the word loops do to a flat bit string. `Operands` holds every operand type: what
the assembler accepts, how it rewrites the value, what the disassembler makes of the field. `Layouts`
and `OpTable` are the layout tables and the opcode table, `Tables` checks them entry by entry.
`Assembler`, `Search`, `Reader` and `Program` are the imperative code, each method proved against the
specification in `Instructions`, `Disassembler` and `Search`. The main results are
`RoundTrip.InstrRoundTrip` and `Program.ProgramRoundTrip`: the words written for an accepted
instruction are listed as that instruction *if and only if* the instruction is `Faithful`, a condition
on the instruction alone. `Exceptions` shows accepted instructions that are not. `Lookups` goes all the way
with the repository's own opcode table, from a request to its listing.

**8051 payload.** `Mcs51` interprets the instructions the payload uses, `Payload` holds its bytes,
`Linking` what the linker lays out for any table of handlers. `CopyLoops`, `DumpRoutines`,
`Handlers` and `MainRoutine` follow the machine instruction by instruction up to
`PayloadRun.PayloadRuns`. `Linker` is the code that writes the payload into the device, `Reconstruct`
the code that reads the dump back; `Reconstruct.DumpMachine` closes the circle: the host ends up
with the registers and the memory the machine had when the payload was called.

**Bus.** `Verbs`, `Bus`, `Scp`, `ScpDriver`, `Hic` and `Exram` are the drivers' end (`Bus.Link` leaves
open what the device replies, `Exram.Device` is the 8051's memory behind its address register);
`ScpDecoder`, `ScpTrace` and `ChipioTrace` the trace decoder. Each decoder is a class whose methods
are proved against a step function, about which runs of any length are reasoned. `ScpWords` proves that
the SCP decoder parses a stream of words, whatever is repeated; `ScpRetries` draws the consequences for
one command, `ScpLists` for a list of them, `ScpGets` for requests for data.

**LOG and EXP.** `ExpLog`, `ExpLogLaws` and `ExpLogSmall`: the normalisation loop's closed form, the exact error of
the round trip, monotonicity, sign control.

## Where code and documentation disagree

The model follows the code.

- `ca0132-8051-dump-state.c:277` gives the branch as `50 13` and line 289 puts the exit at 0xf32f; the
  bytes are `50 0a` and the exit is at 0xf326, which agree with each other.
- `documentation/emu10k1-explog.c` starts the exponent from `max_exp` before it is cleaned up, so that
  0 and 1 do not behave like 2 except for the numbers named by `ExpLogSmall.ActsLikeTwo`. EXP of a denormal
  LOG is twice the number, and EXP after LOG is monotone only for `max_exp` 30 and 31.
- Operands the assembler accepts and the disassembler lists differently are exactly those of
  `Operands.Misread`; accepted instructions that come back as others, those that are not
  `RoundTrip.Faithful`.
- The assembler is meant to find an instruction in any of the lengths asked for. An explicit length digit
  overwrites what it knows about the parallel operation, so that a digit for several lengths (3, 5, 6, 7) ends
  the search at the first that fits the main operation (`Search.StopsFirst`, `Lookups.FindNop`).
- The trace decoder is not robust against what the drivers send. A header whose first half is sent an even
  number of times is lost; a value whose second half is repeated counts again, so that values are doubled
  and those behind are read as headers (`ScpRetries.CommandRetries` has the exact condition). A header of
  four or more values is dropped and its values are read as headers (`ScpRetries.LongCommand`). Of a range
  write over HIC only the first word is listed.

## What is assumed

- External memory 0xf100 to 0xf3ff is fetchable as code; the interpreter fetches from external memory
  above 0xe000. Bit 0 of DP_TGL (SFR 0x86) selects the data pointer, SFR 0xfa the code bank. Interrupts do
  not strike between the payload's instructions.
- The caller's stack has room for fourteen bytes and, its return address included, stays clear of 0x18
  and 0x19; the eight pushed registers stay clear of 0x6f (`PayloadRun.GoodStack`).
- An HD Audio verb is split into verb and payload as in section 7.3 of the High Definition Audio
  Specification, revision 1.0a; what is traced are the verbs as sent.
- Operands name registers that exist: X and Y cells below 512, address and modifier registers below eight. The
  parser takes any number (ca0132_dsp_functions.c:5395-5408), which then runs into neighbouring bits.
- An explicit length is one decimal digit. An opcode table lists each opcode once and every layout under its
  own length; `OpTable.AsmOpsAreGood` proves that of the repository's table.
- The trace decoder's buffer holds the traces it is given: `ChipioTrace.RunsThatFit` says which these are. A
  range read through the exram tool has at most 65535 bytes, its counters' width.
- `max_exp` is at most 31. The laws in `ExpLogLaws` are for 2 to 31, as the instructions document it; those for
  0 and 1 are in `ExpLogSmall`.

## Model

| member | source | states |
|---|---|---|
| OpWords.SetBitsInOpWords | ca0132_dsp_functions.c:3757-3827 | writing a field of any length sets, in every word, exactly the old bits and the bits of the value's low part, bits above the 25th included |
| OpWords.GetBitsInOpWords | ca0132_dsp_functions.c:3766-3837 | reading a field, across word boundaries, gives the number that stands there in the flat bit string |
| OpWords.SetsCommute | ca0132_dsp_functions.c:3778-3827 | two writes give the same words in either order |
| OpWords.GetAfterSet | ca0132_dsp_functions.c:3778-3837 | reading a written field gives the old value or-ed with the low bits of the new one |
| OpWords.GetElsewhere | ca0132_dsp_functions.c:3778-3837 | a write leaves every field apart from it as it was |
| Operands.OperandRoundTrip | ca0132_dsp_functions.c:3839-4818 | for every operand type and accepted operand, decoding the field written gives back the operand if and only if it is not one of the misread ones |
| Operands.RelativeRoundTrip | ca0132_dsp_functions.c:4509-4536 | base plus offset is the accepted register again, modulo the wrap of each offset form, if and only if the register is not a misread one |
| Operands.OffsetRoundTrip | ca0132-dsp-disassembler.c:346-410 | every signed offset the assembler accepts is printed as written, for each of the offset forms and register files |
| OperandFields.OperandsBack | ca0132-dsp-disassembler.c:643-724 | for any form whose fields are well placed, with or without swapped source and destination, the operands come back in order if and only if none is misread |
| Tables.FormIsOk | ca0132_dsp_functions.c:758-1932 | every layout's fields, discriminator and mask lie apart from each other and from the opcode, inside the instruction |
| Tables.PFormIsOk | ca0132_dsp_functions.c:135-534 | likewise every layout of a parallel operation, inside its room |
| OpTable.AsmOpsAreGood | ca0132_dsp_functions.c:1952-3629 | the opcode table lists each opcode once and every layout under its own length, and swaps only paired layouts |
| ParallelRows.RowFacts | ca0132_dsp_functions.c:544-735 | rows of parallel operations stand in ascending order of opcode, and an opcode leaves the bits its layout shares clear unless a twin row takes them |
| Heads.LengthRead | ca0132_dsp_functions.c:3631-3662 | the length is read from the first word, whatever operands, masks and parallel operations were written |
| Heads.OpcodeRead | ca0132_dsp_functions.c:3649-3662 | the opcode read is the one written, made odd exactly when a counted loop sets the bit it shares |
| Heads.EmptyRoomRead | ca0132-dsp-disassembler.c:754-775 | no parallel operation is read where none was written |
| RoundTrip.FormRead | ca0132-dsp-disassembler.c:816-874 | the layout chosen by scanning discriminators is the one the assembler chose by operands, for every layout but two whose discriminator an operand can cover |
| ParallelTrip.RowRead | ca0132-dsp-disassembler.c:754-814 | the parallel operation's row is found again |
| ParallelTrip.PFormRead | ca0132-dsp-disassembler.c:754-814 | and its layout, with exactly one row hiding it |
| ParallelTrip.ParOperandsRead | ca0132-dsp-disassembler.c:754-814 | its operands come back if and only if none is misread |
| RoundTrip.PopRoundTrip | ca0132-dsp-disassembler.c:754-814 | a parallel operation is listed as written if and only if it is faithful |
| RoundTrip.InstrRoundTrip | ca0132_dsp_functions.c:4084-4183 | an accepted instruction's words are listed as that instruction if and only if it is faithful |
| RoundTrip.TextRoundTrip | ca0132-dsp-disassembler.c:816-890 | in a table that tells its counted loops apart from the rows behind them, the names and operands listed are those written if and only if the instruction is faithful |
| Assembler.SetOpOperand | ca0132_dsp_functions.c:4049-4078 | one operand's bits are set in the buffer, high part and low part, and no others |
| Assembler.SetOperands | ca0132_dsp_functions.c:4084-4130 | the operands of an operation are rewritten and written, relative ones against the rewritten base |
| Assembler.CreateOpWords | ca0132_dsp_functions.c:4084-4183 | the four words hold the bits of opcode, operands, masks and parallel operation and nothing else |
| Search.FindForm | ca0132_dsp_functions.c:4846-4882 | the first layout that takes the operands, or none if there is none |
| Search.FindPOp | ca0132_dsp_functions.c:4962-4986 | the first parallel operation of that name, row and layout, that takes the operands |
| Search.FindCompatibleAsmOpcode | ca0132_dsp_functions.c:5068-5169 | the first row and length that fit the main operation decide: with the parallel operation in that length the answer is the first instruction there, without it the search ends at that length, and if none fits nothing answers |
| Search.AnsweredIff | ca0132_dsp_functions.c:5069-5162 | some instruction answers in a row and length if and only if the search can end there and the parallel operation exists in it |
| Search.NothingAnswers | ca0132_dsp_functions.c:5111-5162 | hence nothing in the table answers if and only if nowhere the search can end has the parallel operation |
| Search.OneLengthMissesNothing | ca0132_dsp_functions.c:5069-5106 | without a parallel operation, without an explicit length, or with one that allows one length, a search that ends without an instruction has missed none |
| Lookups.AssembleRequest | ca0132_dsp_functions.c:4084-5169 | with the repository's opcode table, for any request: the words of the instruction found are listed as what was asked for, names, operands and ':', if and only if the instruction is faithful; an instruction is found if one answers and the request is not of the kind the search misses |
| Lookups.LoopRows | ca0132_dsp_functions.c:1952-3629 | the repository's table tells its counted loops apart |
| Reader.DspMain.GetOpOperands | ca0132-dsp-disassembler.c:643-724 | the array filled and swapped in place holds the operands of the specification |
| Reader.DspMain.ChooseForm | ca0132-dsp-disassembler.c:851-867 | the scan of discriminators ends at the specified form |
| Reader.DspMain.GetParallelOpData | ca0132-dsp-disassembler.c:754-814 | the parallel operation listed is that of the specification |
| Reader.DspMain.GetOpData | ca0132-dsp-disassembler.c:816-874 | the listing of an instruction is that of the specification |
| Reader.DspMain.GetDspOp | ca0132-dsp-disassembler.c:20-54 | the next instruction's words, address, length and opcode, in a buffer that keeps what it held |
| Reader.DspMain.GetNextOp | ca0132-dsp-disassembler.c:877-915 | one listing for each instruction, until the program ends |
| Reader.DspMain.ListProgram | ca0132-dsp-disassembler.c:917-940 | the listings of the whole program |
| Program.AssembleProgram | ca0132-dsp-assembler.c:33-74 | the file holds the instructions' words, each cut to the length its first word gives |
| Program.StreamSplits | ca0132-dsp-disassembler.c:20-54 | whatever the buffer held before, the reader splits the file at exactly the original boundaries and addresses |
| Program.SplitHeads | ca0132-dsp-disassembler.c:20-54 | with the original lengths, and the original opcodes but for the shared loop bit |
| Program.ProgramRoundTrip | ca0132-dsp-assembler.c:55-67 | a program is listed back instruction by instruction exactly where the instructions are faithful |
| Exceptions.FmaR12 | ca0132_dsp_functions.c:3931-3937 | R12 as an accumulator is listed as R04 |
| Exceptions.NearbyRegister | ca0132-dsp-disassembler.c:248-290 | a register in the four-bit offset form is listed modulo 128 and in the X file |
| Exceptions.CallRegister | ca0132_dsp_functions.c:4570-4589 | a call register is listed by the low five bits of the one accepted |
| Exceptions.LoopIsAccepted | ca0132_dsp_functions.c:1534-1552 | a counted loop is accepted and not faithful |
| Exceptions.LoopChangesOpcode | ca0132_dsp_functions.c:1534-1552 | its words carry the next opcode |
| Exceptions.FmaIsAccepted | ca0132_dsp_functions.c:1391-1425 | a second Y register that covers the discriminator is accepted and not faithful |
| Exceptions.MoveIsAccepted | ca0132_dsp_functions.c:648-653 | a parallel move whose opcode bit is its discriminator is accepted and not faithful |
| Lookups.ExampleRows | ca0132_dsp_functions.c:1952-3629 | the rows of the three examples are rows of the repository's table |
| Lookups.FindFma | ca0132_dsp_functions.c:5068-5169 | a request the search answers with the fused multiply that is not faithful |
| Lookups.FindMove | ca0132_dsp_functions.c:5068-5169 | and one it answers with the parallel move that is not faithful |
| Lookups.FindNop | ca0132_dsp_functions.c:5069-5162 | a request for one or two words the search gives up at one word, though an instruction of two words answers |
| ExpLog.Normalise | documentation/emu10k1-explog.c:72-89 | the loop ends with the exponent in closed form, max_exp + 1 less the leading zeros or 0, and the value shifted as often |
| ExpLog.Log1 | documentation/emu10k1-explog.c:52-142 | LOG of a word is the signed encoding of its magnitude |
| ExpLog.Exp1 | documentation/emu10k1-explog.c:144-204 | EXP of a word is the signed decoding of its magnitude |
| ExpLogLaws.RoundTrip | documentation/emu10k1-explog.c:52-204 | EXP after LOG loses exactly the bits below the mantissa, nothing when there are none, and doubles a denormal |
| ExpLogLaws.ExactRoundTrip | documentation/emu10k1-explog.c:52-204 | it is the identity if and only if the number is 0, or normalised without bits below the mantissa |
| ExpLogLaws.BoundIsSharp | documentation/emu10k1-explog.c:52-204 | the error bound is attained for every number of leading zeros |
| ExpLogLaws.EncodedMonotone | documentation/emu10k1-explog.c:52-142 | the encoding is monotone across every exponent step |
| ExpLogLaws.LogMonotone | documentation/emu10k1-explog.c:52-142 | LOG is monotone over all signed words with the sign kept |
| ExpLogLaws.SignControl | documentation/emu10k1-explog.c:103-202 | what each sign control does to EXP after LOG |
| ExpLogLaws.ComplementCommutes | documentation/emu10k1-explog.c:52-204 | EXP after LOG commutes with complement |
| ExpLogLaws.StepsDown | documentation/emu10k1-explog.c:52-204 | EXP after LOG falls where the denormals end |
| ExpLogLaws.CompositionMonotone | documentation/emu10k1-explog.c:52-204 | EXP after LOG, the sign kept, is monotone over all signed words if and only if max_exp is 30 or 31 |
| ExpLogSmall.SmallRoundTrip | documentation/emu10k1-explog.c:52-204 | with max_exp 0 or 1, EXP after LOG in closed form for every magnitude |
| ExpLogSmall.SmallMaxExp | documentation/emu10k1-explog.c:54-66 | it gives what the default max_exp 2 gives if and only if the number is 0 or, for max_exp 1, even and of thirty bits |
| ExpLogSmall.SmallSignControl | documentation/emu10k1-explog.c:103-202 | the four sign controls for these max_exp, over all words |
| ExpLogSmall.SmallMaxExpSigned | documentation/emu10k1-explog.c:52-204 | the same if-and-only-if over all words, negative ones included |
| Verbs.PayloadCarried | ca0132_base_functions.c:21-31 | a payload verb carries sixteen bits and keeps its group |
| Scp.CreateScpHeader | ca0132_base_functions.c:1297-1311 | the header built is read back as the masked fields |
| Scp.FieldsReadBack | ca0132_base_functions.c:1274-1311 | every masked set of fields is read back from its word |
| Scp.WordReadBack | ca0132_base_functions.c:1274-1311 | every word is the word of its fields |
| Bus.Link.SendUntil | ca0132_base_functions.c:34-50 | a verb is repeated exactly as long as it is refused, and at most as often as allowed |
| ScpDriver.DspioWrite | ca0132_base_functions.c:34-93 | a word goes out as its two halves, each between one and six times, and once if nothing is refused |
| ScpDriver.SendCommand | ca0132-send-dsp-scp-cmd.c:62-74 | whatever was refused on the way, the trace is the words of header and values with some retries, and without a refusal each once |
| ScpDriver.SendAndList | ca0132-send-dsp-scp-cmd.c:62-74 | sent with any refusals, a command of up to three values is the first report if and only if the retries are harmless |
| ScpDriver.CommandIsReported | ca0132-frame-dump-formatted.c:195-345 | a command of up to three values, sent once, is reported once, with its fields and values, and the decoder ends cleared |
| ScpDriver.SendCommands | ca0132-send-dsp-scp-cmd.c:28-75 | whatever was refused on the way, the trace is the words of all commands with some retries, and without a refusal each once |
| ScpDriver.CommandsAreListed | ca0132-frame-dump-formatted.c:195-345 | from the driver to the listing, under any refusals: exactly the commands are listed, each once, in order, if and only if the retries of each are harmless |
| ScpDriver.CommandsAreReported | ca0132-frame-dump-formatted.c:195-345 | commands of up to three values each, sent once, are reported in order, once each, and the decoder ends cleared |
| ScpWords.StreamParsed | ca0132-frame-dump-formatted.c:165-345 | for every stream of words and every number of repetitions of each half, the decoder lists what parsing the words lists, and ends in the phase the parse ends in |
| ScpRetries.CommandParsed | ca0132-frame-dump-formatted.c:207-292 | what a retried command becomes: the header with each value counted once for every second half and the rest read as headers, or all values read as headers |
| ScpRetries.CommandRetries | ca0132-frame-dump-formatted.c:207-292 | for all retry counts, the first report is the command if and only if the header is taken and the repeated values begin with the values sent |
| ScpRetries.LeftOverWords | ca0132-frame-dump-formatted.c:207-292 | then at most two words are left over and parsed on their own; exactly when the decoder ends cleared, and nothing else is listed if and only if they are silent |
| ScpRetries.NothingLeftOver | ca0132-frame-dump-formatted.c:207-292 | no word is left over when only the last value's second half was repeated |
| ScpRetries.RetriedValueExample | ca0132-frame-dump-formatted.c:207-292 | the values 1 and 2, one second half repeated, are listed as 1 and 1 and a message of its own |
| ScpRetries.LongHeaderIsDropped | ca0132-frame-dump-formatted.c:238-254 | a header of four or more values, however often sent, leaves what follows to be read as if nothing had come before |
| ScpRetries.LongCommand | ca0132-frame-dump-formatted.c:207-292 | a whole command of four or more values, whatever is repeated, is listed as its values parsed alone, and nothing is listed if and only if the values are silent as headers |
| ScpRetries.LongCommandExample | ca0132-frame-dump-formatted.c:207-292 | four values of zero are listed as four empty messages |
| ScpLists.ListParsed | ca0132-frame-dump-formatted.c:165-345 | for every list of commands and all retry counts of all words: exactly the commands are listed if and only if each is listed right, no left-over word begins a message before the next command, and those behind the last are silent |
| ScpLists.CommandsListed | ca0132-frame-dump-formatted.c:165-345 | the same of the decoder on the trace |
| ScpGets.GetListed | ca0132-frame-dump-formatted.c:180-206 | a request for data is listed by the verbs that fetch the answer if and only if at some point there were four reads and two count queries, modulo 256 |
| ScpGets.GetListedOnce | ca0132-frame-dump-formatted.c:207-253 | whatever was fetched, it is listed exactly once by the time the next word begins |
| ScpGets.GetReported | ca0132-frame-dump-formatted.c:165-345 | both, from the first word of the request on, with its own fields and values |
| ScpDecoder.RunKeepsInv | ca0132-frame-dump-formatted.c:170-345 | every verb sequence keeps the decoder's invariant |
| ScpDecoder.OnlyGetsAreAborted | ca0132-frame-dump-formatted.c:207-292 | in every reachable state a full message has less than four words, and only a get can be aborted |
| ScpDecoder.MessagesReceived | ca0132-frame-dump-formatted.c:195-345 | any list of set messages, polled in between, is reported in order and leaves the decoder cleared |
| ScpDecoder.IgnoredDoNotMatter | ca0132-frame-dump-formatted.c:294-345 | other verbs may stand anywhere in a trace |
| ScpDecoder.HeaderRetries | ca0132-frame-dump-formatted.c:207-292 | a repeated header is understood exactly when its first half was sent an odd number of times and, before values, its second half once |
| ScpDecoder.ValueLows | ca0132-frame-dump-formatted.c:207-292 | a value's first half may be repeated |
| ScpTrace.DspData.VerbHandler | ca0132-frame-dump-formatted.c:294-345 | the handler's fields and its listing follow the step function for every verb |
| ScpTrace.DspData.Decode | ca0132-frame-dump-formatted.c:294-345 | and for every trace |
| Hic.HicWriteAtAddr | ca0132_base_functions.c:115-201 | the verbs of a write: address and data halves, each repeated while refused, status polls between |
| Hic.WriteRoundTrip | ca0132-frame-dump-formatted.c:391-463 | they decode to exactly one report of address and data, from any decoder state |
| Hic.HicWriteDataRange | ca0132_base_functions.c:203-219 | the verbs of a range write: the address once, then every word |
| Hic.RangeReportsFirstWord | ca0132-frame-dump-formatted.c:391-463 | of which the decoder reports the first word only |
| ChipioTrace.RunsAreListed | ca0132-frame-dump-formatted.c:474-570 | a list of 8051 write runs is listed run by run, with start address and exactly its bytes |
| ChipioTrace.RunsThatFit | ca0132-frame-dump-formatted.c:474-570 | a trace of 8051 verbs fits the decoder's buffer if and only if, told by the verbs alone, no complete address is followed by 129 writes in a row |
| ChipioTrace.PhaseHolds | ca0132-frame-dump-formatted.c:503-570 | the verbs seen so far, whatever their data, decide whether an address is complete or a run is being collected |
| ChipioTrace.ChipioData.HicHandler | ca0132-frame-dump-formatted.c:391-463 | the handler's fields follow the step function |
| ChipioTrace.ChipioData.Handler8051 | ca0132-frame-dump-formatted.c:474-570 | likewise for the 8051 verbs, the buffer of bytes included |
| ChipioTrace.ChipioData.Decode8051 | ca0132-frame-dump-formatted.c:503-570 | and for every whole trace that fits |
| Exram.ReadExramDataRange | ca0132_base_functions.c:325-341 | the reader that caches the upper address byte reads what plain addressing reads, around the top of memory too |
| Exram.ReadExramRangeWithProgress | ca0132-8051-read-exram-to-file.c:12-52 | so do the chunks above it |
| Exram.WriteExramDataRange | ca0132_base_functions.c:365-373 | the memory afterwards holds the bytes from the address on |
| Exram.WrittenAt | ca0132_base_functions.c:365-373 | byte by byte, and nothing else changes |
| Exram.WriteThenRead | ca0132_base_functions.c:325-373 | a range written is read back |
| Mcs51.FlagsBack | ca0132-8051-dump-state.c:269-304 | PSW as pushed, parity included, restores the flags when popped |
| CopyLoops.LoopCopies | ca0132-8051-dump-state.c:79-135 | the nested loop ends, and has copied 256 bytes upwards for each of its rounds, from any source to any destination, overlapping or not, that does not overwrite the loop |
| CopyLoops.ForwardIsCopy | ca0132-8051-dump-state.c:79-135 | when the destination is apart from the part of the source in the same memory, this is a memory copy |
| CopyLoops.CopiedAt | ca0132-8051-dump-state.c:79-135 | byte by byte, all other memory unchanged |
| CopyLoops.ZeroOverwrites | ca0132-8051-dump-state.c:79-135 | a count byte of zero, 256 rounds, overwrites the loop wherever the destination begins |
| DumpRoutines.CopyRoutine | ca0132-8051-dump-state.c:100-135 | the copying routine returns to its caller with interrupt enables, data pointer selection and stack as before and only r0 and r1 touched |
| DumpRoutines.IramRoutine | ca0132-8051-dump-state.c:137-159 | likewise the one for internal memory, which sees r0 and r1 as 0xe8 and 0x19 |
| Routines.SignalRuns | ca0132-8051-dump-state.c:160-168 | the signal byte is set |
| Handlers.PmemHandler | ca0132-8051-dump-state.c:175-210 | the handler copies the selected bank's code memory and selects the former bank again |
| Handlers.RamHandler | ca0132-8051-dump-state.c:212-247 | the handler copies external memory, internal memory and eight registers |
| MainRoutine.Dispatches | ca0132-8051-dump-state.c:252-288 | for any number of handlers and any table address the registers are saved and the jump ends at six times the value modulo 256 in the table, or at the exit |
| MainRoutine.SlotReached | ca0132-8051-dump-state.c:276-286 | which is the value's own slot if and only if it is at most 42 |
| MainRoutine.Restores | ca0132-8051-dump-state.c:288-304 | the exit restores every saved register and returns |
| PayloadRun.LinkedLayout | ca0132-8051-dump-state.c:468-530 | for any table of handlers that fits, each lies whole at its recorded address, none overlaps the next, its slot calls it and jumps to the exit, and there are at most 25 |
| PayloadRun.HandlerIsCalled | ca0132-8051-dump-state.c:514-572 | for any such table, a value below the count reaches that handler, returning into its own slot |
| PayloadRun.HandlerHasReturned | ca0132-8051-dump-state.c:514-572 | and once it has returned, so does the routine, with every register as it was |
| PayloadRun.HandlerPlaces | ca0132-8051-dump-state.c:468-512 | the tool's own handlers fit, and where they lie |
| PayloadRun.PayloadRuns | ca0132-8051-dump-state.c:100-304 | for every value and from every state the payload ends at its caller with SP, ACC, B, both data pointers, DP_TGL, PSW, IE and bank as they were, and all 64 KiB of external memory are what the value asked for |
| Linker.WriteMemDumpFunctions | ca0132-8051-dump-state.c:439-466 | the generic functions are written one behind the other and their addresses recorded |
| Linker.WriteMemDumpHandlers | ca0132-8051-dump-state.c:468-512 | so are any handlers, with their calls linked |
| Linker.WriteMemDumpEntryExit | ca0132-8051-dump-state.c:532-572 | the main routine is written with the count and the table address filled in |
| Linker.WriteHandlerJmpTable | ca0132-8051-dump-state.c:514-530 | the jump table is written slot by slot |
| Linker.Link | ca0132-8051-dump-state.c:439-572 | the memory after linking any table of handlers, exactly, and that all pieces are whole if it fits |
| Linker.TableOverrun | ca0132-8051-dump-state.c:514-572 | for handlers that end below the main routine, it stays whole if and only if the jump table ends below it too |
| Linker.WritePayload | ca0132-8051-dump-state.c:574-639 | the tool's payload is in place and parameter 36 leads to it |
| Reconstruct.CheckDumpStatus | ca0132-8051-dump-state.c:641-659 | with memory changing at every wait, success exactly if one of four polls finds the signal, which is then cleared |
| Reconstruct.ReadPmemBank | ca0132-8051-dump-state.c:680-715 | a bank is read back in chunks |
| Reconstruct.ReadRamAndRegisters | ca0132-8051-dump-state.c:720-788 | memories are read back in chunks; the registers are those copied, those on the stack image, and the adjusted stack pointer |
| Reconstruct.StateRebuilt | ca0132-8051-dump-state.c:720-784 | for every state of the machine, the registers rebuilt are its registers at the payload's entry, SP two below |
| Reconstruct.DumpPmemBank | ca0132-8051-dump-state.c:661-718 | end to end: once a poll finds the signal, the buffer holds the bank's code memory |
| Reconstruct.DumpMachine | ca0132-8051-dump-state.c:727-788 | end to end: once a poll finds the signal, the host has the registers and internal memory of the machine and its external memory below 0x2000 and from 0xe000 on |

## Left out

- The hwdep device, its `open` and `ioctl`, sleeping, printing and terminal input. Devices are classes; a
  refusing device is a reply function left open; a program is a sequence of words.
- Source text: comments, tokens, numbers, register names, `.` gaps in a listing, which write zero words, and the
  `OP_0x` syntax that names opcode and layout. Assembly starts from parsed operands; a listing ends before names.
- Reader.DspMain.GetOpData: does not model the address comment printed behind relative jumps, nor the source modifier
  printed with an operand, which the row's opcode determines.
- Search.FindCompatibleAsmOpcode: where the search ends in a length without the parallel operation, the outcome says
  so and the model stops; the code reports an error for one word, and for two or four goes on with a parallel row it has
  not filled in, whose missing layout it then reads.
- Exram.ReadExramRangeWithProgress: the progress marks are not modelled.
- ChipioTrace.ChipioData.Handler8051: does not model a 129th byte of a run, which the code writes past its buffer.
- Reconstruct.ReadRamAndRegisters: the request to the 8051 is not modelled, and the wait is that of CheckDumpStatus.
- Reconstruct.DumpMachine: external memory from 0x2000 to 0xdfff is not recovered; the tool does not read it.
- PayloadRun.PayloadRuns: nothing is said about stacks that wrap around or cover r0, r1 or the requested value.
- CopyLoops.LoopCopies: a loop that overwrites its own code is not modelled, so a count byte of zero is not.
- The low 32 KiB of program memory, read over another verb by the same loop, and the simulator's save-state file.
- Name tables of verbs, commands, flags and parameters; pin and amplifier decoding; download counting; floating-point
  display of values.
- The DSP instruction tests, the stream and port tools, and the serial console.
