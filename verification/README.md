# simple_vm in Dafny

A model of the small byte-code virtual machine in `simple_vm.c`.

The machine has:
- four 16-bit general registers (ax, bx, cx, dx), a stack pointer and a 16-bit instruction pointer;
- a flags byte with four meaningful bits: E (0x08), G (0x04), H (0x02) and L (0x01);
- a memory into which `exampleprogram` copies a list of encoded instructions, growing the break `b` by each one's size.

`execute` fetches from offset 0:
1. it advances the cursor and `ip` by the size of the previous instruction;
2. it stops with a segmentation fault once the cursor is strictly past the break;
3. otherwise `execinstr` looks the opcode up in the size table (`map`), decodes one or two little-endian arguments by that size and dispatches to a handler.

An instruction ends the machine through `error` in three ways:
- a size outside {1, 2, 3, 5} is a segmentation fault;
- the move handler raises an illegal-instruction fault;
- `hlt` halts.

Only the halt exits with 0.

The model keeps the code's behaviour as written:
- `clg` ANDs the flags with 0x0c, so it clears H and L and leaves G (and E) alone;
- the low-byte move (L set) ORs the whole argument, unmasked, onto the register's high byte;
- the break check is a strict `>`, so the instruction at offset `b` itself is still executed.

Layout:
- `types.dfy`: bytes, words, the register file, outcomes and exit codes.
- `size_table.dfy`: the size table. `SizeOf` is its reference lookup and `Map` is the C loop.
- `opcodes.dfy`: opcode values and the dispatch `switch` as a classification.
- `flags.dfy`: the eight flag handlers on the flags byte, a per-flag reference table and lemmas about sequences of them.
- `move.dfy`: the `mov` handler on the register file.
- `codec.dfy`: argument decoding, the encoder `i`, and the memory layout the loader produces.
- `semantics.dfy`: `Step` (one `execinstr`) and `Run` (the `execute` loop) as functions. It also holds lemmas on when and how a run ends, and three concrete runs.
- `vm.dfy`: the machine as a class whose fields are updated in place. The handlers, `execinstr`, `execute` and the loader are methods, each proved against the functions above. It also contains `main`'s example run.

## Model

| member | source | states |
|---|---|---|
| Types.ExitCode | simple_vm.c:333-363 | exit code is 0 exactly for a halt, -1 for a segmentation fault or illegal instruction |
| SizeTable.SizeOf | simple_vm.c:366-383 | the size `map` returns: a nonzero size comes from a row of the table for that opcode |
| SizeTable.SizeOfFirstMatch | simple_vm.c:376-380 | the first row whose opcode matches decides the size |
| SizeTable.SizeOfAbsent | simple_vm.c:375-382 | an opcode with no row has size 0 |
| SizeTable.SizeOfZeroIffAbsent | simple_vm.c:366-383 | in a table without zero sizes, size 0 holds if and only if the opcode has no row |
| SizeTable.Map | simple_vm.c:366-383 | the linear search returns the reference lookup's size for every opcode |
| Opcodes.Classify | simple_vm.c:241-267 | opcodes 0x08..0x0f go to the move handler, each listed label to its own case, anything else to no case |
| Opcodes.ClassifyNopHalt | simple_vm.c:251-256 | with distinct labels, `nop` and `hlt` reach their own cases |
| Opcodes.ClassifyFlag | simple_vm.c:259-266 | with distinct labels, each flag opcode reaches its own handler |
| Flags.FlagStep | simple_vm.c:7-51 | the flags byte after one handler: a set instruction turns its flag on and keeps bits 4-7; a clear instruction zeroes bits 4-7 and ANDs the low four with its mask |
| Flags.SetOps | simple_vm.c:7-27 | a set instruction turns its flag on and leaves the other seven bits unchanged |
| Flags.ClearOps | simple_vm.c:31-51 | after a clear instruction bits 4-7 are zero |
| Flags.ClgKeepsGreater | simple_vm.c:37-39 | `clg` as written keeps G and E and clears H and L |
| Flags.FlagStepBit | simple_vm.c:7-51 | each handler's byte operation agrees, flag by flag, with the per-flag table of what it sets, clears or keeps |
| Flags.FlagStepEffects | simple_vm.c:7-51 | the same agreement for all four flags at once |
| Flags.RunFlagsBit | simple_vm.c:7-51 | after any sequence of flag instructions each flag holds the effect of the last instruction touching it, or its initial value |
| Flags.RunFlagsHighBitsZero | simple_vm.c:7-51 | bits 4-7 stay zero under every sequence of flag instructions |
| Flags.GreaterIsSticky | simple_vm.c:37-39 | once G is set, no sequence of flag instructions clears it |
| Move.MoveByte | simple_vm.c:84-89 | with neither flag the argument replaces the register; with H the argument's low byte becomes the high byte and the low byte is kept; with L the low byte comes from the argument and the high byte is the old one ORed with the argument's (unchanged when the argument fits a byte) |
| Move.MovStep | simple_vm.c:56-160 | fault exactly when H and L are both set or the opcode has no case; otherwise only the named register changes (sp takes the argument whole, 0x0f changes nothing), and ip and flags are kept |
| Move.MovStepRegister | simple_vm.c:76-141 | moves to ax..dx go through the H/L byte rules; sp ignores the flags |
| Codec.Word16 | simple_vm.c:205-208 | the decoded word has the first byte as its low byte and the second as its high byte |
| Codec.Word16Split | simple_vm.c:218-226 | a word splits into its low and high bytes and rebuilds to itself |
| Codec.Decode | simple_vm.c:180-236 | sizes 1, 2, 3 and 5 decode to zero, one byte, one word or two words of arguments; any other size is the segmentation fault |
| Codec.Encode | simple_vm.c:497-514 | the encoding is as long as the opcode's size and starts with the opcode |
| Codec.DecodeEncode | simple_vm.c:497-514 | decoding an encoded instruction, whatever follows it, gives back the arguments its size carries |
| Codec.Chunk | simple_vm.c:424-425 | the loader copies exactly the opcode's size of bytes |
| Codec.Concat | simple_vm.c:421-428 | the bytes the loader places for the first n instructions, each cut to its size; as long as the sum of their sizes |
| Codec.TotalSize | simple_vm.c:426-427 | how far `p` and the break grow over the first n instructions: the sum of their sizes, at most 255 bytes per instruction |
| Codec.TotalSizeMono | simple_vm.c:426-427 | loading more instructions never takes fewer bytes |
| Codec.ConcatAt | simple_vm.c:421-428 | instruction k lies, cut to its size, at the offset given by the sizes before it |
| Codec.FirstHaltFrom | simple_vm.c:428 | the first `hlt` at or after a position: it is a `hlt` and none comes before it |
| Codec.FirstHalt | simple_vm.c:421-428 | the first `hlt` of the list, the last instruction the loader copies |
| Codec.FirstHaltIs | simple_vm.c:421-428 | a `hlt` with none before it is the first `hlt`, so the index the loader is given is determined by the list |
| Semantics.Dispatch | simple_vm.c:241-267 | the handler call of the switch: never moves ip; a stop keeps the registers and is a halt only for `hlt` and an illegal instruction only for a move opcode; only moves and flag handlers change registers |
| Semantics.StepKeepsHighBitsZero | simple_vm.c:7-51 | no instruction sets any of flag bits 4-7 |
| Semantics.Step | simple_vm.c:163-270 | one instruction never moves ip; it carries on only with a valid size; a stop keeps the registers as they were |
| Semantics.StepSegv | simple_vm.c:230-235 | a segmentation fault happens exactly when the opcode's size is outside {1, 2, 3, 5} |
| Semantics.StepInstr | simple_vm.c:72-73 | an illegal instruction happens exactly for a validly sized move opcode with H and L both set, or for 0x0d or 0x0e |
| Semantics.StepHalt | simple_vm.c:254-256 | a halt happens exactly for a validly sized `hlt` |
| Semantics.StepUnmapped | simple_vm.c:241-267 | a validly sized opcode without a case changes nothing |
| Semantics.StepDecoded | simple_vm.c:173-248 | a validly sized instruction is dispatched on exactly the arguments its size decodes |
| Semantics.DispatchMoveAx | simple_vm.c:246-248 | `mov ax` writes its first argument into ax through the H/L rules and changes nothing else |
| Semantics.StepMoveAx | simple_vm.c:197-208 | a three-byte `mov ax` loads the little-endian word after the opcode through the H/L rules |
| Semantics.StepFlag | simple_vm.c:259-266 | a one-byte flag opcode applies its handler to the flags and nothing else |
| Semantics.StepHaltAt | simple_vm.c:254-255 | a one-byte `hlt` stops with a halt and unchanged registers |
| Semantics.Run | simple_vm.c:313-321 | the last fetch is never before the next offset to fetch |
| Semantics.RunPastBreak | simple_vm.c:314-318 | a cursor strictly past the break ends the run with a segmentation fault, ip already advanced |
| Semantics.RunContinue | simple_vm.c:313-321 | an instruction that carries on continues the run from its offset with its size |
| Semantics.RunStop | simple_vm.c:319-320 | an instruction that stops ends the run with its outcome and registers |
| Semantics.RunSegv | simple_vm.c:313-321 | the run ends in a segmentation fault exactly when its last cursor is past the break or lands on an opcode without a valid size |
| Semantics.RunInstr | simple_vm.c:313-321 | an illegal-instruction stop happens at a move opcode inside the program |
| Semantics.RunHalt | simple_vm.c:313-321 | the run halts exactly when it fetches a validly sized `hlt` at or before the break |
| Semantics.RunKeepsHighBitsZero | simple_vm.c:313-321 | flag bits 4-7, zero at the start, are zero when the run ends |
| Types.Advance | simple_vm.c:314 | `ip` moved by the instruction size, wrapping at 2^16: the plain sum when it fits, congruent to it modulo 2^16 always |
| Semantics.AdvanceTracks | simple_vm.c:314-315 | moving ip and the cursor by the same size keeps ip equal to the cursor modulo 2^16 |
| Semantics.RunIp | simple_vm.c:313-321 | when a run ends, ip is the last fetch offset modulo 2^16 |
| Semantics.ScenarioMoveSte | simple_vm.c:526-538 | `mov ax, 0x04; ste; hlt` halts with exit code 0, ax = 4, E set and G clear |
| Semantics.ScenarioHighByte | simple_vm.c:84-85 | `mov ax, 0xFF; sth; mov ax, 0x12; hlt` halts with ax = 0x12FF |
| Semantics.ScenarioHaltOnly | simple_vm.c:313-321 | a lone `hlt` halts at offset 0 with the registers untouched |
| Machine.VM.constructor | simple_vm.c:385-402 | a new machine has zero registers, flags, break and memory |
| Machine.VM.SetEqual | simple_vm.c:7-9 | `ste` applies its mask; E is set and the other flags keep their values |
| Machine.VM.SetGreater | simple_vm.c:13-15 | `stg` applies its mask; G is set and the other flags keep their values |
| Machine.VM.SetHigher | simple_vm.c:19-21 | `sth` applies its mask; H is set and the other flags keep their values |
| Machine.VM.SetLower | simple_vm.c:25-27 | `stl` applies its mask; L is set and the other flags keep their values |
| Machine.VM.ClearEqual | simple_vm.c:31-33 | `cle` applies its mask; E is cleared and the other flags keep their values |
| Machine.VM.ClearGreater | simple_vm.c:37-39 | `clg` applies mask 0x0c; H and L are cleared, G and E keep their values |
| Machine.VM.ClearHigher | simple_vm.c:43-45 | `clh` applies its mask; H is cleared and the other flags keep their values |
| Machine.VM.ClearLower | simple_vm.c:49-51 | `cll` applies its mask; L is cleared and the other flags keep their values |
| Machine.VM.FlagHandler | simple_vm.c:259-266 | the flag cases of the switch, each with its per-flag effect |
| Machine.VM.Mov | simple_vm.c:56-160 | the registers change as the move function says, or the fault is raised and nothing changes |
| Machine.VM.Handle | simple_vm.c:241-267 | the dispatch on the machine's registers agrees with the reference dispatch |
| Machine.VM.ExecInstr | simple_vm.c:163-270 | `execinstr` on the machine agrees with the reference step, including the segmentation fault for a bad size |
| Machine.VM.Execute | simple_vm.c:272-324 | the loop ends with the outcome and registers of the reference run, leaves the break alone |
| Machine.VM.Copy | simple_vm.c:425 | the bytes at the target offset are the source's first `n` and all other memory is unchanged |
| Machine.VM.LoadInstr | simple_vm.c:422-427 | one loader turn places the instruction, cut to its size, right after those already loaded, and grows the break by that size |
| Machine.VM.Load | simple_vm.c:404-432 | memory starts with the concatenated instructions up to the first `hlt`, the rest is unchanged, and the break and the returned end both grow by the total size |
| Machine.ExampleLayout | simple_vm.c:531-533 | the encoder lays out `mov ax, 0x04; ste; hlt` as five bytes with `hlt` last |
| Machine.ExampleMachine | simple_vm.c:523-533 | the machine `main` builds holds those five bytes from offset 0, its break is 5 and its registers are zero |
| Machine.ExampleRun | simple_vm.c:516-540 | `main`'s program halts with exit code 0, ax = 4, E set and G clear |

## Left out

- Printing is not modelled: the messages of `error`, the register dump on halt, the pointer printouts and `printhex` in `main`.
- Freeing the machine, `exit` and `malloc`/`errno` failure handling are not modelled. The `error` call is modelled as the machine stopping with an `Outcome`, which the exit code is read from.
- The header `simple_vm.h` is not part of this model. The opcode values other than the `mov` family and the contents of the size table are therefore parameters (`Codes`, `seq<SizeEntry>`). The only assumption about the opcodes is that the case labels are distinct and outside 0x08..0x0f, which a `switch` that compiles requires.
- `int8` and `int16` are taken as unsigned: fetched bytes and sizes are zero-extended. A size above 127 would be negative in C; here it is simply not a valid size.
- Types.ExitCode: gives -1 for the failure cases, the value `error` stores. The process status this becomes for an `int8` -1 is 0xFF.
- Machine.VM.Execute: requires the memory to extend 5 bytes past the break. The C decoder may read up to 4 bytes after the last fetch offset, and the model does not describe reading outside memory. The pointer arithmetic and `int32` casts of the break check are modelled as offsets from the start of memory.
- Machine.VM.Execute: the `do … while (*pp != hlt)` guard is not modelled as a separate exit. A `hlt` always ends the machine inside `execinstr` through `error`, so control never reaches that guard with `hlt`.
- Machine.VM.Load: requires the whole program, up to its first `hlt`, to fit in memory. The C loader copies past the end of the machine's memory when it does not, which is undefined behaviour and not modelled.
- Machine.VM.Load: the variadic argument list becomes a sequence of encoded instructions. The index of its first `hlt` is a ghost parameter, and instructions after it are never read, as in C. Each encoding holds at least its opcode byte and at least its size's worth of bytes, which the encoder guarantees.
- The instruction builders `i0`, `i1` and `i2` are folded into `Codec.Instruction` values. Their heap allocation and zero filling are not modelled.
- The `mov [addr]` case (0x0f) has no body in the source and changes nothing here.
