# A verified model of a two-pass assembler for a jump-less memory machine

The assembler translates a small instruction language into decimal machine
words for a machine whose only state is a flat memory and whose instruction
pointer is memory address 0. It has no jump opcode: `jmp` and `jmz` are
expanded into ordinary words that overwrite address 0. The translation runs
in three passes over global state, which is an instruction vector and a
label table:

1. **Parse.** Each source line, split on spaces, becomes at most one
   instruction, chosen by its first token.
2. **Assign addresses.** A running counter binds every `lbl` to the current
   address. It fills in each jump's `mem` field with the rendered counter
   address one past the jump's start.
3. **Encode.** Every instruction becomes zero or more words. Operands are
   rendered at least two digits wide, and labels are looked up in the table.

The model has one module per component:

- `Decimal`: `std::to_string` and `std::stoi` on digit strings.
- `Locations`: operands (`parseLoc`, `fixAddr`, `toAddr`).
- `Instructions`: the instruction variants.
- `Parsing`, `Addressing`, `Encoding`: each pass as a specification function, with lemmas about it.
- `Assembler`: class `State` holds the two globals as a `seq` field and a `map` field. Its three methods are the three loops of `main()`. Each method is proved against the matching specification function. `Assemble` runs the whole pipeline on a fresh state.

Behaviour worth knowing:

- `cpy` is parsed into a subtract instruction (main.cpp:114-115), although
  the header comment (main.cpp:23) describes it as a copy. The encoder's copy
  case (main.cpp:166-167) is never reached from parsed input.
- `jmz` reads only its first operand (main.cpp:130-131). Its source is
  value-initialised to address 0, and no second operand token needs to exist,
  although the header comment (main.cpp:33) says it tests `ss`.
- After adding 3 (or 5), a jump also takes the common increment for
  non-labels (main.cpp:142-154). So the counter reserves 4 addresses per
  `jmp` and 6 per `jmz`, while they emit 3 and 4 words. Label addresses
  therefore run ahead of output positions by one word for each earlier `jmp`
  and two for each earlier `jmz`. `EncodedLength` and `WordsPosition` state
  this drift exactly.
- A jump's `mem` is start + 1 in counter addresses. That is the output
  address of the jump's own second word only when no jump comes before it.
- The data directive's keyword is `def` (main.cpp:106). The header comment
  (main.cpp:18) calls it `set`.
- `jmz` never emits its target (main.cpp:184-188). Its closing copy reads
  from counter address start + 1 (`JmzWordsDecode`).
- The three lines `lbl @start`, `inc 00`, `jmp @start` assemble to `00000`,
  `00000`, `00`, `30002`: the jump starts at 1, and its field is 1 + 1.

## Model

| member | source | states |
|---|---|---|
| `Decimal.ToDecimal` | main.cpp:73-74 | the numeral `to_string` writes is all digits, has no leading zero, and has one digit exactly below 10 and at most two exactly below 100 |
| `Decimal.FromDecimal` | main.cpp:70 | `stoi` on a digit string: k digits denote a number below 10^k; the round trips with `to_string` are `FromToDecimal` and `ToFromDecimal` |
| `Decimal.FromToDecimal` | main.cpp:70-74 | reading a written numeral back gives the number (round trip of `to_string` and `stoi`) |
| `Decimal.FromDecimalLeadingZero` | main.cpp:70 | a leading zero does not change the value `stoi` reads |
| `Decimal.ToFromDecimal` | main.cpp:73-74 | every digit string without a superfluous leading zero is the `to_string` of its value (the other round trip) |
| `Locations.ParseLoc` | main.cpp:66-71 | a token is a label exactly when it starts with `@`, the label's name being the whole token; otherwise it is the address its digits spell |
| `Locations.FixAddr` | main.cpp:73-76 | 0..9 render as `0` then the digit, 10 and above as the plain numeral; the length is max(2, digits), and exactly 2 when the address is at most 99 |
| `Locations.ToAddr` | main.cpp:78-85 | an address renders as `fixAddr` of it, a bound label as `fixAddr` of its binding, an unbound label as `00` |
| `Locations.Resolve` | main.cpp:79-82 | the address a location denotes: its own address, a bound label's binding, 0 for an unbound label; `ToAddrDenotes` ties it to the rendered field |
| `Locations.FixAddrRoundTrip` | main.cpp:66-76 | the rendered field reads back as the same address, and `parseLoc` of it gives that absolute location |
| `Locations.ToAddrDenotes` | main.cpp:78-83 | a rendered operand spells the address the operand resolves to (0 for an unbound label); it is two characters exactly when that address is at most 99 |
| `Locations.ParseLocRoundTrip` | main.cpp:66-71 | parsing the written form of any well-formed location gives the location back |
| `Locations.ParseLocLeadingZero` | main.cpp:66-71 | a numeral and the same numeral with an extra leading zero parse to the same location |
| `Parsing.OperandsRead` | main.cpp:104-137 | only known keywords other than `hlt` read operands, and at most two |
| `Parsing.ParseLine` | main.cpp:96-137 | a line yields no instruction exactly when it is empty or its keyword is unknown; a parsed line is never a copy instruction, and a parsed jump has an empty `mem` |
| `Parsing.ParseProgram` | main.cpp:95-138 | the parse loop's result: the lines' instructions in order; characterised by `ParseStep`, `ParseProgramShape`, `ParseProgramAppend` and `ParseProgramAllKnown` |
| `Parsing.ParseStep` | main.cpp:95-138 | one iteration of the parse loop appends exactly what its line contributes, nothing for an empty line or an unknown keyword |
| `Parsing.ParseProgramShape` | main.cpp:95-138 | the parsed program has at most one instruction per line, never a copy instruction, and empty `mem` fields on its jumps |
| `Parsing.LineInstrsKnown` | main.cpp:96-137 | a line whose keyword is known contributes exactly one instruction, its parse |
| `Parsing.KeywordOf` | main.cpp:106-136 | the keyword of each instruction variant; always a keyword the parser knows |
| `Parsing.KeywordOperandsDetermine` | main.cpp:39-61 | an instruction is determined by its keyword, its operands, a label's name and a jump's `mem` |
| `Parsing.Unparse` | main.cpp:106-136 | an instruction written as a line starts with its keyword |
| `Parsing.OperandsReadOf` | main.cpp:106-136 | a line written with an instruction's keyword has every operand read, except the source of `jmz`; `lbl` reads one token |
| `Parsing.ParseLineRoundTrip` | main.cpp:96-137 | writing out any instruction the parser can produce and parsing the line gives it back |
| `Parsing.ParseLineKeyword` | main.cpp:106-136 | each known keyword parses to the variant it names (`cpy` to subtract), with the operand tokens read as its operands, source address 0 for `jmz`, and the verbatim name for `lbl` |
| `Parsing.CpyParsesAsSub` | main.cpp:112-115 | `cpy t s` parses to exactly what `sub t s` parses to, a subtract instruction |
| `Parsing.JmzIgnoresSource` | main.cpp:130-131 | `jmz t ...` parses to a jmz with target t and source address 0, whatever follows t |
| `Parsing.LabelRecordedVerbatim` | main.cpp:134-136 | `lbl x` records the label name x whether or not it starts with `@` |
| `Parsing.ParseProgramAppend` | main.cpp:95-138 | parsing two pieces of source one after the other gives the two parses concatenated |
| `Parsing.ParseProgramAllKnown` | main.cpp:95-138 | when every line has a known keyword, the k-th instruction is the parse of the k-th line |
| `Instructions.Operands` | main.cpp:39-58 | the operand locations of each variant in source order: at most two, none exactly for `hlt` and `lbl` |
| `Addressing.Size` | main.cpp:142-154 | only a label leaves the counter where it is |
| `Addressing.EndAddr` | main.cpp:140-155 | the counter after the pass; `StartAddrStep`, `StartAddrMonotone` and `EncodedLength` characterise it |
| `Addressing.StartAddr` | main.cpp:140-155 | the counter when the pass reaches instruction k; `NonLabelStartsIncrease` and `LabelMarksNext` characterise it |
| `Addressing.Assigned` | main.cpp:140-155 | the instruction list after the pass, one entry per input; `AssignedAt` gives each entry |
| `Addressing.LabelTable` | main.cpp:150-151 | the table the pass builds; `LabelTableBinding`, `LabelTableDomain` and `LabelTableBounded` characterise it |
| `Addressing.WithMem` | main.cpp:142-147 | the pass sets a jump's `mem` to the rendered address one past the jump's start, leaves every other field and every other instruction unchanged, and keeps the size |
| `Addressing.AssignedAt` | main.cpp:140-155 | after the pass the k-th instruction is the k-th input with its `mem` filled from its own start address |
| `Addressing.StartAddrStep` | main.cpp:140-155 | the counter advances by the size of each instruction it walks over: 1 for ordinary instructions, 4 for `jmp`, 6 for `jmz`, 0 for `lbl` |
| `Addressing.StartAddrMonotone` | main.cpp:140-155 | an instruction's reserved range ends at or before the start of every later instruction |
| `Addressing.NonLabelStartsIncrease` | main.cpp:140-155 | non-label instructions get strictly increasing, hence distinct, start addresses |
| `Addressing.LabelMarksNext` | main.cpp:150-153 | a run of labels takes no address: the first non-label after them starts where the first of them was bound |
| `Addressing.LabelTableBinding` | main.cpp:150-151 | a label is bound to the counter at its last declaration; a later `lbl` of the same name overwrites an earlier one |
| `Addressing.LabelTableDomain` | main.cpp:150-151 | a name is in the table exactly when some `lbl` declares it |
| `Addressing.LabelTableBounded` | main.cpp:140-155 | every bound address is at most the final counter |
| `Addressing.AssignIdempotent` | main.cpp:140-155 | running the pass over its own output changes neither the instructions, the table nor the final counter |
| `Addressing.AssignedPrefix` | main.cpp:140-155 | the pass over a prefix agrees with the pass over the whole program on that prefix |
| `Addressing.SameSizesSameEnd` | main.cpp:142-154 | programs with the same sizes position by position reach the same final counter |
| `Encoding.EncodeInstr` | main.cpp:157-191 | the word table of the encode loop; `WordCount`, `OrdinaryWordDecodes`, `DefWordDenotes`, `JmpWordsDecode` and `JmzWordsDecode` characterise it |
| `Encoding.EncodeAll` | main.cpp:157-192 | the words of a program in order; `EncodeAllAppend`, `EncodedLength` and `WordsPosition` characterise it |
| `Encoding.WordCount` | main.cpp:157-191 | `lbl` emits no word, `jmp` three, `jmz` four, every other instruction one; a `jmp` emits one word fewer than it reserves and a `jmz` two |
| `Encoding.OrdinaryWordOpcode` | main.cpp:160-179 | a single-word instruction's word is all digits, at least 5 long, and starts with its opcode digit (`inc` 0 ... `hlt` 9) |
| `Encoding.FieldsDecode` | main.cpp:160-179 | an opcode digit followed by two two-digit fields reads back as that opcode and the two fields' values |
| `Encoding.OrdinaryWordDecodes` | main.cpp:160-190 | with operands at most 99, a single-word instruction emits one 5-digit word that reads back as its opcode, its target address and its source address (`skp` as opcode 4 with target 0) |
| `Encoding.DefWordDenotes` | main.cpp:158-159 | `def` emits one unprefixed word spelling the address of its operand, two digits wide exactly when that address is at most 99 |
| `Encoding.JmpWordsDecode` | main.cpp:180-183 | when start + 1 and the target address are at most 99, a `jmp` whose counter start is `start` emits `00000`, its target address, then a copy into address 0 from start + 1 |
| `Encoding.JmzWordsDecode` | main.cpp:184-188 | when start + 1 and the source address are at most 99, a `jmz` whose counter start is `start` emits `00000`, a conditional increment of address 0 on its source, `00000`, then a copy into address 0 from start + 1 |
| `Encoding.JmzIgnoresTarget` | main.cpp:184-188 | a `jmz`'s output does not depend on its target |
| `Encoding.EncodeAllAppend` | main.cpp:157-192 | the words of two programs in sequence are the words of each, concatenated |
| `Encoding.EncodedLength` | main.cpp:140-192 | the output length plus one word per `jmp` and two per `jmz` equals the final counter |
| `Encoding.NoSlackWithoutJumps` | main.cpp:140-192 | output length and final counter agree exactly when the program has no jump |
| `Encoding.WordsPosition` | main.cpp:140-192 | instruction k's words appear in the output right after the words of the instructions before it, and that position lags k's start address by the jump slack before it |
| `Assembler.Assembled` | main.cpp:94-192 | the three passes composed; `Assemble` is proved to output it and `WorkedExample` evaluates it |
| `Assembler.State.constructor` | main.cpp:63-64 | the instruction list and the label table start empty |
| `Assembler.State.ParseLines` | main.cpp:95-138 | the parse loop appends exactly the parse of the lines and leaves the label table alone |
| `Assembler.State.AssignAddresses` | main.cpp:140-155 | the assignment loop, updating jumps in place, leaves the instructions as `Assigned` of the old ones and the table as their `LabelTable` |
| `Assembler.State.Encode` | main.cpp:157-192 | the encode loop outputs `EncodeAll` of the instructions and the table, changing nothing |
| `Assembler.Assemble` | main.cpp:94-192 | the three loops on a fresh state output the parsed, assigned and encoded source |
| `Assembler.EncodeStep` | main.cpp:157-192 | one iteration of the encode loop appends exactly the words of the current instruction |
| `Assembler.AssignStep` | main.cpp:140-155 | one iteration of the assignment loop extends the counter, the assigned prefix and the table by one instruction |
| `Assembler.LabelResolvesToNextInstruction` | main.cpp:140-183 | a label reference resolves to the start address of the first non-label instruction after the label's last declaration |
| `Assembler.WorkedExample` | main.cpp:94-192 | `lbl @start`, `inc 00`, `jmp @start` assembles to `00000`, `00000`, `00`, `30002` |
| `Assembler.ExampleParse` | main.cpp:95-138 | that source parses to a label, an `inc` of address 0 and a `jmp` to `@start` |
| `Assembler.ExampleAssign` | main.cpp:140-155 | that program binds `@start` to 0 and gives the jump `mem` `02` |
| `Assembler.ExampleEncode` | main.cpp:157-192 | the assigned program encodes to the four words above |
| `Assembler.SingleWordExamples` | main.cpp:174-190 | `skp 05` encodes to `40005` and `out 10` to `70010` |

## Left out

- Command-line handling, file opening, reading, writing and closing (main.cpp:88-92, 194-195) are not modelled. The input is a sequence of lines, each already split into tokens; the output is the sequence of output lines without their newlines.
- Splitting a line with `std::getline(..., ' ')` (main.cpp:101-102) is not modelled. An empty line is an empty token list, which is also how the source skips it.
- `std::stoi` is modelled only on all-digit tokens (`ValidOperand`), which give unbounded naturals. Its prefix parsing, signs, leading whitespace, exceptions and 32-bit range are not modelled.
- Operand tokens that the source reads but that do not exist are undefined behaviour in the source. The model excludes them by the precondition `LineOk`.
- The diagnostic printed for a label without `@` (main.cpp:135) is left out; it does not affect the output.
- The running counter and the label table use unbounded naturals, not the source's `int`, so overflow is not modelled.
- `labelMap[name]` during encoding inserts a 0 entry for an unbound label. The model treats it as a lookup defaulting to 0. That gives the same output, because the table is only read from then on.
- The `"XX"` fallback of `toAddr` (main.cpp:84) cannot be reached, because a location is always one of its two alternatives. The model has no such branch.
- What the words do when the target machine runs them is not modelled. The lemmas read words back only as opcode, target and source fields.
