/** The encode phase: each instruction becomes zero or more decimal machine
    words, operands rendered through the label table. */
module Encoding {
  import opened Decimal
  import opened Locations
  import opened Instructions
  import opened Addressing
  import opened Sequences

  /** The words one instruction emits. */
  function EncodeInstr(i: Instr, labels: LabelMap): (words: seq<string>)
  {
    match i
    case IDef(v) => [ToAddr(v, labels)]
    case IInc(t) => ["0" + ToAddr(t, labels) + "00"]
    case IAdd(t, s) => ["1" + ToAddr(t, labels) + ToAddr(s, labels)]
    case ISub(t, s) => ["2" + ToAddr(t, labels) + ToAddr(s, labels)]
    case ICpy(t, s) => ["3" + ToAddr(t, labels) + ToAddr(s, labels)]
    case IInz(t, s) => ["4" + ToAddr(t, labels) + ToAddr(s, labels)]
    case IGet(t, s) => ["5" + ToAddr(t, labels) + ToAddr(s, labels)]
    case ISto(t, s) => ["6" + ToAddr(t, labels) + ToAddr(s, labels)]
    case IOut(s) => ["700" + ToAddr(s, labels)]
    case IInp(t) => ["8" + ToAddr(t, labels) + "00"]
    case IHlt => ["90000"]
    case ILbl(_) => []
    case IJmp(t, m) => ["00000", ToAddr(t, labels), "300" + m]
    case IJmz(_, s, m) => ["00000", "400" + ToAddr(s, labels), "00000", "300" + m]
    case ISkp(s) => ["400" + ToAddr(s, labels)]
  }

  /** The words of a whole program: the words of each instruction, in order. */
  function EncodeAll(prog: seq<Instr>, labels: LabelMap): seq<string>
  {
    FlatMap((i: Instr) => EncodeInstr(i, labels), prog)
  }

  /** A five-digit word read as the target machine reads it: an opcode digit,
      a target address and a source address. */
  datatype Word = Word(op: nat, target: nat, source: nat)

  predicate IsWord(w: string) {
    |w| == 5 && AllDigits(w)
  }

  function DecodeWord(w: string): Word
    requires IsWord(w)
  {
    Word(DigitValue(w[0]), FromDecimal(w[1..3]), FromDecimal(w[3..5]))
  }

  /** The opcode digit of each single-word instruction (the data directive
      `def` has none). */
  function Opcode(i: Instr): (op: nat)
    requires IsOrdinary(i) && !i.IDef?
    ensures op <= 9
  {
    match i
    case IInc(_) => 0
    case IAdd(_, _) => 1
    case ISub(_, _) => 2
    case ICpy(_, _) => 3
    case IInz(_, _) => 4
    case IGet(_, _) => 5
    case ISto(_, _) => 6
    case IOut(_) => 7
    case IInp(_) => 8
    case IHlt => 9
    case ISkp(_) => 4
  }

  /** The address in a single-word instruction's target field; 0 where the
      instruction has no target. */
  function TargetOf(i: Instr, labels: LabelMap): nat
    requires IsOrdinary(i) && !i.IDef?
  {
    match i
    case IInc(t) => Resolve(t, labels)
    case IAdd(t, _) => Resolve(t, labels)
    case ISub(t, _) => Resolve(t, labels)
    case ICpy(t, _) => Resolve(t, labels)
    case IInz(t, _) => Resolve(t, labels)
    case IGet(t, _) => Resolve(t, labels)
    case ISto(t, _) => Resolve(t, labels)
    case IOut(_) => 0
    case IInp(t) => Resolve(t, labels)
    case IHlt => 0
    case ISkp(_) => 0
  }

  /** The address in a single-word instruction's source field; 0 where the
      instruction has no source. */
  function SourceOf(i: Instr, labels: LabelMap): nat
    requires IsOrdinary(i) && !i.IDef?
  {
    match i
    case IInc(_) => 0
    case IAdd(_, s) => Resolve(s, labels)
    case ISub(_, s) => Resolve(s, labels)
    case ICpy(_, s) => Resolve(s, labels)
    case IInz(_, s) => Resolve(s, labels)
    case IGet(_, s) => Resolve(s, labels)
    case ISto(_, s) => Resolve(s, labels)
    case IOut(s) => Resolve(s, labels)
    case IInp(_) => 0
    case IHlt => 0
    case ISkp(s) => Resolve(s, labels)
  }

  /** Words the counter reserves beyond those a jump emits. */
  function Slack(i: Instr): (n: nat)
    ensures n > 0 <==> IsJump(i)
  {
    match i
    case IJmp(_, _) => 1
    case IJmz(_, _, _) => 2
    case _ => 0
  }

  function ProgramSlack(prog: seq<Instr>): nat
  {
    if prog == [] then 0 else ProgramSlack(prog[..|prog| - 1]) + Slack(prog[|prog| - 1])
  }

  lemma ZeroField()
    ensures AllDigits("00") && FromDecimal("00") == 0
  {
    assert "00"[..1] == "0";
    assert "0"[..0] == "";
  }

  /** How many words each instruction emits: none for a label, three for
      `jmp`, four for `jmz`, one for every other instruction; a jump emits
      fewer words than the counter reserves for it. */
  lemma WordCount(i: Instr, labels: LabelMap)
    ensures |EncodeInstr(i, labels)| == if i.ILbl? then 0 else if i.IJmp? then 3 else if i.IJmz? then 4 else 1
    ensures |EncodeInstr(i, labels)| + Slack(i) == Size(i)
  {
  }

  /** A word made of an opcode digit and two two-digit fields reads back as
      that digit and the two fields' values. */
  lemma FieldsDecode(op: char, t: string, s: string)
    requires IsDigit(op) && |t| == 2 && |s| == 2 && AllDigits(t) && AllDigits(s)
    ensures IsWord([op] + t + s)
    ensures DecodeWord([op] + t + s) == Word(DigitValue(op), FromDecimal(t), FromDecimal(s))
  {
    var w := [op] + t + s;
    assert w[1..3] == t && w[3..5] == s;
  }

  /** An opcode digit followed by two rendered operands. */
  lemma TwoFieldWord(op: char, t: Location, s: Location, labels: LabelMap)
    requires IsDigit(op) && Resolve(t, labels) <= 99 && Resolve(s, labels) <= 99
    ensures IsWord([op] + ToAddr(t, labels) + ToAddr(s, labels))
    ensures DecodeWord([op] + ToAddr(t, labels) + ToAddr(s, labels)) ==
      Word(DigitValue(op), Resolve(t, labels), Resolve(s, labels))
  {
    ToAddrDenotes(t, labels);
    ToAddrDenotes(s, labels);
    FieldsDecode(op, ToAddr(t, labels), ToAddr(s, labels));
  }

  /** An opcode digit, a rendered target and an empty source field. */
  lemma TargetFieldWord(op: char, t: Location, labels: LabelMap)
    requires IsDigit(op) && Resolve(t, labels) <= 99
    ensures IsWord([op] + ToAddr(t, labels) + "00")
    ensures DecodeWord([op] + ToAddr(t, labels) + "00") == Word(DigitValue(op), Resolve(t, labels), 0)
  {
    ZeroField();
    ToAddrDenotes(t, labels);
    FieldsDecode(op, ToAddr(t, labels), "00");
  }

  /** An opcode digit, an empty target field and a rendered source. */
  lemma SourceFieldWord(op: char, s: Location, labels: LabelMap)
    requires IsDigit(op) && Resolve(s, labels) <= 99
    ensures IsWord([op, '0', '0'] + ToAddr(s, labels))
    ensures DecodeWord([op, '0', '0'] + ToAddr(s, labels)) == Word(DigitValue(op), 0, Resolve(s, labels))
  {
    ZeroField();
    ToAddrDenotes(s, labels);
    FieldsDecode(op, "00", ToAddr(s, labels));
    assert [op, '0', '0'] + ToAddr(s, labels) == [op] + "00" + ToAddr(s, labels);
  }

  /** A single-word instruction whose operands resolve to at most 99 emits a
      five-digit word carrying its opcode digit, its target address and its
      source address. */
  lemma OrdinaryWordDecodes(i: Instr, labels: LabelMap)
    requires IsOrdinary(i) && !i.IDef?
    requires TargetOf(i, labels) <= 99 && SourceOf(i, labels) <= 99
    ensures |EncodeInstr(i, labels)| == 1
    ensures IsWord(EncodeInstr(i, labels)[0])
    ensures DecodeWord(EncodeInstr(i, labels)[0]) == Word(Opcode(i), TargetOf(i, labels), SourceOf(i, labels))
  {
    if i.IAdd? || i.ISub? || i.ICpy? || i.IInz? || i.IGet? || i.ISto? {
      BinaryWordDecodes(i, labels);
    } else {
      UnaryWordDecodes(i, labels);
    }
  }

  /** The two-operand case of `OrdinaryWordDecodes`. */
  lemma BinaryWordDecodes(i: Instr, labels: LabelMap)
    requires i.IAdd? || i.ISub? || i.ICpy? || i.IInz? || i.IGet? || i.ISto?
    requires Resolve(i.tt, labels) <= 99 && Resolve(i.ss, labels) <= 99
    ensures |EncodeInstr(i, labels)| == 1
    ensures IsWord(EncodeInstr(i, labels)[0])
    ensures DecodeWord(EncodeInstr(i, labels)[0]) == Word(Opcode(i), TargetOf(i, labels), SourceOf(i, labels))
  {
    match i
    case IAdd(t, s) => TwoFieldWord('1', t, s, labels);
    case ISub(t, s) => TwoFieldWord('2', t, s, labels);
    case ICpy(t, s) => TwoFieldWord('3', t, s, labels);
    case IInz(t, s) => TwoFieldWord('4', t, s, labels);
    case IGet(t, s) => TwoFieldWord('5', t, s, labels);
    case ISto(t, s) => TwoFieldWord('6', t, s, labels);
  }

  /** The case of `OrdinaryWordDecodes` for instructions with at most one operand. */
  lemma UnaryWordDecodes(i: Instr, labels: LabelMap)
    requires i.IInc? || i.IOut? || i.IInp? || i.IHlt? || i.ISkp?
    requires TargetOf(i, labels) <= 99 && SourceOf(i, labels) <= 99
    ensures |EncodeInstr(i, labels)| == 1
    ensures IsWord(EncodeInstr(i, labels)[0])
    ensures DecodeWord(EncodeInstr(i, labels)[0]) == Word(Opcode(i), TargetOf(i, labels), SourceOf(i, labels))
  {
    match i
    case IInc(t) => TargetFieldWord('0', t, labels);
    case IOut(s) => SourceFieldWord('7', s, labels);
    case IInp(t) => TargetFieldWord('8', t, labels);
    case IHlt =>
      ZeroField();
      FieldsDecode('9', "00", "00");
      assert "90000" == ['9'] + "00" + "00";
    case ISkp(s) => SourceFieldWord('4', s, labels);
  }

  /** A `def` word is the bare operand field: it spells the address its operand
      resolves to, in two digits when that address is at most 99. */
  lemma DefWordDenotes(v: Location, labels: LabelMap)
    ensures |EncodeInstr(IDef(v), labels)| == 1
    ensures FromDecimal(EncodeInstr(IDef(v), labels)[0]) == Resolve(v, labels)
    ensures Resolve(v, labels) <= 99 <==> |EncodeInstr(IDef(v), labels)[0]| == 2
  {
    ToAddrDenotes(v, labels);
  }

  /** A `jmp` whose counter start is `start` emits an increment of address 0
      (the instruction pointer), the target address as a bare data word, and a
      copy into address 0 from counter address start + 1. That is the address
      of the data word only when no jump precedes this one, because the counter
      runs ahead of the output position by each earlier jump's slack
      (`WordsPosition`). */
  lemma JmpWordsDecode(t: Location, start: nat, labels: LabelMap)
    requires start + 1 <= 99 && Resolve(t, labels) <= 99
    ensures var words := EncodeInstr(IJmp(t, FixAddr(start + 1)), labels);
      |words| == 3 &&
      IsWord(words[0]) && DecodeWord(words[0]) == Word(0, 0, 0) &&
      FromDecimal(words[1]) == Resolve(t, labels) && |words[1]| == 2 &&
      IsWord(words[2]) && DecodeWord(words[2]) == Word(3, 0, start + 1)
  {
    ZeroField();
    ToAddrDenotes(t, labels);
    FixAddrRoundTrip(start + 1);
    FieldsDecode('0', "00", "00");
    assert "00000" == ['0'] + "00" + "00";
    FieldsDecode('3', "00", FixAddr(start + 1));
    assert "300" + FixAddr(start + 1) == ['3'] + "00" + FixAddr(start + 1);
  }

  /** A `jmz` whose counter start is `start` emits an increment of address 0,
      a conditional increment of address 0 on its source, another increment of
      address 0, and a copy into address 0 from counter address start + 1.
      That is the address of its own conditional word only when no jump
      precedes it. Its target is never emitted. */
  lemma JmzWordsDecode(t: Location, s: Location, start: nat, labels: LabelMap)
    requires start + 1 <= 99 && Resolve(s, labels) <= 99
    ensures var words := EncodeInstr(IJmz(t, s, FixAddr(start + 1)), labels);
      |words| == 4 &&
      (forall k :: 0 <= k < 4 ==> IsWord(words[k])) &&
      DecodeWord(words[0]) == Word(0, 0, 0) &&
      DecodeWord(words[1]) == Word(4, 0, Resolve(s, labels)) &&
      DecodeWord(words[2]) == Word(0, 0, 0) &&
      DecodeWord(words[3]) == Word(3, 0, start + 1)
  {
    ZeroField();
    ToAddrDenotes(s, labels);
    FixAddrRoundTrip(start + 1);
    FieldsDecode('0', "00", "00");
    assert "00000" == ['0'] + "00" + "00";
    FieldsDecode('4', "00", ToAddr(s, labels));
    assert "400" + ToAddr(s, labels) == ['4'] + "00" + ToAddr(s, labels);
    FieldsDecode('3', "00", FixAddr(start + 1));
    assert "300" + FixAddr(start + 1) == ['3'] + "00" + FixAddr(start + 1);
  }

  /** The target of a `jmz` has no effect on what it emits. */
  lemma JmzIgnoresTarget(t1: Location, t2: Location, s: Location, m: string, labels: LabelMap)
    ensures EncodeInstr(IJmz(t1, s, m), labels) == EncodeInstr(IJmz(t2, s, m), labels)
  {
  }

  /** A single-word instruction's word starts with its opcode digit and is at
      least five characters long, whatever its operands resolve to. */
  lemma OrdinaryWordOpcode(i: Instr, labels: LabelMap)
    requires IsOrdinary(i) && !i.IDef?
    ensures |EncodeInstr(i, labels)| == 1
    ensures |EncodeInstr(i, labels)[0]| >= 5 && AllDigits(EncodeInstr(i, labels)[0])
    ensures EncodeInstr(i, labels)[0][0] == DigitChar(Opcode(i))
  {
  }

  /** Encoding distributes over concatenation of programs. */
  lemma EncodeAllAppend(a: seq<Instr>, b: seq<Instr>, labels: LabelMap)
    ensures EncodeAll(a + b, labels) == EncodeAll(a, labels) + EncodeAll(b, labels)
  {
    FlatMapAppend((i: Instr) => EncodeInstr(i, labels), a, b);
  }

  /** The output is shorter than the address space the counter reserved by
      one word per `jmp` and two per `jmz`. */
  lemma {:induction false} EncodedLength(prog: seq<Instr>, labels: LabelMap)
    ensures |EncodeAll(prog, labels)| + ProgramSlack(prog) == EndAddr(prog)
  {
    if prog != [] {
      EncodedLength(prog[..|prog| - 1], labels);
      WordCount(prog[|prog| - 1], labels);
    }
  }

  /** The reservation and the output agree exactly when the program has no jump. */
  lemma {:induction false} NoSlackWithoutJumps(prog: seq<Instr>)
    ensures ProgramSlack(prog) == 0 <==> forall k :: 0 <= k < |prog| ==> !IsJump(prog[k])
  {
    if prog != [] {
      var init := prog[..|prog| - 1];
      NoSlackWithoutJumps(init);
      if ProgramSlack(prog) == 0 {
        forall k | 0 <= k < |prog| ensures !IsJump(prog[k]) {
          if k < |init| {
            assert prog[k] == init[k];
          }
        }
      }
    }
  }

  /** Instruction k's words sit in the output at the position given by the
      words before it, which lags its start address by the slack of the jumps
      before it. */
  lemma WordsPosition(prog: seq<Instr>, labels: LabelMap, k: nat)
    requires k < |prog|
    ensures var pos := |EncodeAll(prog[..k], labels)|;
      var words := EncodeInstr(prog[k], labels);
      pos + |words| <= |EncodeAll(prog, labels)| &&
      EncodeAll(prog, labels)[pos..pos + |words|] == words &&
      pos + ProgramSlack(prog[..k]) == StartAddr(prog, k)
  {
    assert prog == prog[..k] + [prog[k]] + prog[k + 1..];
    EncodeAllAppend(prog[..k] + [prog[k]], prog[k + 1..], labels);
    EncodeAllAppend(prog[..k], [prog[k]], labels);
    assert EncodeAll([prog[k]], labels) == EncodeInstr(prog[k], labels) by {
      assert [prog[k]][..0] == [];
    }
    EncodedLength(prog[..k], labels);
  }
}
