/** The assembler driver: the instruction list and the label table, and the
    three passes over them (parse, assign addresses, encode). */
module Assembler {
  import opened Decimal
  import opened Locations
  import opened Instructions
  import opened Parsing
  import opened Addressing
  import opened Encoding
  import opened Sequences

  /** The whole translation as a function of the tokenised source lines. */
  function Assembled(lines: seq<seq<string>>): seq<string>
    requires ProgramOk(lines)
  {
    var prog := ParseProgram(lines);
    EncodeAll(Assigned(prog), LabelTable(prog))
  }

  /** The assembler's state: the instruction list and the label table. */
  class State {
    var instrs: seq<Instr>
    var labelMap: LabelMap

    constructor ()
      ensures instrs == [] && labelMap == map[]
    {
      instrs := [];
      labelMap := map[];
    }

    /** The parse loop: appends the instruction of every line that has one. */
    method ParseLines(lines: seq<seq<string>>)
      requires ProgramOk(lines)
      modifies this
      ensures instrs == old(instrs) + ParseProgram(lines)
      ensures labelMap == old(labelMap)
    {
      var i := 0;
      while i < |lines|
        invariant 0 <= i <= |lines|
        invariant instrs == old(instrs) + ParseProgram(lines[..i])
        invariant labelMap == old(labelMap)
      {
        ParseStep(lines, i);
        var tokens := lines[i];
        if tokens != [] {
          match ParseLine(tokens)
          case Some(ins) =>
            instrs := instrs + [ins];
          case None =>
        }
        i := i + 1;
      }
      assert lines[..i] == lines;
    }

    /** The address-assignment loop: fills in each jump's `mem` in place and
        binds every label to the running counter. */
    method AssignAddresses()
      requires labelMap == map[]
      modifies this
      ensures instrs == Assigned(old(instrs))
      ensures labelMap == LabelTable(old(instrs))
    {
      ghost var prog := instrs;
      var curAddr := 0;
      var i := 0;
      while i < |instrs|
        invariant 0 <= i <= |prog| == |instrs|
        invariant curAddr == EndAddr(prog[..i])
        invariant instrs[..i] == Assigned(prog[..i])
        invariant instrs[i..] == prog[i..]
        invariant labelMap == LabelTable(prog[..i])
      {
        AssignStep(prog, i, instrs);
        var ins := instrs[i];
        if ins.IJmp? {
          instrs := instrs[i := IJmp(ins.tt, FixAddr(curAddr + 1))];
          curAddr := curAddr + 3;
        } else if ins.IJmz? {
          instrs := instrs[i := IJmz(ins.tt, ins.ss, FixAddr(curAddr + 1))];
          curAddr := curAddr + 5;
        }
        if ins.ILbl? {
          labelMap := labelMap[ins.name := curAddr];
        } else {
          curAddr := curAddr + 1;
        }
        i := i + 1;
      }
      assert prog[..i] == prog;
    }

    /** The encode loop: the output lines for the current instructions and
        label table. It changes nothing, so encoding twice gives the same
        output. */
    method Encode() returns (out: seq<string>)
      ensures out == EncodeAll(instrs, labelMap)
    {
      out := [];
      var i := 0;
      while i < |instrs|
        invariant 0 <= i <= |instrs|
        invariant out == EncodeAll(instrs[..i], labelMap)
      {
        EncodeStep(instrs, i, labelMap);
        out := out + EncodeInstr(instrs[i], labelMap);
        i := i + 1;
      }
      assert instrs[..i] == instrs;
    }
  }

  /** The translation of one source file: the three passes over a fresh state. */
  method Assemble(lines: seq<seq<string>>) returns (out: seq<string>)
    requires ProgramOk(lines)
    ensures out == Assembled(lines)
  {
    var st := new State();
    st.ParseLines(lines);
    assert st.instrs == ParseProgram(lines);
    st.AssignAddresses();
    out := st.Encode();
  }

  /** One step of the encode loop, in terms of the function that describes the
      whole pass. */
  lemma EncodeStep(prog: seq<Instr>, i: nat, labels: LabelMap)
    requires i < |prog|
    ensures EncodeAll(prog[..i + 1], labels) == EncodeAll(prog[..i], labels) + EncodeInstr(prog[i], labels)
  {
    FlatMapStep((ins: Instr) => EncodeInstr(ins, labels), prog, i);
  }

  lemma UpdateSlices<T>(s: seq<T>, i: nat, x: T)
    requires i < |s|
    ensures s[i := x][..i + 1] == s[..i] + [x]
    ensures s[i := x][i + 1..] == s[i + 1..] == s[i..][1..]
  {
  }

  /** One step of the address-assignment pass, in terms of the functions that
      describe the whole pass: the counter grows by the instruction's size, the
      table gains its binding, and the instruction list gains its assigned
      form, which differs from it at most at index i. */
  lemma AssignStep(prog: seq<Instr>, i: nat, cur: seq<Instr>)
    requires i < |prog| == |cur|
    requires cur[..i] == Assigned(prog[..i]) && cur[i..] == prog[i..]
    ensures cur[i] == prog[i]
    ensures EndAddr(prog[..i + 1]) == EndAddr(prog[..i]) + Size(prog[i])
    ensures LabelTable(prog[..i + 1])
         == if prog[i].ILbl? then LabelTable(prog[..i])[prog[i].name := EndAddr(prog[..i])]
            else LabelTable(prog[..i])
    ensures var next := cur[i := WithMem(prog[i], EndAddr(prog[..i]))];
      next[..i + 1] == Assigned(prog[..i + 1]) && next[i + 1..] == prog[i + 1..]
    ensures !IsJump(prog[i]) ==> cur[..i + 1] == Assigned(prog[..i + 1]) && cur[i + 1..] == prog[i + 1..]
  {
    assert prog[..i + 1][..i] == prog[..i];
    assert cur[i] == cur[i..][0];
    var x := WithMem(prog[i], EndAddr(prog[..i]));
    assert Assigned(prog[..i + 1]) == Assigned(prog[..i]) + [x];
    UpdateSlices(cur, i, x);
    assert prog[i + 1..] == prog[i..][1..];
    assert cur[i + 1..] == cur[i..][1..];
    if !IsJump(prog[i]) {
      assert cur[i := x] == cur;
    }
  }

  /** The label table after the passes binds every declared label to the start
      address of the first non-label instruction after its last declaration. */
  lemma LabelResolvesToNextInstruction(lines: seq<seq<string>>, k: nat, j: nat)
    requires ProgramOk(lines)
    requires var prog := ParseProgram(lines);
      k < j < |prog| && prog[k].ILbl? &&
      (forall m :: k < m < |prog| ==> prog[m] != ILbl(prog[k].name)) &&
      (forall m :: k <= m < j ==> prog[m].ILbl?)
    ensures var prog := ParseProgram(lines);
      Resolve(LLabel(prog[k].name), LabelTable(prog)) == StartAddr(prog, j)
  {
    var prog := ParseProgram(lines);
    LabelTableBinding(prog, k);
    LabelMarksNext(prog, k, j);
  }

  /** `lbl @start`, `inc 00`, `jmp @start` assembles to `00000`, `00000`,
      `00`, `30002`: the label is bound to 0, and the jump, starting at 1,
      copies from address 2. */
  lemma WorkedExample()
    ensures ProgramOk([["lbl", "@start"], ["inc", "00"], ["jmp", "@start"]])
    ensures Assembled([["lbl", "@start"], ["inc", "00"], ["jmp", "@start"]])
         == ["00000", "00000", "00", "30002"]
  {
    ExampleParse();
    ExampleAssign();
    ExampleEncode();
  }

  lemma ExampleEncode()
    ensures EncodeAll([ILbl("@start"), IInc(LAddr(0)), IJmp(LLabel("@start"), "02")], map["@start" := 0])
         == ["00000", "00000", "00", "30002"]
  {
    var asg := [ILbl("@start"), IInc(LAddr(0)), IJmp(LLabel("@start"), "02")];
    var labels := map["@start" := 0];
    assert asg[..2][..1] == asg[..1] && asg[..1][..0] == [] && asg[..3][..2] == asg[..2] && asg[..3] == asg;
    assert DigitChar(0) == '0';
    assert FixAddr(0) == "00";
    assert ToAddr(LAddr(0), labels) == "00";
    assert ToAddr(LLabel("@start"), labels) == "00";
    assert EncodeInstr(asg[0], labels) == [];
    assert "0" + "00" + "00" == "00000";
    assert EncodeInstr(asg[1], labels) == ["00000"];
    assert "300" + "02" == "30002";
    assert EncodeInstr(asg[2], labels) == ["00000", "00", "30002"];
    assert asg[..0] == [];
    EncodeStep(asg, 0, labels);
    EncodeStep(asg, 1, labels);
    EncodeStep(asg, 2, labels);
  }

  lemma ExampleParse()
    ensures ValidOperand("00") && ValidOperand("@start")
    ensures ProgramOk([["lbl", "@start"], ["inc", "00"], ["jmp", "@start"]])
    ensures ParseProgram([["lbl", "@start"], ["inc", "00"], ["jmp", "@start"]])
         == [ILbl("@start"), IInc(LAddr(0)), IJmp(LLabel("@start"), "")]
  {
    var lines := [["lbl", "@start"], ["inc", "00"], ["jmp", "@start"]];
    ZeroField();
    assert ValidOperand("00") && ValidOperand("@start");
    assert LineInstrs(lines[0]) == [ILbl("@start")] by {
      LabelRecordedVerbatim("@start", []);
      assert lines[0] == ["lbl", "@start"] + [];
    }
    assert LineInstrs(lines[1]) == [IInc(LAddr(0))] by {
      assert ParseLoc("00") == LAddr(0);
      assert ParseLine(["inc", "00"]) == Some(IInc(LAddr(0)));
    }
    assert LineInstrs(lines[2]) == [IJmp(LLabel("@start"), "")] by {
      assert ParseLine(["jmp", "@start"]) == Some(IJmp(LLabel("@start"), ""));
    }
    assert lines[..0] == [];
    ParseStep(lines, 0);
    ParseStep(lines, 1);
    ParseStep(lines, 2);
    assert lines[..3] == lines;
  }

  lemma ExampleAssign()
    ensures var prog := [ILbl("@start"), IInc(LAddr(0)), IJmp(LLabel("@start"), "")];
      LabelTable(prog) == map["@start" := 0] &&
      Assigned(prog) == [ILbl("@start"), IInc(LAddr(0)), IJmp(LLabel("@start"), "02")]
  {
    var prog := [ILbl("@start"), IInc(LAddr(0)), IJmp(LLabel("@start"), "")];
    assert prog[..1][..0] == [];
    assert prog[..2][..1] == prog[..1];
    assert prog[..3][..2] == prog[..2];
    assert prog[..3] == prog;
    assert EndAddr(prog[..1]) == 0;
    assert EndAddr(prog[..2]) == 1;
    assert StartAddr(prog, 2) == 1;
    assert FixAddr(2) == "02";
    AssignedAt(prog, 2);
    assert Assigned(prog)[2] == IJmp(LLabel("@start"), "02");
  }

  /** `skp 05` encodes to the single word `40005` and `out 10` to `70010`. */
  lemma SingleWordExamples(labels: LabelMap)
    ensures ValidOperand("05") && ValidOperand("10")
    ensures EncodeInstr(ParseLine(["skp", "05"]).value, labels) == ["40005"]
    ensures EncodeInstr(ParseLine(["out", "10"]).value, labels) == ["70010"]
  {
    assert ValidOperand("05") && ValidOperand("10");
    assert FromDecimal("05") == 5 by { assert "05"[..1] == "0" && "0"[..0] == ""; }
    assert FromDecimal("10") == 10 by { assert "10"[..1] == "1" && "1"[..0] == ""; }
    assert ParseLine(["skp", "05"]) == Some(ISkp(LAddr(5)));
    assert ParseLine(["out", "10"]) == Some(IOut(LAddr(10)));
    assert DigitChar(5) == '5';
    assert FixAddr(5) == "05";
    assert DigitChar(1) == '1' && DigitChar(0) == '0';
    assert ToDecimal(1) == "1";
    assert ToDecimal(10) == "10";
    assert FixAddr(10) == "10";
    assert ToAddr(LAddr(5), labels) == "05" && ToAddr(LAddr(10), labels) == "10";
    assert "400" + "05" == "40005";
    assert EncodeInstr(ISkp(LAddr(5)), labels) == ["40005"];
    assert "700" + "10" == "70010";
    assert EncodeInstr(IOut(LAddr(10)), labels) == ["70010"];
  }
}
