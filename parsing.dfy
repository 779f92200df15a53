/** The parse phase: each line, already split into space-separated tokens,
    becomes at most one instruction, chosen by its first token. */
module Parsing {
  import opened Locations
  import opened Instructions
  import opened Sequences

  const Keywords: set<string> :=
    {"def", "inc", "add", "sub", "cpy", "inz", "get", "sto", "out", "inp", "hlt", "jmp", "jmz", "skp", "lbl"}

  /** How many operand tokens the parser reads after the keyword. `jmz` reads
      only its target, and an unknown keyword reads nothing. */
  function OperandsRead(kw: string): (n: nat)
    ensures n <= 2
    ensures kw !in Keywords || kw == "hlt" <==> n == 0
  {
    if kw in {"add", "sub", "cpy", "inz", "get", "sto"} then 2
    else if kw in {"def", "inc", "out", "inp", "jmp", "jmz", "skp", "lbl"} then 1
    else 0
  }

  /** What the parser demands of a line: the operands it reads exist, and each
      one it hands to `parseLoc` is a label or a numeral. The operand of `lbl`
      is taken verbatim and may be any token. */
  predicate LineOk(tokens: seq<string>) {
    tokens != [] ==>
      |tokens| > OperandsRead(tokens[0]) &&
      (tokens[0] != "lbl" ==>
        (OperandsRead(tokens[0]) >= 1 ==> ValidOperand(tokens[1])) &&
        (OperandsRead(tokens[0]) >= 2 ==> ValidOperand(tokens[2])))
  }

  predicate ProgramOk(lines: seq<seq<string>>) {
    forall j :: 0 <= j < |lines| ==> LineOk(lines[j])
  }

  /** One iteration of the parse loop: the instruction a line contributes. */
  function ParseLine(tokens: seq<string>): (r: Option<Instr>)
    requires LineOk(tokens)
    ensures r.None? <==> tokens == [] || tokens[0] !in Keywords
    ensures r.Some? ==> !r.value.ICpy?
    ensures r.Some? && IsJump(r.value) ==> r.value.mem == ""
  {
    if tokens == [] then None
    else
      var kw := tokens[0];
      if kw == "def" then Some(IDef(ParseLoc(tokens[1])))
      else if kw == "inc" then Some(IInc(ParseLoc(tokens[1])))
      else if kw == "add" then Some(IAdd(ParseLoc(tokens[1]), ParseLoc(tokens[2])))
      else if kw == "sub" then Some(ISub(ParseLoc(tokens[1]), ParseLoc(tokens[2])))
      else if kw == "cpy" then Some(ISub(ParseLoc(tokens[1]), ParseLoc(tokens[2])))
      else if kw == "inz" then Some(IInz(ParseLoc(tokens[1]), ParseLoc(tokens[2])))
      else if kw == "get" then Some(IGet(ParseLoc(tokens[1]), ParseLoc(tokens[2])))
      else if kw == "sto" then Some(ISto(ParseLoc(tokens[1]), ParseLoc(tokens[2])))
      else if kw == "out" then Some(IOut(ParseLoc(tokens[1])))
      else if kw == "inp" then Some(IInp(ParseLoc(tokens[1])))
      else if kw == "hlt" then Some(IHlt)
      else if kw == "jmp" then Some(IJmp(ParseLoc(tokens[1]), ""))
      else if kw == "jmz" then Some(IJmz(ParseLoc(tokens[1]), LAddr(0), ""))
      else if kw == "skp" then Some(ISkp(ParseLoc(tokens[1])))
      else if kw == "lbl" then Some(ILbl(tokens[1]))
      else None
  }

  /** What one line appends to the instruction list: nothing or one instruction. */
  function LineInstrs(tokens: seq<string>): (r: seq<Instr>)
    requires LineOk(tokens)
    ensures |r| <= 1
    ensures forall k :: 0 <= k < |r| ==> !r[k].ICpy? && (IsJump(r[k]) ==> r[k].mem == "")
  {
    match ParseLine(tokens)
    case None => []
    case Some(ins) => [ins]
  }

  /** A line with a known keyword contributes exactly its parse. */
  lemma LineInstrsKnown(tokens: seq<string>)
    requires LineOk(tokens) && tokens != [] && tokens[0] in Keywords
    ensures LineInstrs(tokens) == [ParseLine(tokens).value]
  {
  }

  /** The whole parse loop: the instructions of the lines in order, empty
      lines and lines with an unknown keyword contributing nothing. */
  function ParseProgram(lines: seq<seq<string>>): seq<Instr>
    requires ProgramOk(lines)
  {
    FlatMap(LineInstrs, lines)
  }

  /** One iteration of the parse loop extends the parsed program by what that
      line contributes. */
  lemma ParseStep(lines: seq<seq<string>>, i: nat)
    requires ProgramOk(lines) && i < |lines|
    ensures ProgramOk(lines[..i]) && ProgramOk(lines[..i + 1])
    ensures ParseProgram(lines[..i + 1]) == ParseProgram(lines[..i]) + LineInstrs(lines[i])
  {
    FlatMapStep(LineInstrs, lines, i);
  }

  /** The parsed program has at most one instruction per line, never a copy
      instruction, and only jumps whose `mem` is still empty. */
  lemma {:induction false} ParseProgramShape(lines: seq<seq<string>>)
    requires ProgramOk(lines)
    ensures |ParseProgram(lines)| <= |lines|
    ensures forall k :: 0 <= k < |ParseProgram(lines)| ==> !ParseProgram(lines)[k].ICpy?
    ensures forall k :: 0 <= k < |ParseProgram(lines)| && IsJump(ParseProgram(lines)[k]) ==>
      ParseProgram(lines)[k].mem == ""
  {
    if lines != [] {
      var n := |lines| - 1;
      ParseStep(lines, n);
      assert lines[..n + 1] == lines;
      ParseProgramShape(lines[..n]);
    }
  }

  /** `cpy t s` is parsed exactly as `sub t s`. */
  lemma CpyParsesAsSub(t: string, s: string, rest: seq<string>)
    requires ValidOperand(t) && ValidOperand(s)
    ensures LineOk(["cpy", t, s] + rest) && LineOk(["sub", t, s] + rest)
    ensures ParseLine(["cpy", t, s] + rest) == ParseLine(["sub", t, s] + rest)
    ensures ParseLine(["cpy", t, s] + rest) == Some(ISub(ParseLoc(t), ParseLoc(s)))
  {
  }

  /** `jmz` keeps only its target; its source is address 0 whatever follows,
      and no source token need be present at all. */
  lemma JmzIgnoresSource(t: string, rest: seq<string>)
    requires ValidOperand(t)
    ensures LineOk(["jmz", t] + rest)
    ensures ParseLine(["jmz", t] + rest) == Some(IJmz(ParseLoc(t), LAddr(0), ""))
  {
  }

  /** A `lbl` line records its name verbatim, with or without the sigil. */
  lemma LabelRecordedVerbatim(x: string, rest: seq<string>)
    ensures LineOk(["lbl", x] + rest)
    ensures ParseLine(["lbl", x] + rest) == Some(ILbl(x))
  {
  }

  /** Parsing distributes over concatenation of the source. */
  lemma ParseProgramAppend(a: seq<seq<string>>, b: seq<seq<string>>)
    requires ProgramOk(a) && ProgramOk(b)
    ensures ProgramOk(a + b)
    ensures ParseProgram(a + b) == ParseProgram(a) + ParseProgram(b)
  {
    FlatMapAppend(LineInstrs, a, b);
  }

  /** When every line has a known keyword, the k-th instruction is the parse
      of the k-th line. */
  lemma {:induction false} ParseProgramAllKnown(lines: seq<seq<string>>)
    requires ProgramOk(lines)
    requires forall j :: 0 <= j < |lines| ==> lines[j] != [] && lines[j][0] in Keywords
    ensures |ParseProgram(lines)| == |lines|
    ensures forall k :: 0 <= k < |lines| ==> Some(ParseProgram(lines)[k]) == ParseLine(lines[k])
  {
    if lines != [] {
      var n := |lines| - 1;
      ParseStep(lines, n);
      assert lines[..n + 1] == lines;
      ParseProgramAllKnown(lines[..n]);
      LineInstrsKnown(lines[n]);
      forall k | 0 <= k < |lines|
        ensures Some(ParseProgram(lines)[k]) == ParseLine(lines[k])
      {
        if k < n {
          assert lines[..n][k] == lines[k];
        }
      }
    }
  }

  /** The keyword each instruction variant is written with. */
  function KeywordOf(i: Instr): (kw: string)
    ensures kw in Keywords
  {
    match i
    case IDef(_) => "def"
    case IInc(_) => "inc"
    case IAdd(_, _) => "add"
    case ISub(_, _) => "sub"
    case ICpy(_, _) => "cpy"
    case IInz(_, _) => "inz"
    case IGet(_, _) => "get"
    case ISto(_, _) => "sto"
    case IOut(_) => "out"
    case IInp(_) => "inp"
    case IHlt => "hlt"
    case ILbl(_) => "lbl"
    case IJmp(_, _) => "jmp"
    case IJmz(_, _, _) => "jmz"
    case ISkp(_) => "skp"
  }

  /** The keyword, the operands and, for a label, its name identify an
      instruction up to the `mem` field of a jump. */
  lemma KeywordOperandsDetermine(a: Instr, b: Instr)
    requires KeywordOf(a) == KeywordOf(b) && Operands(a) == Operands(b)
    requires a.ILbl? && b.ILbl? ==> a.name == b.name
    requires IsJump(a) && IsJump(b) ==> a.mem == b.mem
    ensures a == b
  {
    match a
    case IDef(_) =>
    case IInc(_) =>
    case IAdd(_, _) =>
    case ISub(_, _) =>
    case ICpy(_, _) =>
    case IInz(_, _) =>
    case IGet(_, _) =>
    case ISto(_, _) =>
    case IOut(_) =>
    case IInp(_) =>
    case IHlt =>
    case ILbl(_) =>
    case IJmp(_, _) =>
    case IJmz(_, _, _) =>
    case ISkp(_) =>
  }

  /** The source text of a list of locations, one token each. */
  function LocTokens(ops: seq<Location>): (toks: seq<string>)
    ensures |toks| == |ops|
    ensures forall k :: 0 <= k < |ops| ==> toks[k] == LocToken(ops[k])
  {
    if ops == [] then [] else [LocToken(ops[0])] + LocTokens(ops[1..])
  }

  /** An instruction written as a source line: its keyword, then its operands
      (a label's name for `lbl`). */
  function Unparse(i: Instr): (tokens: seq<string>)
    ensures |tokens| >= 1 && tokens[0] == KeywordOf(i)
  {
    [KeywordOf(i)] + (if i.ILbl? then [i.name] else LocTokens(Operands(i)))
  }

  /** The instructions a parse can produce: no copy instruction, jumps not yet
      assigned a `mem`, a `jmz` whose source is address 0, and operands that
      can be written as tokens. */
  predicate Parseable(i: Instr) {
    && !i.ICpy?
    && (IsJump(i) ==> i.mem == "")
    && (i.IJmz? ==> i.ss == LAddr(0))
    && forall k :: 0 <= k < |Operands(i)| ==> WellFormed(Operands(i)[k])
  }

  /** The parser reads every operand of an instruction written with its
      keyword, except the source of `jmz`; `lbl` reads its name. */
  lemma OperandsReadOf(i: Instr)
    ensures i.ILbl? ==> OperandsRead(KeywordOf(i)) == 1
    ensures !i.ILbl? ==> OperandsRead(KeywordOf(i)) == |Operands(i)| - if i.IJmz? then 1 else 0
  {
  }

  /** Writing an instruction out and parsing the line gives it back. */
  lemma ParseLineRoundTrip(i: Instr)
    requires Parseable(i)
    ensures LineOk(Unparse(i))
    ensures ParseLine(Unparse(i)) == Some(i)
  {
    var toks := Unparse(i);
    var ops := Operands(i);
    forall k | 0 <= k < |ops|
      ensures ValidOperand(LocToken(ops[k])) && ParseLoc(LocToken(ops[k])) == ops[k]
    {
      ParseLocRoundTrip(ops[k]);
    }
    OperandsReadOf(i);
    assert LineOk(toks);
    ParseLineKeyword(toks);
    var p := ParseLine(toks).value;
    if !i.ILbl? {
      assert Operands(p) == ops;
    }
    KeywordOperandsDetermine(p, i);
  }

  /** What a line with a known keyword parses to: the variant that keyword
      names (`cpy` gives the subtract variant), with the operand tokens the
      parser reads as its operands. `jmz` gets source address 0 in addition,
      and `lbl` records its name token verbatim. */
  predicate ParsedAs(tokens: seq<string>, i: Instr)
    requires LineOk(tokens) && tokens != []
  {
    var kw := tokens[0];
    && KeywordOf(i) == (if kw == "cpy" then "sub" else kw)
    && (kw == "lbl" ==> i == ILbl(tokens[1]))
    && (kw != "lbl" ==>
          |Operands(i)| == OperandsRead(kw) + (if kw == "jmz" then 1 else 0) &&
          forall k :: 1 <= k <= OperandsRead(kw) ==> Operands(i)[k - 1] == ParseLoc(tokens[k]))
    && (kw == "jmz" ==> i.ss == LAddr(0))
  }

  /** Every known keyword parses as `ParsedAs` describes. */
  lemma ParseLineKeyword(tokens: seq<string>)
    requires LineOk(tokens) && tokens != [] && tokens[0] in Keywords
    ensures ParsedAs(tokens, ParseLine(tokens).value)
  {
    var kw := tokens[0];
    if kw in {"add", "sub", "cpy", "inz", "get", "sto"} {
      ParseLineKeywordBinary(tokens);
    } else if kw in {"def", "inc", "out", "inp", "skp"} {
      ParseLineKeywordUnary(tokens);
    } else if kw in {"jmp", "jmz"} {
      ParseLineKeywordJump(tokens);
    } else {
      ParseLineKeywordControl(tokens);
    }
  }

  /** `ParseLineKeyword` for the two-operand keywords. */
  lemma ParseLineKeywordBinary(tokens: seq<string>)
    requires LineOk(tokens) && tokens != [] && tokens[0] in {"add", "sub", "cpy", "inz", "get", "sto"}
    ensures ParsedAs(tokens, ParseLine(tokens).value)
  {
  }

  /** `ParseLineKeyword` for the one-operand keywords other than the jumps and `lbl`. */
  lemma ParseLineKeywordUnary(tokens: seq<string>)
    requires LineOk(tokens) && tokens != [] && tokens[0] in {"def", "inc", "out", "inp", "skp"}
    ensures ParsedAs(tokens, ParseLine(tokens).value)
  {
  }

  /** `ParseLineKeyword` for the jumps. */
  lemma ParseLineKeywordJump(tokens: seq<string>)
    requires LineOk(tokens) && tokens != [] && tokens[0] in {"jmp", "jmz"}
    ensures ParsedAs(tokens, ParseLine(tokens).value)
  {
  }

  /** `ParseLineKeyword` for `hlt` and `lbl`. */
  lemma ParseLineKeywordControl(tokens: seq<string>)
    requires LineOk(tokens) && tokens != [] && tokens[0] in {"hlt", "lbl"}
    ensures ParsedAs(tokens, ParseLine(tokens).value)
  {
  }
}
