/** The closed set of instruction variants the assembler works on. */
module Instructions {
  import opened Locations

  datatype Option<T> = None | Some(value: T)

  /** One parsed source line. `tt` is the target operand, `ss` the source
      operand; `mem` of a jump is the rendered counter address one past the
      jump's start, empty until address assignment fills it in. */
  datatype Instr =
    | IDef(val: Location)
    | IInc(tt: Location)
    | IAdd(tt: Location, ss: Location)
    | ISub(tt: Location, ss: Location)
    | ICpy(tt: Location, ss: Location)
    | IInz(tt: Location, ss: Location)
    | IGet(tt: Location, ss: Location)
    | ISto(tt: Location, ss: Location)
    | IOut(ss: Location)
    | IInp(tt: Location)
    | IHlt
    | ILbl(name: string)
    | IJmp(tt: Location, mem: string)
    | IJmz(tt: Location, ss: Location, mem: string)
    | ISkp(ss: Location)

  predicate IsJump(i: Instr) {
    i.IJmp? || i.IJmz?
  }

  /** Every instruction other than a label marker and the two jumps. */
  predicate IsOrdinary(i: Instr) {
    !i.ILbl? && !IsJump(i)
  }

  /** The operand locations of an instruction, in source order. A label's
      name is not a location and is not among them. */
  function Operands(i: Instr): (ops: seq<Location>)
    ensures |ops| <= 2
    ensures ops == [] <==> i.IHlt? || i.ILbl?
  {
    match i
    case IDef(v) => [v]
    case IInc(t) => [t]
    case IAdd(t, s) => [t, s]
    case ISub(t, s) => [t, s]
    case ICpy(t, s) => [t, s]
    case IInz(t, s) => [t, s]
    case IGet(t, s) => [t, s]
    case ISto(t, s) => [t, s]
    case IOut(s) => [s]
    case IInp(t) => [t]
    case IHlt => []
    case ILbl(_) => []
    case IJmp(t, _) => [t]
    case IJmz(t, s, _) => [t, s]
    case ISkp(s) => [s]
  }
}
