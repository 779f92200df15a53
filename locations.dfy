/** Operands: a location is either an absolute address or a label reference,
    rendered into machine words as a decimal field at least two digits wide. */
module Locations {
  import opened Decimal

  datatype Location = LAddr(addr: nat) | LLabel(name: string)

  /** The label table: label name to bound address. */
  type LabelMap = map<string, nat>

  const Sigil: char := '@'

  /** A token the source can turn into a location: a label reference, or an
      all-digit numeral (the only form of `std::stoi` input this model admits). */
  predicate ValidOperand(tok: string) {
    |tok| > 0 && (tok[0] == Sigil || AllDigits(tok))
  }

  /** A location as it would be written in source text. */
  predicate WellFormed(loc: Location) {
    loc.LLabel? ==> |loc.name| > 0 && loc.name[0] == Sigil
  }

  /** Text that parses back into `loc`. */
  function LocToken(loc: Location): (tok: string)
  {
    match loc
    case LAddr(a) => ToDecimal(a)
    case LLabel(n) => n
  }

  /** `parseLoc`: a token starting with '@' is a label named by the whole token,
      any other token the address it spells in decimal. */
  function ParseLoc(tok: string): (loc: Location)
    requires ValidOperand(tok)
    ensures loc.LLabel? <==> tok[0] == Sigil
    ensures loc.LLabel? ==> loc.name == tok && WellFormed(loc)
    ensures loc.LAddr? ==> loc.addr == FromDecimal(tok)
  {
    if tok[0] == Sigil then LLabel(tok) else LAddr(FromDecimal(tok))
  }

  /** `fixAddr`: the decimal numeral of `a`, left-padded with one zero when it
      has a single digit. */
  function FixAddr(a: nat): (s: string)
    ensures AllDigits(s)
    ensures a <= 9 ==> s == ['0', DigitChar(a)]
    ensures a >= 10 ==> s == ToDecimal(a)
    ensures |s| == if |ToDecimal(a)| < 2 then 2 else |ToDecimal(a)|
    ensures |s| == 2 <==> a <= 99
  {
    var str := ToDecimal(a);
    if |str| < 2 then "0" + str else str
  }

  /** The address a location denotes under a label table; an unbound label
      denotes 0, as `labelMap[name]` default-inserts a zero. */
  function Resolve(loc: Location, labels: LabelMap): nat
  {
    match loc
    case LAddr(a) => a
    case LLabel(n) => if n in labels then labels[n] else 0
  }

  /** `toAddr`: the rendered operand field of a location. */
  function ToAddr(loc: Location, labels: LabelMap): (s: string)
    ensures loc.LAddr? ==> s == FixAddr(loc.addr)
    ensures loc.LLabel? && loc.name in labels ==> s == FixAddr(labels[loc.name])
    ensures loc.LLabel? && loc.name !in labels ==> s == "00"
    ensures AllDigits(s) && |s| >= 2
  {
    FixAddr(Resolve(loc, labels))
  }

  /** Reading the rendered field as a number gives back the address. */
  lemma FixAddrRoundTrip(a: nat)
    ensures FromDecimal(FixAddr(a)) == a
    ensures ParseLoc(FixAddr(a)) == LAddr(a)
  {
    FromToDecimal(a);
    if a <= 9 {
      FromDecimalLeadingZero(ToDecimal(a));
    }
  }

  /** The rendered operand field spells the address the location resolves to. */
  lemma ToAddrDenotes(loc: Location, labels: LabelMap)
    ensures FromDecimal(ToAddr(loc, labels)) == Resolve(loc, labels)
    ensures Resolve(loc, labels) <= 99 <==> |ToAddr(loc, labels)| == 2
  {
    FixAddrRoundTrip(Resolve(loc, labels));
  }

  /** Parsing the written form of a location gives the location back. */
  lemma ParseLocRoundTrip(loc: Location)
    requires WellFormed(loc)
    ensures ValidOperand(LocToken(loc)) && ParseLoc(LocToken(loc)) == loc
  {
    if loc.LAddr? {
      FromToDecimal(loc.addr);
    }
  }

  /** Every admissible numeral parses to the address whose canonical form it
      is once leading zeros are dropped; in particular "5", "05" and "005"
      all parse to the same address. */
  lemma ParseLocLeadingZero(tok: string)
    requires ValidOperand(tok) && tok[0] != Sigil
    ensures ValidOperand("0" + tok) && ParseLoc("0" + tok) == ParseLoc(tok)
  {
    FromDecimalLeadingZero(tok);
  }
}
