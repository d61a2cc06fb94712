/** The uniform value type the interpreters are instantiated with in the concrete
    scenarios, and the string rendering a template literal applies to it. */
module Values {

  /** A JavaScript value as far as the scenarios need one: a number (only whole
      numbers occur) or a string. */
  datatype Value = Num(n: int) | Str(s: string)

  /** Environment `{ n: number }` read by `simpleProgram`. */
  datatype NEnv = NEnv(n: int)

  function DigitChar(d: nat): char
    requires d < 10
  {
    "0123456789"[d]
  }

  /** Decimal digits of a natural number, most significant first. */
  function ShowNat(n: nat): (s: string)
    ensures |s| > 0
    decreases n
  {
    if n < 10 then [DigitChar(n)] else ShowNat(n / 10) + [DigitChar(n % 10)]
  }

  /** How a template literal renders a whole number. */
  function ShowInt(i: int): string
  {
    if i < 0 then "-" + ShowNat(-i) else ShowNat(i)
  }

  /** How a template literal `${v}` renders a value. */
  function Show(v: Value): string
  {
    match v
    case Num(n) => ShowInt(n)
    case Str(s) => s
  }
}
