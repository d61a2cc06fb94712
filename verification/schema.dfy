/** The schema of `src/exercises/day-1/05-schema.ts`: a closed set of schema
    shapes from which a parser (`parse`) and a type guard (`guard`) are derived.

    The phantom conversion fields `_A`/`_I` of the source are identities and are
    dropped. The two host functions the parser calls, `Number.parseFloat` and
    `JSON.stringify`, are parameters (a `Host`); `JsHost` supplies simplified
    versions for the test scenarios. */
module SchemaDerivation {
  import opened Outcomes
  import opened Values

  /** A JavaScript value, as far as `typeof` tells values apart. */
  datatype Unknown = UNumber(num: int) | UString(str: string) | UBoolean(b: bool) | UNull | UUndefined

  datatype Schema =
    | SchemaString
    | SchemaNumber
    | SchemaUnknown
    | SchemaCompose(first: Schema, second: Schema)
    | SchemaNumberString

  /** `Number.parseFloat` (`None` standing for NaN) and `JSON.stringify`. */
  datatype Host = Host(parseFloat: string -> Option<int>, stringify: Unknown -> string)

  /** `unknownStringNumber`: `string` composed with `stringNumber`. */
  function UnknownStringNumber(): Schema
  {
    SchemaCompose(SchemaString, SchemaNumberString)
  }

  /** How a template literal `${u}` renders a value (JavaScript's `String(u)`). */
  function Render(u: Unknown): string
  {
    match u
    case UNumber(n) => ShowInt(n)
    case UString(s) => s
    case UBoolean(b) => if b then "true" else "false"
    case UNull => "null"
    case UUndefined => "undefined"
  }

  /** `parse(schema)(u)`: `Right` with the parsed value, or `Left` with a message. */
  function Parse(schema: Schema, h: Host, u: Unknown): Either<string, Unknown>
    decreases schema
  {
    match schema
    case SchemaNumber =>
      if u.UNumber? then Right(u) else Left("was expecting a number but got " + h.stringify(u))
    case SchemaString =>
      if u.UString? then Right(u) else Left("was expecting a string but got " + h.stringify(u))
    case SchemaNumberString =>
      (match h.parseFloat(Render(u))
       case None => Left("was expecting a number encoded as a string got: " + Render(u))
       case Some(n) => Right(UNumber(n)))
    case SchemaUnknown => Right(u)
    case SchemaCompose(first, second) =>
      (match Parse(first, h, u)
       case Left(e) => Left(e)
       case Right(t) => Parse(second, h, t))
  }

  /** `guard(schema)(u)`: whether `u` has the type the schema produces. */
  predicate Guard(schema: Schema, u: Unknown)
    decreases schema
  {
    match schema
    case SchemaNumber => u.UNumber?
    case SchemaNumberString => u.UNumber?
    case SchemaString => u.UString?
    case SchemaUnknown => true
    case SchemaCompose(_, second) => Guard(second, u)
  }

  /** The primitive parsers accept exactly what their guards accept, return the input
      unchanged, and otherwise fail with the message the tests pin. So for these
      schemas parse and guard agree in both directions: a guarded value parses to
      itself. */
  lemma ParsePrimitives(h: Host, u: Unknown)
    ensures Parse(SchemaNumber, h, u).Right? <==> Guard(SchemaNumber, u)
    ensures Parse(SchemaNumber, h, u).Right? ==> Parse(SchemaNumber, h, u).right == u
    ensures !u.UNumber? ==> Parse(SchemaNumber, h, u) == Left("was expecting a number but got " + h.stringify(u))
    ensures Parse(SchemaString, h, u).Right? <==> Guard(SchemaString, u)
    ensures Parse(SchemaString, h, u).Right? ==> Parse(SchemaString, h, u).right == u
    ensures !u.UString? ==> Parse(SchemaString, h, u) == Left("was expecting a string but got " + h.stringify(u))
    ensures Parse(SchemaUnknown, h, u) == Right(u)
  {
  }

  /** `stringNumber` fails exactly when the number conversion of the rendered input
      gives NaN, naming the input; otherwise it returns the number. */
  lemma ParseNumberString(h: Host, u: Unknown)
    ensures Parse(SchemaNumberString, h, u).Left? <==> h.parseFloat(Render(u)).None?
    ensures Parse(SchemaNumberString, h, u).Left?
            ==> Parse(SchemaNumberString, h, u).left == "was expecting a number encoded as a string got: " + Render(u)
    ensures Parse(SchemaNumberString, h, u).Right?
            ==> Parse(SchemaNumberString, h, u).right == UNumber(h.parseFloat(Render(u)).value)
  {
  }

  /** `compose(s, t)` runs `s`, then `t` on its output; the first failure stops it. */
  lemma ComposeSequences(s: Schema, t: Schema, h: Host, u: Unknown)
    ensures Parse(s, h, u).Left? ==> Parse(SchemaCompose(s, t), h, u) == Parse(s, h, u)
    ensures Parse(s, h, u).Right? ==> Parse(SchemaCompose(s, t), h, u) == Parse(t, h, Parse(s, h, u).right)
  {
  }

  /** Composition is associative, so a chain of `>>>` parses the same however it
      is grouped. */
  lemma ComposeAssociative(a: Schema, b: Schema, c: Schema, h: Host, u: Unknown)
    ensures Parse(SchemaCompose(SchemaCompose(a, b), c), h, u) == Parse(SchemaCompose(a, SchemaCompose(b, c)), h, u)
  {
  }

  /** Whatever a schema's parser returns passes that schema's guard. */
  lemma {:induction false} ParsedValuesPassGuard(schema: Schema, h: Host, u: Unknown)
    ensures Parse(schema, h, u).Right? ==> Guard(schema, Parse(schema, h, u).right)
    decreases schema
  {
    match schema
    case SchemaCompose(first, second) =>
      var mid := Parse(first, h, u);
      if mid.Right? {
        ParsedValuesPassGuard(second, h, mid.right);
      }
    case _ =>
  }

  /** The guard of a composition looks only at its output type, so it can accept
      a value its parser rejects: `unknownStringNumber` guards numbers but parses
      only strings. */
  lemma GuardDoesNotImplyParse(h: Host)
    ensures Guard(UnknownStringNumber(), UNumber(1))
    ensures Parse(UnknownStringNumber(), h, UNumber(1)) == Left("was expecting a string but got " + h.stringify(UNumber(1)))
  {
  }

  /** `guard(compose(s, t))` is `guard(t)`; `guard(unknown)` accepts everything and
      `guard(string)` exactly the strings. */
  lemma GuardFacts(s: Schema, t: Schema, u: Unknown)
    ensures Guard(SchemaCompose(s, t), u) <==> Guard(t, u)
    ensures Guard(SchemaUnknown, u)
    ensures Guard(SchemaString, u) <==> u.UString?
  {
  }

  predicate IsDigit(c: char)
  {
    '0' <= c <= '9'
  }

  /** The longest prefix of `s` made of decimal digits. */
  function DigitPrefix(s: string): (d: string)
    ensures |d| <= |s|
    ensures forall i :: 0 <= i < |d| ==> IsDigit(d[i])
  {
    if s != [] && IsDigit(s[0]) then [s[0]] + DigitPrefix(s[1..]) else []
  }

  /** The number a string of decimal digits denotes, read left to right. */
  function DigitsValue(d: string, acc: nat): nat
    requires forall i :: 0 <= i < |d| ==> IsDigit(d[i])
  {
    if d == [] then acc
    else
      assert IsDigit(d[0]);
      DigitsValue(d[1..], acc * 10 + (d[0] as int - '0' as int))
  }

  /** A simplified `Number.parseFloat` for whole numbers: an optional minus sign and
      the longest run of digits after it; no digits at all is NaN. */
  function ParseLeadingInt(s: string): Option<int>
  {
    var negative := s != [] && s[0] == '-';
    var d := DigitPrefix(if negative then s[1..] else s);
    if d == [] then None
    else
      var n: int := DigitsValue(d, 0);
      Some(if negative then -n else n)
  }

  /** A simplified `JSON.stringify` (strings are quoted but not escaped). */
  function Stringify(u: Unknown): string
  {
    match u
    case UString(s) => "\"" + s + "\""
    case _ => Render(u)
  }

  const JsHost: Host := Host(ParseLeadingInt, Stringify)

  /** The test scenarios of `parse` and `guard`. */
  lemma SchemaScenarios()
    ensures Parse(SchemaNumber, JsHost, UString("")) == Left("was expecting a number but got \"\"")
    ensures Parse(SchemaNumber, JsHost, UNumber(1)) == Right(UNumber(1))
    ensures Parse(UnknownStringNumber(), JsHost, UNumber(1)) == Left("was expecting a string but got 1")
    ensures Parse(UnknownStringNumber(), JsHost, UString("a"))
            == Left("was expecting a number encoded as a string got: a")
    ensures Parse(UnknownStringNumber(), JsHost, UString("1")) == Right(UNumber(1))
    ensures Guard(SchemaString, UString("test")) && !Guard(SchemaString, UNumber(1))
  {
    assert Stringify(UString("")) == "\"\"";
    assert "was expecting a number but got " + "\"\"" == "was expecting a number but got \"\"";
    assert Stringify(UNumber(1)) == "1";
    assert "was expecting a string but got " + "1" == "was expecting a string but got 1";
    assert DigitPrefix("a") == [];
    assert ParseLeadingInt("a") == None;
    assert Render(UString("a")) == "a";
    assert "was expecting a number encoded as a string got: " + "a"
           == "was expecting a number encoded as a string got: a";
    assert DigitPrefix("1") == "1";
    assert ParseLeadingInt("1") == Some(1);
  }
}
