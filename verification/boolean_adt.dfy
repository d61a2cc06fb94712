/** The two-constructor boolean of `src/index.ts`, its negation and its rendering. */
module BooleanADT {

  datatype Boolean = True | False

  function MakeTrue(): Boolean
  {
    True
  }

  function MakeFalse(): Boolean
  {
    False
  }

  /** Swaps the two constructors: the result is always the other one. */
  function Invert(self: Boolean): (r: Boolean)
    ensures r != self
  {
    match self
    case True => MakeFalse()
    case False => MakeTrue()
  }

  function RenderToString(self: Boolean): string
  {
    match self
    case True => "Boolean is True"
    case False => "Boolean is False"
  }

  /** Inverting twice gives back the original boolean. */
  lemma InvertInvolution(b: Boolean)
    ensures Invert(Invert(b)) == b
  {
  }

  /** The rendering tells the two booleans apart, each with its own text. */
  lemma RenderDistinguishes(a: Boolean, b: Boolean)
    ensures RenderToString(a) == RenderToString(b) <==> a == b
    ensures RenderToString(MakeTrue()) == "Boolean is True"
    ensures RenderToString(MakeFalse()) == "Boolean is False"
  {
  }

  /** The test: inverting `makeTrue()` renders as "Boolean is False". */
  lemma InvertTrueRendersFalse()
    ensures RenderToString(Invert(MakeTrue())) == "Boolean is False"
  {
  }
}
