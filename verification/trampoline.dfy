/** The stack-safe interpreter `runSafe` of `src/IO.ts`.

    It keeps an explicit stack of frames instead of recursing. A descent phase
    (the `pushing` loop) walks down the left spine of the program, pushing one
    frame per `Chain` or `Catch` node, and evaluates the leaf it reaches into a
    pending `result` with an `isError` flag. An ascent phase (the `popping` loop)
    pops frames: a `FrameChain` is skipped while the pending result is an error and
    a `FrameCatch` while it is not; any other frame is applied to the pending result
    and descent restarts on the program it returns.

    Both interpreters charge one unit of fuel per node visited, so the trampoline
    computes exactly what the recursive interpreter computes, for every amount of
    fuel. */
module Trampoline {
  import opened Outcomes
  import opened Values
  import opened CanonicalIO

  /** A pending continuation (`FrameChain`) or handler (`FrameCatch`). */
  datatype Frame<!R, !V> = FrameChain(f: V -> IO<R, V>) | FrameCatch(f: V -> IO<R, V>)

  /** The state the descent phase leaves behind: the pending result, whether it is
      an error, the frame stack (top first) and the fuel still unused. */
  datatype Descent<!R, !V> = Descent(result: V, isError: bool, stack: seq<Frame<R, V>>, fuel: nat)

  /** The final conversion `isError ? left(result) : right(result)`. */
  function ToEither<V>(result: V, isError: bool): Either<V, V>
  {
    if isError then Left(result) else Right(result)
  }

  /** A frame lets the pending result through untouched: a chain frame an error,
      a catch frame a success. */
  predicate Skips<R, V>(frame: Frame<R, V>, isError: bool)
  {
    if frame.FrameChain? then isError else !isError
  }

  /** The frames the descent phase pushes for `p`, the innermost (top) first. */
  function LeftSpine<R, V>(p: IO<R, V>): seq<Frame<R, V>>
  {
    match p
    case Chain(fx, xfa) => LeftSpine(fx) + [FrameChain(xfa)]
    case Catch(fx, xfe) => LeftSpine(fx) + [FrameCatch(xfe)]
    case _ => []
  }

  /** The leaf at the bottom of the left spine of `p`. */
  function Leaf<R, V>(p: IO<R, V>): (leaf: IO<R, V>)
    ensures !leaf.Chain? && !leaf.Catch?
  {
    match p
    case Chain(fx, _) => Leaf(fx)
    case Catch(fx, _) => Leaf(fx)
    case _ => p
  }

  /** What the machine computes from the ascent state (pending outcome `out`,
      frame stack `stack`), in terms of the recursive interpreter. */
  function Unwind<R, V>(fuel: nat, r: R, out: Either<V, V>, stack: seq<Frame<R, V>>): Option<Either<V, V>>
    decreases |stack|, 0
  {
    if stack == [] then Some(out)
    else if Skips(stack[0], out.Left?) then Unwind(fuel, r, out, stack[1..])
    else Resume(fuel, r, stack[0].f(if out.Left? then out.left else out.right), stack[1..])
  }

  /** What the machine computes from the descent state (current program `p`,
      frame stack `stack`), in terms of the recursive interpreter. */
  function Resume<R, V>(fuel: nat, r: R, p: IO<R, V>, stack: seq<Frame<R, V>>): Option<Either<V, V>>
    decreases |stack|, 1
  {
    match Run(fuel, r, p)
    case None => None
    case Some(Step(out, k)) => Unwind(k, r, out, stack)
  }

  /** The frame the descent phase pushes for a `Chain` or `Catch` node. */
  function NodeFrame<R, V>(p: IO<R, V>): Frame<R, V>
    requires p.Chain? || p.Catch?
  {
    if p.Chain? then FrameChain(p.xfa) else FrameCatch(p.xfe)
  }

  /** The left spine of a `Chain`/`Catch` node is that of its source with the
      node's own frame below it. */
  lemma SpineUnfolds<R, V>(p: IO<R, V>, stack: seq<Frame<R, V>>)
    requires p.Chain? || p.Catch?
    ensures |LeftSpine(p)| == |LeftSpine(p.fx)| + 1
    ensures LeftSpine(p.fx) + ([NodeFrame(p)] + stack) == LeftSpine(p) + stack
    ensures Leaf(p) == Leaf(p.fx)
  {
    assert LeftSpine(p) == LeftSpine(p.fx) + [NodeFrame(p)];
    assert LeftSpine(p.fx) + ([NodeFrame(p)] + stack) == LeftSpine(p.fx) + [NodeFrame(p)] + stack;
  }

  /** Descending into a `Chain` or `Catch` node by pushing its frame does not
      change what the machine computes. */
  lemma ResumeDescends<R, V>(fuel: nat, r: R, p: IO<R, V>, stack: seq<Frame<R, V>>)
    requires p.Chain? || p.Catch?
    requires fuel > 0
    ensures Resume(fuel, r, p, stack) == Resume(fuel - 1, r, p.fx, [NodeFrame(p)] + stack)
  {
    var frame := NodeFrame(p);
    assert ([frame] + stack)[0] == frame;
    assert ([frame] + stack)[1..] == stack;
    match Run(fuel - 1, r, p.fx)
    case None =>
    case Some(Step(out, k)) =>
      calc {
        Resume(fuel - 1, r, p.fx, [frame] + stack);
        Unwind(k, r, out, [frame] + stack);
        if Skips(frame, out.Left?) then Unwind(k, r, out, stack)
        else Resume(k, r, frame.f(if out.Left? then out.left else out.right), stack);
      }
  }

  /** Evaluating a leaf costs one unit of fuel and leaves its outcome pending. */
  lemma ResumeLeaf<R, V>(fuel: nat, r: R, leaf: IO<R, V>, stack: seq<Frame<R, V>>)
    requires !leaf.Chain? && !leaf.Catch?
    requires fuel > 0
    ensures Resume(fuel, r, leaf, stack) == Unwind(fuel - 1, r, Run(1, r, leaf).value.outcome, stack)
  {
  }

  /** Descending the whole left spine of `p` does not change what the machine
      computes: it runs out of fuel exactly when the spine and its leaf need more
      than `fuel` visits, and otherwise continues by unwinding the leaf's outcome
      through the pushed frames. */
  lemma {:induction false} ResumeSpine<R, V>(fuel: nat, r: R, p: IO<R, V>, stack: seq<Frame<R, V>>)
    ensures Resume(fuel, r, p, stack)
            == if fuel <= |LeftSpine(p)| then None
               else Unwind(fuel - |LeftSpine(p)| - 1, r, Run(1, r, Leaf(p)).value.outcome, LeftSpine(p) + stack)
    decreases p
  {
    if fuel == 0 {
    } else if p.Chain? || p.Catch? {
      ResumeDescends(fuel, r, p, stack);
      ResumeSpine(fuel - 1, r, p.fx, [NodeFrame(p)] + stack);
      SpineUnfolds(p, stack);
    } else {
      assert Leaf(p) == p && LeftSpine(p) + stack == stack;
      ResumeLeaf(fuel, r, p, stack);
    }
  }

  /** The `pushing` loop: walk down the left spine of `p`, pushing one frame per
      `Chain`/`Catch` node, until a leaf is reached. */
  method PushFrames<R, V>(p: IO<R, V>, stack: seq<Frame<R, V>>) returns (leaf: IO<R, V>, pushed: seq<Frame<R, V>>)
    ensures leaf == Leaf(p)
    ensures pushed == LeftSpine(p) + stack
  {
    leaf, pushed := p, stack;
    while leaf.Chain? || leaf.Catch?
      invariant LeftSpine(leaf) + pushed == LeftSpine(p) + stack
      invariant Leaf(leaf) == Leaf(p)
      decreases leaf
    {
      SpineUnfolds(leaf, pushed);
      pushed := [NodeFrame(leaf)] + pushed;
      leaf := leaf.fx;
    }
    assert LeftSpine(leaf) + pushed == pushed;
  }

  /** The descent phase: push the frames of the left spine of `p`, then evaluate
      the leaf reached. Each node visited costs one unit of fuel; `None` means the
      fuel ran out. */
  method Descend<R, V>(r: R, p: IO<R, V>, stack: seq<Frame<R, V>>, fuel: nat) returns (d: Option<Descent<R, V>>)
    ensures d.None? <==> fuel <= |LeftSpine(p)|
    ensures d.Some? ==> d.value.stack == LeftSpine(p) + stack
    ensures d.Some? ==> d.value.fuel == fuel - |LeftSpine(p)| - 1
    ensures d.Some? ==> Run(1, r, Leaf(p)) == Some(Step(ToEither(d.value.result, d.value.isError), 0))
    ensures Resume(fuel, r, p, stack)
            == if d.None? then None
               else Unwind(d.value.fuel, r, ToEither(d.value.result, d.value.isError), d.value.stack)
  {
    ResumeSpine(fuel, r, p, stack);
    var leaf, pushed := PushFrames(p, stack);
    var spine := |pushed| - |stack|;
    if fuel <= spine {
      return None;
    }
    var result, isError;
    if leaf.Succeed? {
      result, isError := leaf.value, false;
    } else if leaf.Fail? {
      result, isError := leaf.error, true;
    } else {
      result, isError := leaf.accessFn(r), false;
    }
    d := Some(Descent(result, isError, pushed, fuel - spine - 1));
  }

  /** The `popping` loop: pop frames until one applies to the pending result.
      `next` is the program that frame returns, `None` when the stack ran empty;
      `popped` counts the frames removed. */
  method Ascend<R, V>(ghost fuel: nat, r: R, result: V, isError: bool, stack: seq<Frame<R, V>>)
    returns (next: Option<IO<R, V>>, popped: nat)
    ensures popped <= |stack|
    ensures forall i :: 0 <= i < popped && (next.None? || i < popped - 1) ==> Skips(stack[i], isError)
    ensures next.None? ==> popped == |stack|
    ensures next.Some? ==> 0 < popped && !Skips(stack[popped - 1], isError)
                           && next.value == stack[popped - 1].f(result)
    ensures Unwind(fuel, r, ToEither(result, isError), stack)
            == if next.None? then Some(ToEither(result, isError))
               else Resume(fuel, r, next.value, stack[popped..])
  {
    popped := 0;
    while popped < |stack|
      invariant popped <= |stack|
      invariant forall i :: 0 <= i < popped ==> Skips(stack[i], isError)
      invariant Unwind(fuel, r, ToEither(result, isError), stack)
                == Unwind(fuel, r, ToEither(result, isError), stack[popped..])
    {
      var frame := stack[popped];
      assert stack[popped..][1..] == stack[popped + 1..];
      popped := popped + 1;
      if !Skips(frame, isError) {
        return Some(frame.f(result)), popped;
      }
    }
    next := None;
  }

  /** `runSafe(r)(p)`: alternate descent and ascent until the stack is empty, then
      return the pending result. With the same fuel it gives exactly the outcome of
      the recursive interpreter, so it agrees with `run` whenever `run` terminates. */
  method RunSafe<R, V>(r: R, p: IO<R, V>, fuel: nat) returns (res: Option<Either<V, V>>)
    ensures res == Outcome(Run(fuel, r, p))
    ensures res.Some? ==> Evaluates(r, p, res.value)
  {
    var self := p;
    var stack: seq<Frame<R, V>> := [];
    var fl: nat := fuel;
    while true
      invariant Resume(fl, r, self, stack) == Outcome(Run(fuel, r, p))
      decreases fl
    {
      var d := Descend(r, self, stack, fl);
      if d.None? {
        return None;
      }
      var Descent(result, isError, pushed, left) := d.value;
      var next, popped := Ascend(left, r, result, isError, pushed);
      if next.None? {
        return Some(ToEither(result, isError));
      }
      self, stack, fl := next.value, pushed[popped..], left;
    }
  }

  /** The test scenarios of `simpleProgram`, run through the trampoline. */
  method SimpleProgramScenarios() returns (positive: Option<Either<Value, Value>>,
                                           negative: Option<Either<Value, Value>>,
                                           caught: Option<Either<Value, Value>>)
    ensures positive == Some(Left(Str("positive")))
    ensures negative == Some(Right(Str("got -1")))
    ensures caught == Some(Right(Str("positive")))
  {
    positive := RunSafe(NEnv(1), SimpleProgram(), 3);
    assert ShowInt(-1) == "-1";
    var p := SimpleProgram();
    assert Run(2, NEnv(-1), p.fx) == Some(Step(Right(Num(-1)), 1));
    assert Show(Num(-1)) == "-1";
    assert "got " + "-1" == "got -1";
    assert p.xfa(Num(-1)) == Succeed(Str("got -1"));
    assert Run(3, NEnv(-1), p) == Some(Step(Right(Str("got -1")), 0));
    negative := RunSafe(NEnv(-1), SimpleProgram(), 3);
    caught := RunSafe(NEnv(1), CatchAll(SimpleProgram(), (e: Value) => Succeed(e)), 5);
  }
}
