/** The effect DSL of `src/IO.ts`: five node kinds and the recursive interpreter `run`.

    The intermediate type hidden inside `Chain` and `Catch` is represented by one
    uniform value type `V`, used for values and errors alike, exactly as the
    trampoline's frames use `any`. The recursive interpreter need not terminate
    (continuations build arbitrary programs), so it is modelled with fuel: every
    node visited costs one unit and the unused fuel is handed back. A program
    evaluates to an outcome when some amount of fuel is enough. */
module CanonicalIO {
  import opened Outcomes
  import opened Values

  /** A program that reads an environment `R` and succeeds or fails with a `V`. */
  datatype IO<!R, !V> =
    | Succeed(value: V)
    | Fail(error: V)
    | Access(accessFn: R -> V)
    | Chain(fx: IO<R, V>, xfa: V -> IO<R, V>)
    | Catch(fx: IO<R, V>, xfe: V -> IO<R, V>)

  /** The recursive interpreter `run(r)(p)`, given `fuel` node visits. `None` means
      the fuel ran out; otherwise the result carries the fuel left over, which is
      strictly less than what was given, since at least the root was visited. */
  function Run<R, V>(fuel: nat, r: R, p: IO<R, V>): (res: Option<Step<V>>)
    ensures res.Some? ==> res.value.fuel < fuel
    decreases fuel
  {
    if fuel == 0 then None
    else
      match p
      case Succeed(v) => Some(Step(Right(v), fuel - 1))
      case Fail(e) => Some(Step(Left(e), fuel - 1))
      case Access(f) => Some(Step(Right(f(r)), fuel - 1))
      case Chain(fx, xfa) =>
        (match Run(fuel - 1, r, fx)
         case None => None
         case Some(Step(Left(e), k)) => Some(Step(Left(e), k))
         case Some(Step(Right(a), k)) => Run(k, r, xfa(a)))
      case Catch(fx, xfe) =>
        (match Run(fuel - 1, r, fx)
         case None => None
         case Some(Step(Left(e), k)) => Run(k, r, xfe(e))
         case Some(Step(Right(a), k)) => Some(Step(Right(a), k)))
  }

  /** `run(r)(p)` terminates with `out`. */
  ghost predicate Evaluates<R, V>(r: R, p: IO<R, V>, out: Either<V, V>)
  {
    exists fuel: nat :: Run(fuel, r, p).Some? && Run(fuel, r, p).value.outcome == out
  }

  /** Extra fuel never changes what `run` computes: it is handed back unused. */
  lemma {:induction false} RunMonotone<R, V>(fuel: nat, extra: nat, r: R, p: IO<R, V>)
    requires Run(fuel, r, p).Some?
    ensures Run(fuel + extra, r, p)
            == Some(Step(Run(fuel, r, p).value.outcome, Run(fuel, r, p).value.fuel + extra))
    decreases fuel
  {
    if p.Chain? || p.Catch? {
      RunMonotone(fuel - 1, extra, r, p.fx);
      var s := Run(fuel - 1, r, p.fx).value;
      assert Run(fuel + extra - 1, r, p.fx) == Some(Step(s.outcome, s.fuel + extra));
      if p.Chain? && s.outcome.Right? {
        RunMonotone(s.fuel, extra, r, p.xfa(s.outcome.right));
      } else if p.Catch? && s.outcome.Left? {
        RunMonotone(s.fuel, extra, r, p.xfe(s.outcome.left));
      }
    }
  }

  /** A terminating run has exactly one outcome. */
  lemma EvaluatesDeterministic<R, V>(r: R, p: IO<R, V>, o1: Either<V, V>, o2: Either<V, V>)
    requires Evaluates(r, p, o1) && Evaluates(r, p, o2)
    ensures o1 == o2
  {
    var f1: nat :| Run(f1, r, p).Some? && Run(f1, r, p).value.outcome == o1;
    var f2: nat :| Run(f2, r, p).Some? && Run(f2, r, p).value.outcome == o2;
    if f1 <= f2 {
      RunMonotone(f1, f2 - f1, r, p);
    } else {
      RunMonotone(f2, f1 - f2, r, p);
    }
  }

  /** Leaves evaluate directly, without touching anything but the environment. */
  lemma LeavesEvaluateDirectly<R, V>(r: R, v: V, f: R -> V, out: Either<V, V>)
    ensures Evaluates(r, Succeed(v), out) <==> out == Right(v)
    ensures Evaluates(r, Fail(v), out) <==> out == Left(v)
    ensures Evaluates(r, Access(f), out) <==> out == Right(f(r))
  {
    assert Run(1, r, Succeed(v)).value.outcome == Right(v);
    assert Run(1, r, Fail(v)).value.outcome == Left(v);
    assert Run(1, r, Access(f)).value.outcome == Right(f(r));
  }

  /** A `Chain` or `Catch` node terminates only if its source does. */
  lemma CombinatorsNeedSource<R, V>(r: R, fx: IO<R, V>, k: V -> IO<R, V>, out: Either<V, V>)
    ensures Evaluates(r, Chain(fx, k), out) ==> exists o :: Evaluates(r, fx, o)
    ensures Evaluates(r, Catch(fx, k), out) ==> exists o :: Evaluates(r, fx, o)
  {
    if Evaluates(r, Chain(fx, k), out) {
      var g: nat :| Run(g, r, Chain(fx, k)).Some? && Run(g, r, Chain(fx, k)).value.outcome == out;
      assert Evaluates(r, fx, Run(g - 1, r, fx).value.outcome);
    }
    if Evaluates(r, Catch(fx, k), out) {
      var g: nat :| Run(g, r, Catch(fx, k)).Some? && Run(g, r, Catch(fx, k)).value.outcome == out;
      assert Evaluates(r, fx, Run(g - 1, r, fx).value.outcome);
    }
  }

  /** When the source fails with `e`, `Chain` fails with `e` whatever `xfa` is:
      the continuation is never applied. */
  lemma ChainShortCircuits<R, V>(r: R, fx: IO<R, V>, xfa: V -> IO<R, V>, e: V, out: Either<V, V>)
    requires Evaluates(r, fx, Left(e))
    ensures Evaluates(r, Chain(fx, xfa), out) <==> out == Left(e)
  {
    var f: nat :| Run(f, r, fx).Some? && Run(f, r, fx).value.outcome == Left(e);
    assert Run(f + 1, r, Chain(fx, xfa)).value.outcome == Left(e);
    if Evaluates(r, Chain(fx, xfa), out) {
      var g: nat :| Run(g, r, Chain(fx, xfa)).Some? && Run(g, r, Chain(fx, xfa)).value.outcome == out;
      EvaluatesDeterministic(r, fx, Run(g - 1, r, fx).value.outcome, Left(e));
    }
  }

  /** When the source succeeds with `a`, `Chain` behaves as `xfa(a)` run against the
      same environment. */
  lemma ChainContinues<R, V>(r: R, fx: IO<R, V>, xfa: V -> IO<R, V>, a: V, out: Either<V, V>)
    requires Evaluates(r, fx, Right(a))
    ensures Evaluates(r, Chain(fx, xfa), out) <==> Evaluates(r, xfa(a), out)
  {
    var f: nat :| Run(f, r, fx).Some? && Run(f, r, fx).value.outcome == Right(a);
    if Evaluates(r, Chain(fx, xfa), out) {
      var g: nat :| Run(g, r, Chain(fx, xfa)).Some? && Run(g, r, Chain(fx, xfa)).value.outcome == out;
      var s := Run(g - 1, r, fx).value;
      EvaluatesDeterministic(r, fx, s.outcome, Right(a));
      assert Run(s.fuel, r, xfa(a)) == Run(g, r, Chain(fx, xfa));
    }
    if Evaluates(r, xfa(a), out) {
      var h: nat :| Run(h, r, xfa(a)).Some? && Run(h, r, xfa(a)).value.outcome == out;
      var k := Run(f, r, fx).value.fuel;
      RunMonotone(f, h, r, fx);
      RunMonotone(h, k, r, xfa(a));
      assert Run(f + h + 1, r, Chain(fx, xfa)) == Run(h + k, r, xfa(a));
    }
  }

  /** When the source fails with `e`, `Catch` behaves as `xfe(e)` run against the
      same environment. */
  lemma CatchRecovers<R, V>(r: R, fx: IO<R, V>, xfe: V -> IO<R, V>, e: V, out: Either<V, V>)
    requires Evaluates(r, fx, Left(e))
    ensures Evaluates(r, Catch(fx, xfe), out) <==> Evaluates(r, xfe(e), out)
  {
    var f: nat :| Run(f, r, fx).Some? && Run(f, r, fx).value.outcome == Left(e);
    if Evaluates(r, Catch(fx, xfe), out) {
      var g: nat :| Run(g, r, Catch(fx, xfe)).Some? && Run(g, r, Catch(fx, xfe)).value.outcome == out;
      var s := Run(g - 1, r, fx).value;
      EvaluatesDeterministic(r, fx, s.outcome, Left(e));
      assert Run(s.fuel, r, xfe(e)) == Run(g, r, Catch(fx, xfe));
    }
    if Evaluates(r, xfe(e), out) {
      var h: nat :| Run(h, r, xfe(e)).Some? && Run(h, r, xfe(e)).value.outcome == out;
      var k := Run(f, r, fx).value.fuel;
      RunMonotone(f, h, r, fx);
      RunMonotone(h, k, r, xfe(e));
      assert Run(f + h + 1, r, Catch(fx, xfe)) == Run(h + k, r, xfe(e));
    }
  }

  /** When the source succeeds with `a`, `Catch` succeeds with `a` whatever `xfe` is:
      the handler is never applied. */
  lemma CatchPassesSuccess<R, V>(r: R, fx: IO<R, V>, xfe: V -> IO<R, V>, a: V, out: Either<V, V>)
    requires Evaluates(r, fx, Right(a))
    ensures Evaluates(r, Catch(fx, xfe), out) <==> out == Right(a)
  {
    var f: nat :| Run(f, r, fx).Some? && Run(f, r, fx).value.outcome == Right(a);
    assert Run(f + 1, r, Catch(fx, xfe)).value.outcome == Right(a);
    if Evaluates(r, Catch(fx, xfe), out) {
      var g: nat :| Run(g, r, Catch(fx, xfe)).Some? && Run(g, r, Catch(fx, xfe)).value.outcome == out;
      EvaluatesDeterministic(r, fx, Run(g - 1, r, fx).value.outcome, Right(a));
    }
  }

  /** `simpleProgram`: read `n` from the environment, fail with "positive" when it
      is positive, succeed with "got n" otherwise. */
  function SimpleProgram(): IO<NEnv, Value>
  {
    Chain(
      Access((env: NEnv) => Num(env.n)),
      (v: Value) => if v.Num? && v.n > 0 then Fail(Str("positive")) else Succeed(Str("got " + Show(v))))
  }

  /** `catchAll(f)` applied to `self` builds a `Catch` node. */
  function CatchAll<R, V>(self: IO<R, V>, recoverFn: V -> IO<R, V>): IO<R, V>
  {
    Catch(self, recoverFn)
  }

  /** What `simpleProgram` computes for every `n`: "positive" as an error when `n`
      is positive, "got n" as a value otherwise. */
  lemma SimpleProgramOutcome(n: int, out: Either<Value, Value>)
    ensures Evaluates(NEnv(n), SimpleProgram(), out)
            <==> out == (if n > 0 then Left(Str("positive")) else Right(Str("got " + ShowInt(n))))
  {
    var p := SimpleProgram();
    LeavesEvaluateDirectly(NEnv(n), Num(n), p.fx.accessFn, Right(Num(n)));
    ChainContinues(NEnv(n), p.fx, p.xfa, Num(n), out);
    LeavesEvaluateDirectly(NEnv(n), Str("positive"), p.fx.accessFn, out);
    LeavesEvaluateDirectly(NEnv(n), Str("got " + ShowInt(n)), p.fx.accessFn, out);
  }

  /** `simpleProgram` recovered by `catchAll(succeed)` turns the failure into a success. */
  lemma CaughtSimpleProgramOutcome(out: Either<Value, Value>)
    ensures Evaluates(NEnv(1), CatchAll(SimpleProgram(), (e: Value) => Succeed(e)), out)
            <==> out == Right(Str("positive"))
  {
    var h := (e: Value) => Succeed(e);
    SimpleProgramOutcome(1, Left(Str("positive")));
    CatchRecovers(NEnv(1), SimpleProgram(), h, Str("positive"), out);
    LeavesEvaluateDirectly(NEnv(1), Str("positive"), (env: NEnv) => Num(env.n), out);
  }
}
