/** The revision of the effect DSL in `src/IO_attendee.ts`: `Catch` is replaced by
    `Fold`, which observes both outcomes of its source; `catchAll` and `bracket` are
    derived from the primitives, and there is only the recursive interpreter.

    As for the canonical revision, values and errors share one type `V` and the
    interpreter is fuel-bounded, charging one unit per node visited. */
module FoldIO {
  import opened Outcomes
  import opened Values

  datatype IO<!R, !V> =
    | Succeed(value: V)
    | Fail(error: V)
    | Access(accessFn: R -> V)
    | Chain(fx: IO<R, V>, xfa: V -> IO<R, V>)
    | Fold(fx: IO<R, V>, onError: V -> IO<R, V>, onSuccess: V -> IO<R, V>)

  /** The recursive interpreter `run(r)(p)` with `fuel` node visits; the fuel left
      over is strictly less than what was given. */
  function Run<R, V>(fuel: nat, r: R, p: IO<R, V>): (res: Option<Step<V>>)
    ensures res.Some? ==> res.value.fuel < fuel
    decreases fuel
  {
    if fuel == 0 then None
    else
      match p
      case Succeed(v) => Some(Step(Right(v), fuel - 1))
      case Fail(e) => Some(Step(Left(e), fuel - 1))
      case Access(f) => Some(Step(Right(f(r)), fuel - 1))
      case Chain(_, _) | Fold(_, _, _) =>
        (match Run(fuel - 1, r, p.fx)
         case None => None
         case Some(s) =>
           (match Continuation(p, s.outcome)
            case None => Some(s)
            case Some(next) => Run(s.fuel, r, next)))
  }

  /** `run(r)(p)` terminates with `out`. */
  ghost predicate Evaluates<R, V>(r: R, p: IO<R, V>, out: Either<V, V>)
  {
    exists fuel: nat :: Run(fuel, r, p).Some? && Run(fuel, r, p).value.outcome == out
  }

  /** What a `Chain` or `Fold` node runs after its source produced `o`: a `Chain`
      passes a failure straight through (`None`) and continues with `xfa` after a
      success; a `Fold` continues with `onError` or `onSuccess`. */
  function Continuation<R, V>(p: IO<R, V>, o: Either<V, V>): Option<IO<R, V>>
    requires p.Chain? || p.Fold?
  {
    if p.Chain? then (if o.Left? then None else Some(p.xfa(o.right)))
    else Some(if o.Left? then p.onError(o.left) else p.onSuccess(o.right))
  }

  /** Extra fuel is handed back unused and changes nothing else. */
  lemma {:induction false} RunMonotone<R, V>(fuel: nat, extra: nat, r: R, p: IO<R, V>)
    requires Run(fuel, r, p).Some?
    ensures Run(fuel + extra, r, p)
            == Some(Step(Run(fuel, r, p).value.outcome, Run(fuel, r, p).value.fuel + extra))
    decreases fuel
  {
    if p.Chain? || p.Fold? {
      RunMonotone(fuel - 1, extra, r, p.fx);
      var s := Run(fuel - 1, r, p.fx).value;
      var next := Continuation(p, s.outcome);
      if next.Some? {
        RunMonotone(s.fuel, extra, r, next.value);
      }
    }
  }

  /** A terminating run has exactly one outcome. */
  lemma EvaluatesDeterministic<R, V>(r: R, p: IO<R, V>, o1: Either<V, V>, o2: Either<V, V>)
    requires Evaluates(r, p, o1) && Evaluates(r, p, o2)
    ensures o1 == o2
  {
    var f1: nat :| Run(f1, r, p).Some? && Run(f1, r, p).value.outcome == o1;
    var f2: nat :| Run(f2, r, p).Some? && Run(f2, r, p).value.outcome == o2;
    if f1 <= f2 {
      RunMonotone(f1, f2 - f1, r, p);
    } else {
      RunMonotone(f2, f1 - f2, r, p);
    }
  }

  /** Leaves evaluate as in the canonical revision. */
  lemma LeavesEvaluateDirectly<R, V>(r: R, v: V, f: R -> V, out: Either<V, V>)
    ensures Evaluates(r, Succeed(v), out) <==> out == Right(v)
    ensures Evaluates(r, Fail(v), out) <==> out == Left(v)
    ensures Evaluates(r, Access(f), out) <==> out == Right(f(r))
  {
    assert Run(1, r, Succeed(v)).value.outcome == Right(v);
    assert Run(1, r, Fail(v)).value.outcome == Left(v);
    assert Run(1, r, Access(f)).value.outcome == Right(f(r));
  }

  /** A failing source makes `Chain` fail with the same error, whatever `xfa` is. */
  lemma ChainShortCircuits<R, V>(r: R, fx: IO<R, V>, xfa: V -> IO<R, V>, e: V, out: Either<V, V>)
    requires Evaluates(r, fx, Left(e))
    ensures Evaluates(r, Chain(fx, xfa), out) <==> out == Left(e)
  {
    var f: nat :| Run(f, r, fx).Some? && Run(f, r, fx).value.outcome == Left(e);
    assert Run(f + 1, r, Chain(fx, xfa)).value.outcome == Left(e);
    if Evaluates(r, Chain(fx, xfa), out) {
      var g: nat :| Run(g, r, Chain(fx, xfa)).Some? && Run(g, r, Chain(fx, xfa)).value.outcome == out;
      EvaluatesDeterministic(r, fx, Run(g - 1, r, fx).value.outcome, Left(e));
    }
  }

  /** A source succeeding with `a` makes `Chain` behave as `xfa(a)`. */
  lemma ChainContinues<R, V>(r: R, fx: IO<R, V>, xfa: V -> IO<R, V>, a: V, out: Either<V, V>)
    requires Evaluates(r, fx, Right(a))
    ensures Evaluates(r, Chain(fx, xfa), out) <==> Evaluates(r, xfa(a), out)
  {
    var f: nat :| Run(f, r, fx).Some? && Run(f, r, fx).value.outcome == Right(a);
    if Evaluates(r, Chain(fx, xfa), out) {
      var g: nat :| Run(g, r, Chain(fx, xfa)).Some? && Run(g, r, Chain(fx, xfa)).value.outcome == out;
      var s := Run(g - 1, r, fx).value;
      EvaluatesDeterministic(r, fx, s.outcome, Right(a));
      assert Run(s.fuel, r, xfa(a)) == Run(g, r, Chain(fx, xfa));
    }
    if Evaluates(r, xfa(a), out) {
      var h: nat :| Run(h, r, xfa(a)).Some? && Run(h, r, xfa(a)).value.outcome == out;
      var k := Run(f, r, fx).value.fuel;
      RunMonotone(f, h, r, fx);
      RunMonotone(h, k, r, xfa(a));
      assert Run(f + h + 1, r, Chain(fx, xfa)) == Run(h + k, r, xfa(a));
    }
  }

  /** A `Chain` or `Fold` node terminates only if its source does. */
  lemma CombinatorsNeedSource<R, V>(r: R, fx: IO<R, V>, k: V -> IO<R, V>, k2: V -> IO<R, V>, out: Either<V, V>)
    ensures Evaluates(r, Chain(fx, k), out) ==> exists o :: Evaluates(r, fx, o)
    ensures Evaluates(r, Fold(fx, k, k2), out) ==> exists o :: Evaluates(r, fx, o)
  {
    if Evaluates(r, Chain(fx, k), out) {
      var g: nat :| Run(g, r, Chain(fx, k)).Some? && Run(g, r, Chain(fx, k)).value.outcome == out;
      assert Evaluates(r, fx, Run(g - 1, r, fx).value.outcome);
    }
    if Evaluates(r, Fold(fx, k, k2), out) {
      var g: nat :| Run(g, r, Fold(fx, k, k2)).Some? && Run(g, r, Fold(fx, k, k2)).value.outcome == out;
      assert Evaluates(r, fx, Run(g - 1, r, fx).value.outcome);
    }
  }

  /** The program a `Fold` continues with after its source produced `o`. */
  function FoldNext<R, V>(onError: V -> IO<R, V>, onSuccess: V -> IO<R, V>, o: Either<V, V>): IO<R, V>
  {
    if o.Left? then onError(o.left) else onSuccess(o.right)
  }

  /** Every outcome of a `Fold` is an outcome of the branch its source selects. */
  lemma FoldOutcomeFromBranch<R, V>(r: R, fx: IO<R, V>, onError: V -> IO<R, V>, onSuccess: V -> IO<R, V>,
                                    o: Either<V, V>, out: Either<V, V>)
    requires Evaluates(r, fx, o)
    requires Evaluates(r, Fold(fx, onError, onSuccess), out)
    ensures Evaluates(r, FoldNext(onError, onSuccess, o), out)
  {
    var p := Fold(fx, onError, onSuccess);
    var g: nat :| Run(g, r, p).Some? && Run(g, r, p).value.outcome == out;
    var s := Run(g - 1, r, fx).value;
    EvaluatesDeterministic(r, fx, s.outcome, o);
    assert Run(s.fuel, r, FoldNext(onError, onSuccess, o)) == Run(g, r, p);
  }

  /** Every outcome of the branch the source selects is an outcome of the `Fold`. */
  lemma FoldOutcomeToBranch<R, V>(r: R, fx: IO<R, V>, onError: V -> IO<R, V>, onSuccess: V -> IO<R, V>,
                                  o: Either<V, V>, out: Either<V, V>)
    requires Evaluates(r, fx, o)
    requires Evaluates(r, FoldNext(onError, onSuccess, o), out)
    ensures Evaluates(r, Fold(fx, onError, onSuccess), out)
  {
    var next := FoldNext(onError, onSuccess, o);
    var f: nat :| Run(f, r, fx).Some? && Run(f, r, fx).value.outcome == o;
    var h: nat :| Run(h, r, next).Some? && Run(h, r, next).value.outcome == out;
    var k := Run(f, r, fx).value.fuel;
    RunMonotone(f, h, r, fx);
    RunMonotone(h, k, r, next);
    assert Run(f + h + 1, r, Fold(fx, onError, onSuccess)) == Run(h + k, r, next);
  }

  /** `Fold` continues with `onError(e)` after a failure `e` and with `onSuccess(a)`
      after a success `a`, against the same environment; whatever that program
      produces, an error included, is the result of the `Fold`. */
  lemma FoldDispatches<R, V>(r: R, fx: IO<R, V>, onError: V -> IO<R, V>, onSuccess: V -> IO<R, V>,
                             o: Either<V, V>, out: Either<V, V>)
    requires Evaluates(r, fx, o)
    ensures Evaluates(r, Fold(fx, onError, onSuccess), out)
            <==> Evaluates(r, if o.Left? then onError(o.left) else onSuccess(o.right), out)
  {
    if Evaluates(r, Fold(fx, onError, onSuccess), out) {
      FoldOutcomeFromBranch(r, fx, onError, onSuccess, o, out);
    }
    if Evaluates(r, FoldNext(onError, onSuccess, o), out) {
      FoldOutcomeToBranch(r, fx, onError, onSuccess, o, out);
    }
  }

  /** `catchAll(recoverFn)` applied to `self`: a `Fold` whose success branch is `succeed`. */
  function CatchAll<R, V>(self: IO<R, V>, recoverFn: V -> IO<R, V>): IO<R, V>
  {
    Fold(self, recoverFn, (a: V) => Succeed(a))
  }

  /** `catchAll` hands an error to the recovery function and keeps a success as it is. */
  lemma CatchAllOutcome<R, V>(r: R, self: IO<R, V>, recoverFn: V -> IO<R, V>, o: Either<V, V>, out: Either<V, V>)
    requires Evaluates(r, self, o)
    ensures Evaluates(r, CatchAll(self, recoverFn), out)
            <==> if o.Left? then Evaluates(r, recoverFn(o.left), out) else out == o
  {
    FoldDispatches(r, self, recoverFn, (a: V) => Succeed(a), o, out);
    if o.Right? {
      LeavesEvaluateDirectly(r, o.right, (_: R) => o.right, out);
    }
  }

  /** The continuation `bracket` chains after `use(a)` succeeds with `au`: run the
      finalizer on the success exit, then return `au`. */
  function Release<R, V>(a: V, finalize: (V, Either<V, V>) -> IO<R, V>): V -> IO<R, V>
  {
    (au: V) => Chain(finalize(a, Right(au)), (_: V) => Succeed(au))
  }

  /** `bracket(use, finalize)` applied to `self`, as the code builds it: from `Chain`
      alone, so the finalizer only ever sees a success exit. */
  function Bracket<R, V>(self: IO<R, V>, use: V -> IO<R, V>, finalize: (V, Either<V, V>) -> IO<R, V>): IO<R, V>
  {
    Chain(self, (a: V) => Chain(use(a), Release(a, finalize)))
  }

  /** When acquisition fails, `bracket` fails with that error; neither `use` nor
      `finalize` is run. */
  lemma BracketAcquireFails<R, V>(r: R, self: IO<R, V>, use: V -> IO<R, V>,
                                  finalize: (V, Either<V, V>) -> IO<R, V>, e: V, out: Either<V, V>)
    requires Evaluates(r, self, Left(e))
    ensures Evaluates(r, Bracket(self, use, finalize), out) <==> out == Left(e)
  {
    ChainShortCircuits(r, self, (a: V) => Chain(use(a), Release(a, finalize)), e, out);
  }

  /** When `use` fails, `bracket` fails with `use`'s error and the finalizer is not
      run: the outcome is the same whatever `finalize` would do. */
  lemma BracketUseFails<R, V>(r: R, self: IO<R, V>, use: V -> IO<R, V>,
                              finalize: (V, Either<V, V>) -> IO<R, V>, a: V, eu: V, out: Either<V, V>)
    requires Evaluates(r, self, Right(a))
    requires Evaluates(r, use(a), Left(eu))
    ensures Evaluates(r, Bracket(self, use, finalize), out) <==> out == Left(eu)
  {
    ChainContinues(r, self, (a: V) => Chain(use(a), Release(a, finalize)), a, out);
    ChainShortCircuits(r, use(a), Release(a, finalize), eu, out);
  }

  /** When `use` succeeds with `au`, the finalizer runs on the success exit; its
      error, if any, becomes the result, and otherwise its value is discarded and
      `bracket` succeeds with `au`. */
  lemma BracketReleases<R, V>(r: R, self: IO<R, V>, use: V -> IO<R, V>,
                              finalize: (V, Either<V, V>) -> IO<R, V>, a: V, au: V,
                              fo: Either<V, V>, out: Either<V, V>)
    requires Evaluates(r, self, Right(a))
    requires Evaluates(r, use(a), Right(au))
    requires Evaluates(r, finalize(a, Right(au)), fo)
    ensures Evaluates(r, Bracket(self, use, finalize), out) <==> out == if fo.Left? then fo else Right(au)
  {
    ChainContinues(r, self, (a: V) => Chain(use(a), Release(a, finalize)), a, out);
    ChainContinues(r, use(a), Release(a, finalize), au, out);
    if fo.Left? {
      ChainShortCircuits(r, finalize(a, Right(au)), (_: V) => Succeed(au), fo.left, out);
    } else {
      ChainContinues(r, finalize(a, Right(au)), (_: V) => Succeed(au), fo.right, out);
      LeavesEvaluateDirectly(r, au, (_: R) => au, out);
    }
  }

  /** `bracket` as its documentation describes it: the finalizer sees the exit of
      `use`, error or success, and the original result is returned unless the
      finalizer itself fails. Built with `Fold`, the primitive that observes both
      outcomes. */
  function BracketFold<R, V>(self: IO<R, V>, use: V -> IO<R, V>, finalize: (V, Either<V, V>) -> IO<R, V>): IO<R, V>
  {
    Chain(self, (a: V) => Fold(use(a),
                               (eu: V) => Chain(finalize(a, Left(eu)), (_: V) => Fail(eu)),
                               Release(a, finalize)))
  }

  /** With the documented behaviour, a failing `use` still runs the finalizer on
      the error exit: a finalizer error wins, otherwise `use`'s error is returned. */
  lemma BracketFoldUseFails<R, V>(r: R, self: IO<R, V>, use: V -> IO<R, V>,
                                  finalize: (V, Either<V, V>) -> IO<R, V>, a: V, eu: V,
                                  fo: Either<V, V>, out: Either<V, V>)
    requires Evaluates(r, self, Right(a))
    requires Evaluates(r, use(a), Left(eu))
    requires Evaluates(r, finalize(a, Left(eu)), fo)
    ensures Evaluates(r, BracketFold(self, use, finalize), out) <==> out == if fo.Left? then fo else Left(eu)
  {
    var onError := (eu: V) => Chain(finalize(a, Left(eu)), (_: V) => Fail(eu));
    ChainContinues(r, self, (a: V) => Fold(use(a), (eu: V) => Chain(finalize(a, Left(eu)), (_: V) => Fail(eu)),
                                           Release(a, finalize)), a, out);
    FoldDispatches(r, use(a), onError, Release(a, finalize), Left(eu), out);
    if fo.Left? {
      ChainShortCircuits(r, finalize(a, Left(eu)), (_: V) => Fail(eu), fo.left, out);
    } else {
      ChainContinues(r, finalize(a, Left(eu)), (_: V) => Fail(eu), fo.right, out);
      LeavesEvaluateDirectly(r, eu, (_: R) => eu, out);
    }
  }

  /** With the documented behaviour, the success exit is handled as the code does. */
  lemma BracketFoldReleases<R, V>(r: R, self: IO<R, V>, use: V -> IO<R, V>,
                                  finalize: (V, Either<V, V>) -> IO<R, V>, a: V, au: V,
                                  fo: Either<V, V>, out: Either<V, V>)
    requires Evaluates(r, self, Right(a))
    requires Evaluates(r, use(a), Right(au))
    requires Evaluates(r, finalize(a, Right(au)), fo)
    ensures Evaluates(r, BracketFold(self, use, finalize), out) <==> out == if fo.Left? then fo else Right(au)
  {
    var onError := (eu: V) => Chain(finalize(a, Left(eu)), (_: V) => Fail(eu));
    ChainContinues(r, self, (a: V) => Fold(use(a), (eu: V) => Chain(finalize(a, Left(eu)), (_: V) => Fail(eu)),
                                           Release(a, finalize)), a, out);
    FoldDispatches(r, use(a), onError, Release(a, finalize), Right(au), out);
    if fo.Left? {
      ChainShortCircuits(r, finalize(a, Right(au)), (_: V) => Succeed(au), fo.left, out);
    } else {
      ChainContinues(r, finalize(a, Right(au)), (_: V) => Succeed(au), fo.right, out);
      LeavesEvaluateDirectly(r, au, (_: R) => au, out);
    }
  }

  /** A concrete input on which the two differ: `use` fails and the finalizer
      fails too. The code returns `use`'s error, never consulting the finalizer;
      the documented behaviour reports the finalizer's error. */
  lemma BracketIgnoresFinalizerOnUseFailure(out: Either<Value, Value>)
    ensures Evaluates(NEnv(0), Bracket(Succeed(Num(0)), (_: Value) => Fail(Str("use failed")),
                                       (_: Value, _: Either<Value, Value>) => Fail(Str("finalizer failed"))), out)
            <==> out == Left(Str("use failed"))
    ensures Evaluates(NEnv(0), BracketFold(Succeed(Num(0)), (_: Value) => Fail(Str("use failed")),
                                           (_: Value, _: Either<Value, Value>) => Fail(Str("finalizer failed"))), out)
            <==> out == Left(Str("finalizer failed"))
  {
    var self: IO<NEnv, Value> := Succeed(Num(0));
    var use := (_: Value) => Fail(Str("use failed"));
    var finalize := (_: Value, _: Either<Value, Value>) => Fail(Str("finalizer failed"));
    var env := NEnv(0);
    LeavesEvaluateDirectly(env, Num(0), (_: NEnv) => Num(0), Right(Num(0)));
    LeavesEvaluateDirectly(env, Str("use failed"), (_: NEnv) => Num(0), Left(Str("use failed")));
    LeavesEvaluateDirectly(env, Str("finalizer failed"), (_: NEnv) => Num(0), Left(Str("finalizer failed")));
    BracketUseFails(env, self, use, finalize, Num(0), Str("use failed"), out);
    BracketFoldUseFails(env, self, use, finalize, Num(0), Str("use failed"), Left(Str("finalizer failed")), out);
  }

  /** `simpleProgram` of this revision. */
  function SimpleProgram(): IO<NEnv, Value>
  {
    Chain(
      Access((env: NEnv) => Num(env.n)),
      (v: Value) => if v.Num? && v.n > 0 then Fail(Str("positive")) else Succeed(Str("got " + Show(v))))
  }

  /** `simpleProgram` with `{ n: 1 }` fails with "positive". */
  lemma SimpleProgramPositive(out: Either<Value, Value>)
    ensures Evaluates(NEnv(1), SimpleProgram(), out) <==> out == Left(Str("positive"))
  {
    var p := SimpleProgram();
    LeavesEvaluateDirectly(NEnv(1), Num(1), p.fx.accessFn, Right(Num(1)));
    ChainContinues(NEnv(1), p.fx, p.xfa, Num(1), out);
    LeavesEvaluateDirectly(NEnv(1), Str("positive"), p.fx.accessFn, out);
  }
}
