/** The four-node revision of the effect DSL in `src/exercises/day-1/06-io.ts`:
    `Succeed`, `Fail`, `Access` and `Chain` with plain fields, the recursive
    interpreter `run`, and `map` derived from `chain` and `succeed`.

    The interpreter's `default` branch (`hole()`) has no counterpart: the `match`
    below covers the four constructors and Dafny checks it is exhaustive. */
module PlainIO {
  import opened Outcomes
  import opened Values

  datatype IO<!R, !V> =
    | Succeed(value: V)
    | Fail(error: V)
    | Access(env: R -> V)
    | Chain(fa: IO<R, V>, afb: V -> IO<R, V>)

  /** The recursive interpreter `run(r)(p)` with `fuel` node visits; the fuel left
      over is strictly less than what was given. */
  function Run<R, V>(fuel: nat, r: R, p: IO<R, V>): (res: Option<Step<V>>)
    ensures res.Some? ==> res.value.fuel < fuel
    decreases fuel
  {
    if fuel == 0 then None
    else
      match p
      case Succeed(v) => Some(Step(Right(v), fuel - 1))
      case Fail(e) => Some(Step(Left(e), fuel - 1))
      case Access(f) => Some(Step(Right(f(r)), fuel - 1))
      case Chain(fa, afb) =>
        (match Run(fuel - 1, r, fa)
         case None => None
         case Some(Step(Left(e), k)) => Some(Step(Left(e), k))
         case Some(Step(Right(a), k)) => Run(k, r, afb(a)))
  }

  /** `run(r)(p)` terminates with `out`. */
  ghost predicate Evaluates<R, V>(r: R, p: IO<R, V>, out: Either<V, V>)
  {
    exists fuel: nat :: Run(fuel, r, p).Some? && Run(fuel, r, p).value.outcome == out
  }

  /** Extra fuel is handed back unused and changes nothing else. */
  lemma {:induction false} RunMonotone<R, V>(fuel: nat, extra: nat, r: R, p: IO<R, V>)
    requires Run(fuel, r, p).Some?
    ensures Run(fuel + extra, r, p)
            == Some(Step(Run(fuel, r, p).value.outcome, Run(fuel, r, p).value.fuel + extra))
    decreases fuel
  {
    if p.Chain? {
      RunMonotone(fuel - 1, extra, r, p.fa);
      var s := Run(fuel - 1, r, p.fa).value;
      assert Run(fuel + extra - 1, r, p.fa) == Some(Step(s.outcome, s.fuel + extra));
      if s.outcome.Right? {
        RunMonotone(s.fuel, extra, r, p.afb(s.outcome.right));
      }
    }
  }

  /** A terminating run has exactly one outcome. */
  lemma EvaluatesDeterministic<R, V>(r: R, p: IO<R, V>, o1: Either<V, V>, o2: Either<V, V>)
    requires Evaluates(r, p, o1) && Evaluates(r, p, o2)
    ensures o1 == o2
  {
    var f1: nat :| Run(f1, r, p).Some? && Run(f1, r, p).value.outcome == o1;
    var f2: nat :| Run(f2, r, p).Some? && Run(f2, r, p).value.outcome == o2;
    if f1 <= f2 {
      RunMonotone(f1, f2 - f1, r, p);
    } else {
      RunMonotone(f2, f1 - f2, r, p);
    }
  }

  /** Leaves: `Succeed(value)` gives `Right(value)`, `Fail(error)` gives
      `Left(error)`, `Access(env)` gives `Right(env(r))`. */
  lemma LeavesEvaluateDirectly<R, V>(r: R, v: V, f: R -> V, out: Either<V, V>)
    ensures Evaluates(r, Succeed(v), out) <==> out == Right(v)
    ensures Evaluates(r, Fail(v), out) <==> out == Left(v)
    ensures Evaluates(r, Access(f), out) <==> out == Right(f(r))
  {
    assert Run(1, r, Succeed(v)).value.outcome == Right(v);
    assert Run(1, r, Fail(v)).value.outcome == Left(v);
    assert Run(1, r, Access(f)).value.outcome == Right(f(r));
  }

  /** A `Chain` node terminates only if its source does. */
  lemma ChainNeedsSource<R, V>(r: R, fa: IO<R, V>, afb: V -> IO<R, V>, out: Either<V, V>)
    ensures Evaluates(r, Chain(fa, afb), out) ==> exists o :: Evaluates(r, fa, o)
  {
    if Evaluates(r, Chain(fa, afb), out) {
      var g: nat :| Run(g, r, Chain(fa, afb)).Some? && Run(g, r, Chain(fa, afb)).value.outcome == out;
      assert Evaluates(r, fa, Run(g - 1, r, fa).value.outcome);
    }
  }

  /** When `fa` fails, `Chain` returns that same `Left`, whatever `afb` is. */
  lemma ChainShortCircuits<R, V>(r: R, fa: IO<R, V>, afb: V -> IO<R, V>, e: V, out: Either<V, V>)
    requires Evaluates(r, fa, Left(e))
    ensures Evaluates(r, Chain(fa, afb), out) <==> out == Left(e)
  {
    var f: nat :| Run(f, r, fa).Some? && Run(f, r, fa).value.outcome == Left(e);
    assert Run(f + 1, r, Chain(fa, afb)).value.outcome == Left(e);
    if Evaluates(r, Chain(fa, afb), out) {
      var g: nat :| Run(g, r, Chain(fa, afb)).Some? && Run(g, r, Chain(fa, afb)).value.outcome == out;
      EvaluatesDeterministic(r, fa, Run(g - 1, r, fa).value.outcome, Left(e));
    }
  }

  /** When `fa` succeeds with `a`, `Chain` behaves as `afb(a)`. */
  lemma ChainContinues<R, V>(r: R, fa: IO<R, V>, afb: V -> IO<R, V>, a: V, out: Either<V, V>)
    requires Evaluates(r, fa, Right(a))
    ensures Evaluates(r, Chain(fa, afb), out) <==> Evaluates(r, afb(a), out)
  {
    var f: nat :| Run(f, r, fa).Some? && Run(f, r, fa).value.outcome == Right(a);
    if Evaluates(r, Chain(fa, afb), out) {
      var g: nat :| Run(g, r, Chain(fa, afb)).Some? && Run(g, r, Chain(fa, afb)).value.outcome == out;
      var s := Run(g - 1, r, fa).value;
      EvaluatesDeterministic(r, fa, s.outcome, Right(a));
      assert Run(s.fuel, r, afb(a)) == Run(g, r, Chain(fa, afb));
    }
    if Evaluates(r, afb(a), out) {
      var h: nat :| Run(h, r, afb(a)).Some? && Run(h, r, afb(a)).value.outcome == out;
      var k := Run(f, r, fa).value.fuel;
      RunMonotone(f, h, r, fa);
      RunMonotone(h, k, r, afb(a));
      assert Run(f + h + 1, r, Chain(fa, afb)) == Run(h + k, r, afb(a));
    }
  }

  /** `map(mapFn)` applied to `self`: `chain` into `succeed(mapFn(a))`. */
  function Map<R, V>(self: IO<R, V>, mapFn: V -> V): IO<R, V>
  {
    Chain(self, (a: V) => Succeed(mapFn(a)))
  }

  /** `map` applies its function to a success and keeps a failure as it is. */
  lemma MapOutcome<R, V>(r: R, self: IO<R, V>, mapFn: V -> V, o: Either<V, V>, out: Either<V, V>)
    requires Evaluates(r, self, o)
    ensures Evaluates(r, Map(self, mapFn), out) <==> out == if o.Left? then o else Right(mapFn(o.right))
  {
    if o.Left? {
      ChainShortCircuits(r, self, (a: V) => Succeed(mapFn(a)), o.left, out);
    } else {
      ChainContinues(r, self, (a: V) => Succeed(mapFn(a)), o.right, out);
      LeavesEvaluateDirectly(r, mapFn(o.right), (_: R) => o.right, out);
    }
  }

  /** Two maps compose: mapping `f` then `g` is mapping their composition, for every
      source, including one that never terminates. */
  lemma MapMapComposes<R, V>(r: R, self: IO<R, V>, f: V -> V, g: V -> V, out: Either<V, V>)
    ensures Evaluates(r, Map(Map(self, f), g), out) <==> Evaluates(r, Map(self, (a: V) => g(f(a))), out)
  {
    if o :| Evaluates(r, self, o) {
      var mid := if o.Left? then o else Right(f(o.right));
      MapOutcome(r, self, f, o, mid);
      MapOutcome(r, Map(self, f), g, mid, out);
      MapOutcome(r, self, (a: V) => g(f(a)), o, out);
    } else {
      forall o2 ensures !Evaluates(r, Map(self, f), o2) {
        ChainNeedsSource(r, self, Map(self, f).afb, o2);
      }
      ChainNeedsSource(r, Map(self, f), Map(Map(self, f), g).afb, out);
      ChainNeedsSource(r, self, Map(self, (a: V) => g(f(a))).afb, out);
    }
  }

  /** Environment `{ fs: () => string }` of the `map` test. */
  datatype FsEnv = FsEnv(fs: () -> string)

  /** Environment `{ x: number, y: string }` of the chain test. */
  datatype XYEnv = XYEnv(x: int, y: string)

  /** The `map` test: read `fs()`, append " :)", then append "!". */
  function MapProgram(): IO<FsEnv, Value>
  {
    Map(Map(Access((env: FsEnv) => Str(env.fs())), (s: Value) => Str(Show(s) + " :)")),
        (s: Value) => Str(Show(s) + "!"))
  }

  /** With `fs` returning "test", the two maps give "test :)!". */
  lemma MapProgramOutcome(out: Either<Value, Value>)
    ensures Evaluates(FsEnv(() => "test"), MapProgram(), out) <==> out == Right(Str("test :)!"))
  {
    var env := FsEnv(() => "test");
    var read := Access((env: FsEnv) => Str(env.fs()));
    var smile := (s: Value) => Str(Show(s) + " :)");
    var bang := (s: Value) => Str(Show(s) + "!");
    LeavesEvaluateDirectly(env, Str("test"), read.env, Right(Str("test")));
    assert smile(Str("test")) == Str("test :)");
    assert bang(Str("test :)")) == Str("test :)!");
    MapOutcome(env, read, smile, Right(Str("test")), Right(Str("test :)")));
    MapOutcome(env, Map(read, smile), bang, Right(Str("test :)")), out);
  }

  /** The chain test: read `x`, then read `y`, then fail with `y` followed by `x`. */
  function ChainProgram(): IO<XYEnv, Value>
  {
    Chain(Access((env: XYEnv) => Num(env.x)),
          (n: Value) => Chain(Access((env: XYEnv) => Str(env.y)),
                              (s: Value) => Fail(Str(Show(s) + Show(n)))))
  }

  /** With `{ x: 1, y: "error: " }` the chain test fails with "error: 1". */
  lemma ChainProgramOutcome(out: Either<Value, Value>)
    ensures Evaluates(XYEnv(1, "error: "), ChainProgram(), out) <==> out == Left(Str("error: 1"))
  {
    var env := XYEnv(1, "error: ");
    var p := ChainProgram();
    var inner := p.afb(Num(1));
    LeavesEvaluateDirectly(env, Num(1), p.fa.env, Right(Num(1)));
    ChainContinues(env, p.fa, p.afb, Num(1), out);
    LeavesEvaluateDirectly(env, Str("error: "), inner.fa.env, Right(Str("error: ")));
    ChainContinues(env, inner.fa, inner.afb, Str("error: "), out);
    assert Show(Num(1)) == "1";
    assert "error: " + "1" == "error: 1";
    LeavesEvaluateDirectly(env, Str("error: 1"), inner.fa.env, out);
  }
}
