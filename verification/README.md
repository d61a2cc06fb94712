# Effect DSL, schema derivation and boolean ADT in Dafny

This project models the workshop repository's small effect system and its companion exercises:

- **`IO<R, E, A>`**: a program that reads an environment `R` and fails with `E` or succeeds with `A`. It is modelled in three revisions:
  - `CanonicalIO`, from `src/IO.ts`. It has five nodes: `Succeed`, `Fail`, `Access`, `Chain` and `Catch`. Its parts are the recursive interpreter `run`, `simpleProgram` and `catchAll`.
  - `Trampoline`, also from `src/IO.ts`. It models the stack-safe interpreter `runSafe`, with its `FrameChain`/`FrameCatch` stack and its `pushing` and `popping` loops.
  - `FoldIO`, from `src/IO_attendee.ts`. Here `Catch` is replaced by a `Fold` node that observes both outcomes. It also has `catchAll` and `bracket` built on top.
  - `PlainIO`, from `src/exercises/day-1/06-io.ts`. It has four nodes and `map`, which is derived from `chain` and `succeed`.
- **Schema derivation** (`SchemaDerivation`, from `src/exercises/day-1/05-schema.ts`). It covers the closed set of schema shapes (`string`, `number`, `unknown`, `compose`, `stringNumber`) and the two functions derived from a schema: `parse` and `guard`.
- **`BooleanADT`** (from `src/index.ts`). It covers `makeTrue`, `makeFalse`, `invert` and `renderToString`.

How the model is built:

- **Interpreter.** The interpreters are total functions of a fuel budget. Each node visited costs one unit, and the fuel left over is returned. `Evaluates(r, p, out)` means that some budget makes `run(r)(p)` terminate with `out`.
- **Combinators.** Each combinator is characterised by an if-and-only-if lemma over `Evaluates`, given the outcome of its source. That lemma is the combinator's partner. A second lemma per revision shows that a combinator cannot terminate unless its source does.
- **Stack-safe interpreter.** The trampoline charges fuel the same way, so `RunSafe` is proved to compute exactly `Run` for every budget.
- **Values and errors.** They share one value type `V`. The frames of `runSafe` are typed `any` in the same way.
- **Schema host functions.** `Number.parseFloat` and `JSON.stringify` are parameters of the schema parser (a `Host`). The test scenarios use simplified integer-only instances of them.

The three revisions are distinct datatypes, so each states its own interpreter facts: determinism, the leaf rules and the `Chain` rules.

The IO constructors `succeed`, `fail`, `access` and `chain` (`src/IO.ts:58-179` and the matching lines of the other two revisions) are the datatype constructors of each `IO`.

## Model

| member | source | states |
|---|---|---|
| CanonicalIO.Run | src/IO.ts:251-283 | every step of the interpreter visits a node, so a finished run hands back strictly less fuel than it was given |
| CanonicalIO.RunMonotone | src/IO.ts:251-283 | a run that finishes with some fuel finishes identically with more; the surplus is handed back untouched |
| CanonicalIO.EvaluatesDeterministic | src/IO.ts:251-283 | `run(r)(p)` has at most one outcome |
| CanonicalIO.LeavesEvaluateDirectly | src/IO.ts:254-262 | `succeed(v)` runs to exactly `right(v)`, `fail(e)` to exactly `left(e)`, `access(f)` to exactly `right(f(r))` |
| CanonicalIO.CombinatorsNeedSource | src/IO.ts:263-280 | a `Chain` or `Catch` node can only terminate if its source `fx` terminates |
| CanonicalIO.ChainShortCircuits | src/IO.ts:263-271 | if `fx` fails with `e`, the chain's only outcome is `left(e)`; the continuation is never used |
| CanonicalIO.ChainContinues | src/IO.ts:263-271 | if `fx` succeeds with `a`, the chain's outcomes are exactly those of `xfa(a)` |
| CanonicalIO.CatchRecovers | src/IO.ts:272-280 | if `fx` fails with `e`, the catch's outcomes are exactly those of `xfe(e)` |
| CanonicalIO.CatchPassesSuccess | src/IO.ts:272-280 | if `fx` succeeds with `a`, the catch's only outcome is `right(a)` |
| CanonicalIO.SimpleProgram | src/IO.ts:188-191 | the definition: read `n`, then fail with "positive" or succeed with "got n"; characterised by `SimpleProgramOutcome`, and through `runSafe` by `Trampoline.SimpleProgramScenarios` |
| CanonicalIO.SimpleProgramOutcome | src/IO.ts:188-191 | for every `n`, `simpleProgram` fails with "positive" exactly when `n > 0`, and otherwise succeeds with "got n" |
| CanonicalIO.CatchAll | src/IO.ts:236-246 | the definition: a `Catch` node over `self` and `recoverFn`; characterised by `CatchRecovers`, `CatchPassesSuccess` and `CaughtSimpleProgramOutcome` |
| CanonicalIO.CaughtSimpleProgramOutcome | src/IO.ts:236-246 | `catchAll(succeed)` on `simpleProgram` with `n = 1` succeeds with "positive" and nothing else |
| Trampoline.Leaf | src/IO.ts:316-350 | the `pushing` loop always stops at a `Succeed`, `Fail` or `Access` node |
| Trampoline.ResumeDescends | src/IO.ts:333-348 | pushing the frame of a `Chain`/`Catch` node and descending into `fx` does not change what the machine computes |
| Trampoline.ResumeLeaf | src/IO.ts:318-332 | evaluating a leaf costs one unit and leaves its outcome pending for the frames |
| Trampoline.ResumeSpine | src/IO.ts:316-350 | descending the whole left spine runs out of fuel exactly when the budget does not cover the spine and its leaf; otherwise the machine continues by unwinding the leaf's outcome through the pushed frames |
| Trampoline.PushFrames | src/IO.ts:316-350 | the `pushing` loop stops at the leaf of the left spine, having pushed exactly that spine's frames, innermost on top, above the existing stack |
| Trampoline.Descend | src/IO.ts:316-350 | the descent phase runs out of fuel exactly when the budget does not cover the spine and its leaf, costing one unit per node; otherwise the pending result is the leaf's outcome; it preserves the machine's meaning |
| Trampoline.Skips | src/IO.ts:357-372 | the definition of the `popping` loop's test for dropping a frame: a chain frame under an error, a catch frame under a success; characterised by `Ascend`, whose contract says every dropped frame satisfies it and the frame it stops at does not |
| Trampoline.Ascend | src/IO.ts:352-376 | the `popping` loop drops exactly the frames that do not apply: chain frames under an error, catch frames under a success. It stops at the first frame that applies and returns that frame's program for the pending result, or reports an empty stack. It preserves the machine's meaning |
| Trampoline.ToEither | src/IO.ts:379 | the definition of the final conversion of `result`/`isError` into `left`/`right`; `RunSafe` states that the value it yields is `run`'s outcome |
| Trampoline.RunSafe | src/IO.ts:306-381 | for every budget, `runSafe` gives exactly the outcome of the recursive `run`, so it agrees with `run` whenever `run` terminates |
| Trampoline.SimpleProgramScenarios | test/IO.test.ts:6-29 | through `runSafe`: `n = 1` gives `left("positive")`, `n = -1` gives `right("got -1")`, and `catchAll(succeed)` with `n = 1` gives `right("positive")` |
| FoldIO.Run | src/IO_attendee.ts:282-314 | every step visits a node, so a finished run hands back strictly less fuel than it was given |
| FoldIO.RunMonotone | src/IO_attendee.ts:282-314 | extra fuel does not change a finished run's outcome and is handed back untouched |
| FoldIO.EvaluatesDeterministic | src/IO_attendee.ts:282-314 | `run(r)(p)` has at most one outcome |
| FoldIO.LeavesEvaluateDirectly | src/IO_attendee.ts:285-293 | `succeed`, `fail` and `access` nodes run to exactly `right(value)`, `left(error)` and `right(accessFn(r))` |
| FoldIO.ChainShortCircuits | src/IO_attendee.ts:294-302 | a failure `e` of `fx` makes `left(e)` the chain's only outcome |
| FoldIO.ChainContinues | src/IO_attendee.ts:294-302 | a success `a` of `fx` makes the chain's outcomes exactly those of `xfa(a)` |
| FoldIO.CombinatorsNeedSource | src/IO_attendee.ts:294-311 | a `Chain` or `Fold` node can only terminate if its source `fx` terminates |
| FoldIO.FoldDispatches | src/IO_attendee.ts:303-311 | the outcomes of `Fold` are exactly those of `onError(e)` after a failure `e` and of `onSuccess(a)` after a success `a` |
| FoldIO.CatchAll | src/IO_attendee.ts:239-250 | the definition: `Fold(self, recoverFn, succeed)`; characterised by `CatchAllOutcome` |
| FoldIO.CatchAllOutcome | src/IO_attendee.ts:239-250 | `catchAll(recoverFn)` has the outcomes of `recoverFn(e)` after a failure `e`, and keeps a success unchanged |
| FoldIO.Bracket | src/IO_attendee.ts:258-277 | the definition as written, chains only: acquire, then `use`, then `finalize(a, right(au))`; characterised by `BracketAcquireFails`, `BracketUseFails` and `BracketReleases` |
| FoldIO.Release | src/IO_attendee.ts:268-273 | the definition of `bracket`'s inner continuation: run `finalize(a, right(au))`, then succeed with `au`; characterised by `BracketReleases` and `BracketFoldReleases` |
| FoldIO.BracketAcquireFails | src/IO_attendee.ts:258-277 | if acquisition fails with `e`, `bracket`'s only outcome is `left(e)`; neither `use` nor `finalize` runs |
| FoldIO.BracketUseFails | src/IO_attendee.ts:258-277 | as written, if `use` fails with `eu`, `bracket`'s only outcome is `left(eu)` whatever `finalize` would do |
| FoldIO.BracketReleases | src/IO_attendee.ts:258-277 | if `use` succeeds with `au`, a failing finalizer's error is the outcome; otherwise the outcome is `right(au)` and the finalizer's value is discarded |
| FoldIO.BracketFold | src/IO_attendee.ts:252-257 | the definition the doc comment describes, with `use` under a `Fold` so the finalizer sees both exits; characterised by `BracketFoldUseFails`, `BracketFoldReleases` and `BracketIgnoresFinalizerOnUseFailure` |
| FoldIO.BracketFoldUseFails | src/IO_attendee.ts:252-257 | as documented, if `use` fails with `eu`, the finalizer runs on `left(eu)`; its error wins, and otherwise the outcome is `left(eu)` |
| FoldIO.BracketFoldReleases | src/IO_attendee.ts:252-257 | as documented, on a success exit `au` the finalizer runs on `right(au)`; its error wins, and otherwise the outcome is `right(au)` |
| FoldIO.BracketIgnoresFinalizerOnUseFailure | src/IO_attendee.ts:252-277 | a concrete input where `use` and the finalizer both fail: the code yields "use failed", the documented behaviour "finalizer failed" |
| FoldIO.SimpleProgram | src/IO_attendee.ts:187-190 | the definition: read `n`, then fail with "positive" or succeed with "got n"; characterised by `SimpleProgramPositive` |
| FoldIO.SimpleProgramPositive | src/IO_attendee.ts:187-190 | `simpleProgram` with `n = 1` fails with "positive" and nothing else |
| PlainIO.Run | src/exercises/day-1/06-io.ts:41-67 | every step visits a node, so a finished run hands back strictly less fuel than it was given |
| PlainIO.RunMonotone | src/exercises/day-1/06-io.ts:41-67 | extra fuel does not change a finished run's outcome and is handed back untouched |
| PlainIO.EvaluatesDeterministic | src/exercises/day-1/06-io.ts:41-67 | `run(r)(p)` has at most one outcome |
| PlainIO.LeavesEvaluateDirectly | src/exercises/day-1/06-io.ts:44-52 | `Succeed`, `Fail` and `Access` run to exactly `right(value)`, `left(error)` and `right(env(r))` |
| PlainIO.ChainNeedsSource | src/exercises/day-1/06-io.ts:53-61 | a `Chain` node can only terminate if its source `fa` terminates |
| PlainIO.ChainShortCircuits | src/exercises/day-1/06-io.ts:53-61 | a failure of `fa` is returned as it is: `left(e)` is the chain's only outcome |
| PlainIO.ChainContinues | src/exercises/day-1/06-io.ts:53-61 | a success `a` of `fa` makes the chain's outcomes exactly those of `afb(a)` |
| PlainIO.Map | src/exercises/day-1/06-io.ts:190-194 | the definition: `chain` into `succeed(mapFn(a))`; characterised by `MapOutcome` and `MapMapComposes` |
| PlainIO.MapOutcome | src/exercises/day-1/06-io.ts:190-194 | `map(mapFn)` turns a success `a` into exactly `right(mapFn(a))` and keeps a failure unchanged |
| PlainIO.MapMapComposes | src/exercises/day-1/06-io.ts:190-194 | for every source, terminating or not, mapping `f` and then `g` has the same outcomes as mapping their composition |
| PlainIO.MapProgram | test/day-1/io-2.test.ts:30-33 | the definition of the `map` test's program: read `fs()`, append " :)", then append "!"; characterised by `MapProgramOutcome` |
| PlainIO.MapProgramOutcome | test/day-1/io-2.test.ts:29-37 | reading `fs()` = "test" and mapping twice gives exactly `right("test :)!")` |
| PlainIO.ChainProgram | test/day-1/io-2.test.ts:14-21 | the definition of the chain test's program: read `x`, then read `y` and fail with `y` followed by `x`; characterised by `ChainProgramOutcome` |
| PlainIO.ChainProgramOutcome | test/day-1/io-2.test.ts:13-28 | with `{ x: 1, y: "error: " }` the nested chains give exactly `left("error: 1")` |
| SchemaDerivation.UnknownStringNumber | src/exercises/day-1/05-schema.ts:92 | the definition of the constant `unknownStringNumber`: `string` composed with `stringNumber`; characterised by `GuardDoesNotImplyParse` and `SchemaScenarios` |
| SchemaDerivation.Parse | src/exercises/day-1/05-schema.ts:103-134 | the definition of `parse`, by cases on the schema; characterised by `ParsePrimitives`, `ParseNumberString`, `ComposeSequences`, `ComposeAssociative` and `ParsedValuesPassGuard` |
| SchemaDerivation.Guard | src/exercises/day-1/05-schema.ts:145-159 | the definition of `guard`, by cases on the schema; characterised by `GuardFacts`, `ParsePrimitives`, `ParsedValuesPassGuard` and `GuardDoesNotImplyParse` |
| SchemaDerivation.ParsePrimitives | src/exercises/day-1/05-schema.ts:103-128 | `number` and `string` accept exactly the values their guards accept and return them unchanged, and otherwise fail with the message naming the stringified input; `unknown` accepts everything. So for these three schemas a value passes the guard exactly when it parses, and then it parses to itself |
| SchemaDerivation.ParseNumberString | src/exercises/day-1/05-schema.ts:117-126 | `stringNumber` fails exactly when the number conversion of the rendered input is NaN, with a message naming that input; otherwise it returns the number |
| SchemaDerivation.ComposeSequences | src/exercises/day-1/05-schema.ts:130-132 | a composed parser stops at the first schema's error; otherwise it is the second schema's parser applied to the first one's output |
| SchemaDerivation.ComposeAssociative | src/exercises/day-1/05-schema.ts:75-78 | composition is associative: `(a >>> b) >>> c` parses every input exactly as `a >>> (b >>> c)` |
| SchemaDerivation.ParsedValuesPassGuard | src/exercises/day-1/05-schema.ts:103-159 | every value a schema's parser returns passes that schema's guard |
| SchemaDerivation.GuardDoesNotImplyParse | src/exercises/day-1/05-schema.ts:87-92 | the converse fails for composed schemas: `guard(unknownStringNumber)` accepts `1`, yet `parse(unknownStringNumber)(1)` fails |
| SchemaDerivation.GuardFacts | src/exercises/day-1/05-schema.ts:145-159 | the guard of a composition is the guard of its second schema; `unknown`'s guard accepts everything; `string`'s accepts exactly strings |
| SchemaDerivation.SchemaScenarios | test/day-1/schema-2.test.ts:5-25 | the parse and guard tests: `number` rejects `""` and accepts `1`; `unknownStringNumber` rejects `1` and `"a"` with their messages and parses `"1"` to `1`; `guard(string)` accepts "test" and rejects `1` |
| BooleanADT.MakeTrue | src/index.ts:8-12 | the definition of the `True` constructor function; characterised by `RenderDistinguishes` and `InvertTrueRendersFalse` |
| BooleanADT.MakeFalse | src/index.ts:18-22 | the definition of the `False` constructor function; characterised by `RenderDistinguishes` |
| BooleanADT.Invert | src/index.ts:26-35 | inverting always yields the other constructor |
| BooleanADT.InvertInvolution | src/index.ts:26-35 | inverting twice gives back the original |
| BooleanADT.RenderDistinguishes | src/index.ts:37-46 | the two booleans render to different strings, "Boolean is True" and "Boolean is False" |
| BooleanADT.RenderToString | src/index.ts:37-46 | the definition of the rendering; characterised by `RenderDistinguishes` and `InvertTrueRendersFalse` |
| BooleanADT.InvertTrueRendersFalse | test/index.test.ts:4-8 | `renderToString(invert(makeTrue()))` is "Boolean is False" |

## Left out

- Divergence. A program can build continuations forever, so `run` and `runSafe` may not terminate. The model bounds them with fuel: `None` means the budget ran out, and the lemmas speak of terminating runs (`Evaluates`).
- The continuation-passing `use` fields that hide existential types, and the phantom fields. `use(f)` applies `f` to the node's fields, so the nodes carry their fields directly; this is equivalent to storing the fields. The phantom fields carry only types and are dropped: the schema's conversions `_A`/`_I`, the `_R`/`_E`/`_A` entries of the `use` records (`src/IO.ts:44-45`, `80-81` and `116`; `src/IO_attendee.ts:43-44`, `79-80` and `115`), and the plain `_E`/`_R`/`_A` fields of `src/exercises/day-1/06-io.ts:80-81`, `105-106` and `127`.
- Type-level checks in the exercise files. They are compile-time only.
- The separate type parameters for environment, error and value. One value type `V` stands for errors and values alike, as `runSafe`'s `any`-typed frames do.
- `runSafe`'s linked `Stack` is a sequence with the top first. The library `Either`, `pipe`, `flow` and `matchTag` are replaced by this project's own `Either` and direct application.
- Members declared with no body: `map` (in `src/IO.ts` and `src/IO_attendee.ts`), `unit`, `succeedWith` and `failWith`. In `06-io.ts` also `catchAll`, `bracket`, `foldM` and `provideSome`. There is nothing to model for them. The `succeed` test of `test/day-1/io-2.test.ts` uses `succeedWith`, so it is not modelled.
- The `>>>` method of schemas. It is `compose` with its arguments swapped, and `SchemaCompose` models it directly.
- The `hole()` default branch of `06-io.ts`'s `run`. It cannot be reached by the four constructors, and the model's `match` is exhaustive.
- JavaScript numbers are modelled as integers, so fractions, `NaN` and `Infinity` values are not representable.
- CanonicalIO.SimpleProgramOutcome: holds for a mathematical integer `n`, not for a JavaScript number. `ShowInt` (and `Render`, which uses it) writes every digit. JavaScript's template literal switches to exponent notation at magnitude 10^21 or more: `{ n: -1e21 }` gives "got -1e+21", where the model gives "got -1000000000000000000000". Integers beyond 2^53, which a JavaScript number cannot hold exactly, are also not modelled.
- Native call-stack depth. Keeping it bounded is the reason `runSafe` exists, but the model has no call stack to bound. What is modelled is the explicit frame stack of `runSafe` and its agreement with `run`.
- Exceptions thrown by callbacks. In the source, an exception from `accessFn`, `xfa`, `xfe`, `onError`, `onSuccess`, `use`, `finalize` or `recoverFn` propagates out of `run` and `runSafe`. The model's functions are total and pure, so no run ends with an exception.
- `Number.parseFloat` and `JSON.stringify` are parameters of `Parse`. The concrete `ParseLeadingInt` (optional minus sign and leading digits) and `Stringify` (quotes strings without escaping) exist only for the test scenarios. Whitespace, fractions, exponents and `Infinity` in `parseFloat`, and escaping in `JSON.stringify`, are not modelled.
- `unknown` inputs cover numbers, strings, booleans, `null` and `undefined`. Objects, arrays, functions, symbols and bigints are not modelled.
- The `dummy` constant of `src/index.ts` is not modelled. The ADT exercises `02-adt.ts` and `03-gadt.ts` and the other test files are outside this model.

## Findings

| source | as written | input that shows it | evidently intended | confidence | as-written member | corrected member |
|---|---|---|---|---|---|---|
| src/IO_attendee.ts:252-277 | `bracket` chains `finalize(a, right(au))` only after `use` succeeds, so a failing `use` never reaches the finalizer, and `finalize` never sees an error exit | acquire succeeds, `use` fails with "use failed", `finalize` fails with "finalizer failed": the result is "use failed" and the finalizer never ran | as the doc comment says, `finalize` receives the exit of `use`, error or success, and the original result is returned unless the finalizer fails (here "finalizer failed") | not executed | FoldIO.BracketUseFails, FoldIO.BracketIgnoresFinalizerOnUseFailure | FoldIO.BracketFoldUseFails |
