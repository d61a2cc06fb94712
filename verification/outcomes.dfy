/** Result types shared by every interpreter of the model. */
module Outcomes {

  /** The `Either` of the effect library: `Left` carries an error, `Right` a value. */
  datatype Either<+E, +A> = Left(left: E) | Right(right: A)

  datatype Option<+T> = None | Some(value: T)

  /** What a fuel-bounded interpreter produces when it does not run out of fuel:
      the outcome of the program and the fuel it left unused. */
  datatype Step<V> = Step(outcome: Either<V, V>, fuel: nat)

  /** The outcome of a fuel-bounded run, forgetting the fuel that was left over. */
  function Outcome<V>(s: Option<Step<V>>): Option<Either<V, V>>
  {
    match s
    case None => None
    case Some(st) => Some(st.outcome)
  }
}
