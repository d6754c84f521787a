/** Small datatypes and real-number helpers shared by the models. */
module Common {

  datatype Option<+T> = None | Some(value: T)

  datatype Direction = LONG | SHORT

  function Abs(x: real): real {
    if x < 0.0 then -x else x
  }

  function Max(x: real, y: real): real {
    if x < y then y else x
  }

  function Min(x: real, y: real): real {
    if x < y then x else y
  }

  /** Price move in favour of a position: up for a long, down for a short. */
  function SignedMove(direction: Direction, entry: real, exit: real): real {
    if direction == LONG then exit - entry else entry - exit
  }

  lemma DivideBack(amount: real, unit: real)
    requires unit > 0.0
    ensures amount / unit * unit == amount
  {
  }
}
