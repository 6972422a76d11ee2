/** The calculator's arithmetic operations (`src/operations`): `add`, `subtract`, `multiply`
    and `divide` on Python numbers. */
module Operations {

  import opened Errors

  /** `Number = Union[int, float]`; a float is modelled as an exact real. */
  datatype Number = IntNum(i: int) | FloatNum(r: real)

  /** The mathematical value of a number. */
  function Val(n: Number): real {
    match n
    case IntNum(i) => i as real
    case FloatNum(r) => r
  }

  /** `a + b`, `a - b` and `a * b` stay `int` when both operands are `int`, and are `float` otherwise. */
  function Add(a: Number, b: Number): (r: Number)
    ensures Val(r) == Val(a) + Val(b)
    ensures r.IntNum? <==> a.IntNum? && b.IntNum?
  {
    if a.IntNum? && b.IntNum? then IntNum(a.i + b.i) else FloatNum(Val(a) + Val(b))
  }

  function Subtract(a: Number, b: Number): (r: Number)
    ensures Val(r) == Val(a) - Val(b)
    ensures r.IntNum? <==> a.IntNum? && b.IntNum?
  {
    if a.IntNum? && b.IntNum? then IntNum(a.i - b.i) else FloatNum(Val(a) - Val(b))
  }

  function Multiply(a: Number, b: Number): (r: Number)
    ensures Val(r) == Val(a) * Val(b)
    ensures r.IntNum? <==> a.IntNum? && b.IntNum?
  {
    if a.IntNum? && b.IntNum? then IntNum(a.i * b.i) else FloatNum(Val(a) * Val(b))
  }

  const DivideByZeroMessage := "Cannot divide by zero."

  /** `a / b` is true division (always a float); a zero divisor raises ValueError. */
  function Divide(a: Number, b: Number): (r: Result<real>)
    ensures r.Err? <==> Val(b) == 0.0
    ensures r.Err? ==> r.error == Error(ValueError, "Cannot divide by zero.")
    ensures r.Ok? ==> r.value * Val(b) == Val(a)
  {
    if Val(b) == 0.0 then Err(Error(ValueError, DivideByZeroMessage))
    else Ok(Val(a) / Val(b))
  }

  /** Subtracting what was added gives back the first operand, in type as well as value
      when both are `int`. */
  lemma SubtractUndoesAdd(a: Number, b: Number)
    ensures Val(Subtract(Add(a, b), b)) == Val(a)
    ensures a.IntNum? && b.IntNum? ==> Subtract(Add(a, b), b) == a
  {
  }

  /** Multiplying a quotient by its divisor gives back the dividend. */
  lemma MultiplyUndoesDivide(a: Number, b: Number)
    requires Val(b) != 0.0
    ensures Divide(a, b).Ok? && Val(Multiply(FloatNum(Divide(a, b).value), b)) == Val(a)
  {
  }
}
