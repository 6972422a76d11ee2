/** `safe_divide`: division guarded by type checks and a zero check, in that order. */
module ValidateInput {

  import opened PyValues
  import opened Errors
  import Operations

  /** Both type checks come before the zero check, and the first argument is checked first. */
  function SafeDivide(a: Value, b: Value): (r: Result<real>)
    ensures !IsNumber(a) ==> r == Err(Error(TypeError, "First argument must be int or float, got " + TypeName(a)))
    ensures IsNumber(a) && !IsNumber(b) ==>
              r == Err(Error(TypeError, "Second argument must be int or float, got " + TypeName(b)))
    ensures IsNumber(a) && IsNumber(b) && NumVal(b) == 0.0 ==> r == Err(Error(ValueError, "Cannot divide by zero"))
    ensures r.Ok? <==> IsNumber(a) && IsNumber(b) && NumVal(b) != 0.0
    ensures r.Ok? ==> r.value * NumVal(b) == NumVal(a)
  {
    if !IsNumber(a) then Err(Error(TypeError, "First argument must be int or float, got " + TypeName(a)))
    else if !IsNumber(b) then Err(Error(TypeError, "Second argument must be int or float, got " + TypeName(b)))
    else if NumVal(b) == 0.0 then Err(Error(ValueError, "Cannot divide by zero"))
    else Ok(NumVal(a) / NumVal(b))
  }

  /** `Number` view of a numeric value (a bool is the int 0 or 1). */
  function AsNumber(v: Value): (n: Operations.Number)
    requires IsNumber(v)
    ensures Operations.Val(n) == NumVal(v)
  {
    if v.VReal? then Operations.FloatNum(v.r) else Operations.IntNum(IntVal(v))
  }

  /** On numbers, `safe_divide` and the calculator's `divide` agree: the same quotient, and a
      ValueError for a zero divisor in both (their messages differ by the final period). */
  lemma SafeDivideAgreesWithDivide(a: Value, b: Value)
    requires IsNumber(a) && IsNumber(b)
    ensures SafeDivide(a, b).Ok? <==> Operations.Divide(AsNumber(a), AsNumber(b)).Ok?
    ensures SafeDivide(a, b).Ok? ==> SafeDivide(a, b).value == Operations.Divide(AsNumber(a), AsNumber(b)).value
    ensures SafeDivide(a, b).Err? ==> SafeDivide(a, b).error.kind == Operations.Divide(AsNumber(a), AsNumber(b)).error.kind == ValueError
  {
  }
}
