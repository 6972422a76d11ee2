/** Shipping cost: the guard-clause solution and the nested reference version it replaces. */
module GuardClauses {

  import opened PyValues
  import opened Errors

  const ValidShippingTypes: seq<string> := ["standard", "priority", "overnight"]

  /** Surcharge factor of each shipping type, as a table. */
  function Multiplier(shippingType: string): (m: real)
    requires shippingType in ValidShippingTypes
    ensures m >= 1.0
  {
    if shippingType == "standard" then 1.0
    else if shippingType == "priority" then 1.25
    else 1.5
  }

  /** The business rules' price: base cost scaled by the type's factor, plus the express fee. */
  function ListPrice(weight: real, distance: real, shippingType: string, isExpress: bool): real
    requires shippingType in ValidShippingTypes
  {
    (weight * 2.5 + distance * 0.1) * Multiplier(shippingType) + (if isExpress then 10.0 else 0.0)
  }

  /** The main calculation as both versions write it: base cost, multiply for priority or
      overnight, then add the flat express fee. */
  function Cost(weight: real, distance: real, shippingType: string, isExpress: bool): (c: real)
    requires shippingType in ValidShippingTypes
    ensures c == ListPrice(weight, distance, shippingType, isExpress)
  {
    var base := weight * 2.5 + distance * 0.1;
    var scaled := if shippingType == "priority" then base * 1.25
                  else if shippingType == "overnight" then base * 1.5
                  else base;
    if isExpress then scaled + 10.0 else scaled
  }

  /** Every input the value guards accept. */
  predicate ValidOrder(weight: Value, distance: Value, shippingType: Value, isExpress: Value) {
    && IsNumber(weight) && IsNumber(distance) && shippingType.VStr? && isExpress.VBool?
    && 0.0 < NumVal(weight) <= 50.0
    && NumVal(distance) > 0.0
    && shippingType.s in ValidShippingTypes
  }

  /** `calculate_shipping_cost` (guard-clause solution). */
  function CalculateShippingCost(weight: Value, distance: Value, shippingType: Value, isExpress: Value): (r: Result<real>)
    // type guards, in order, all before any value guard
    ensures !IsNumber(weight) ==> r == Err(Error(TypeError, "Weight must be numeric (int or float)"))
    ensures IsNumber(weight) && !IsNumber(distance) ==> r == Err(Error(TypeError, "Distance must be numeric (int or float)"))
    ensures IsNumber(weight) && IsNumber(distance) && !shippingType.VStr? ==>
              r == Err(Error(TypeError, "Shipping type must be a string"))
    ensures IsNumber(weight) && IsNumber(distance) && shippingType.VStr? && !isExpress.VBool? ==>
              r == Err(Error(TypeError, "is_express must be a boolean"))
    ensures r.Err? && r.error.kind == TypeError <==>
              !(IsNumber(weight) && IsNumber(distance) && shippingType.VStr? && isExpress.VBool?)
    // value guards: weight, then distance, then the shipping type
    ensures IsNumber(weight) && IsNumber(distance) && shippingType.VStr? && isExpress.VBool? ==>
              && (NumVal(weight) <= 0.0 ==> r == Err(Error(ValueError, "Weight must be positive")))
              && (NumVal(weight) > 50.0 ==> r == Err(Error(ValueError, "Weight cannot exceed 50kg")))
              && (0.0 < NumVal(weight) <= 50.0 && NumVal(distance) <= 0.0 ==>
                    r == Err(Error(ValueError, "Distance must be positive")))
              && (0.0 < NumVal(weight) <= 50.0 && NumVal(distance) > 0.0 && shippingType.s !in ValidShippingTypes ==>
                    r.Err? && r.error.kind == ValueError)
    ensures r.Ok? <==> ValidOrder(weight, distance, shippingType, isExpress)
    ensures r.Ok? ==> r.value == ListPrice(NumVal(weight), NumVal(distance), shippingType.s, isExpress.b)
  {
    if !IsNumber(weight) then Err(Error(TypeError, "Weight must be numeric (int or float)"))
    else if !IsNumber(distance) then Err(Error(TypeError, "Distance must be numeric (int or float)"))
    else if !shippingType.VStr? then Err(Error(TypeError, "Shipping type must be a string"))
    else if !isExpress.VBool? then Err(Error(TypeError, "is_express must be a boolean"))
    else if NumVal(weight) <= 0.0 then Err(Error(ValueError, "Weight must be positive"))
    else if NumVal(weight) > 50.0 then Err(Error(ValueError, "Weight cannot exceed 50kg"))
    else if NumVal(distance) <= 0.0 then Err(Error(ValueError, "Distance must be positive"))
    else if shippingType.s !in ValidShippingTypes then
      Err(Error(ValueError, "Invalid shipping type '" + shippingType.s
                            + "'. Must be one of: ['standard', 'priority', 'overnight']"))
    else Ok(Cost(NumVal(weight), NumVal(distance), shippingType.s, isExpress.b))
  }

  /** `calculate_shipping_cost_nested` (the reference version with nested conditions). */
  function CalculateShippingCostNested(weight: Value, distance: Value, shippingType: Value, isExpress: Value): (r: Result<real>)
    ensures r.Err? && r.error.kind == TypeError <==>
              !(IsNumber(weight) && IsNumber(distance) && shippingType.VStr? && isExpress.VBool?)
    ensures IsNumber(weight) && IsNumber(distance) && shippingType.VStr? && isExpress.VBool? ==>
              && (!(0.0 < NumVal(weight) <= 50.0) ==>
                    r == Err(Error(ValueError, "Weight must be positive and not exceed 50kg")))
              && (0.0 < NumVal(weight) <= 50.0 && NumVal(distance) <= 0.0 ==>
                    r == Err(Error(ValueError, "Distance must be positive")))
              && (0.0 < NumVal(weight) <= 50.0 && NumVal(distance) > 0.0 && shippingType.s !in ValidShippingTypes ==>
                    r == Err(Error(ValueError, "Invalid shipping type: " + shippingType.s)))
    ensures r.Ok? ==> r.value == ListPrice(NumVal(weight), NumVal(distance), shippingType.s, isExpress.b)
  {
    if IsNumber(weight) && IsNumber(distance) then
      if shippingType.VStr? && isExpress.VBool? then
        if NumVal(weight) > 0.0 && NumVal(weight) <= 50.0 then
          if NumVal(distance) > 0.0 then
            if shippingType.s in ValidShippingTypes then
              Ok(Cost(NumVal(weight), NumVal(distance), shippingType.s, isExpress.b))
            else Err(Error(ValueError, "Invalid shipping type: " + shippingType.s))
          else Err(Error(ValueError, "Distance must be positive"))
        else Err(Error(ValueError, "Weight must be positive and not exceed 50kg"))
      else Err(Error(TypeError, "Invalid input types"))
    else Err(Error(TypeError, "Weight and distance must be numeric"))
  }

  /** The refactoring keeps the business logic: on every input both versions raise the same
      exception class or return the same cost (only the messages differ). */
  lemma NestedEquivalent(weight: Value, distance: Value, shippingType: Value, isExpress: Value)
    ensures CalculateShippingCost(weight, distance, shippingType, isExpress).Ok?
        <==> CalculateShippingCostNested(weight, distance, shippingType, isExpress).Ok?
    ensures CalculateShippingCost(weight, distance, shippingType, isExpress).Ok? ==>
              CalculateShippingCost(weight, distance, shippingType, isExpress).value
              == CalculateShippingCostNested(weight, distance, shippingType, isExpress).value
    ensures CalculateShippingCost(weight, distance, shippingType, isExpress).Err? ==>
              CalculateShippingCost(weight, distance, shippingType, isExpress).error.kind
              == CalculateShippingCostNested(weight, distance, shippingType, isExpress).error.kind
  {
  }

  /** Every accepted order costs more than nothing. */
  lemma CostPositive(weight: Value, distance: Value, shippingType: Value, isExpress: Value)
    requires CalculateShippingCost(weight, distance, shippingType, isExpress).Ok?
    ensures CalculateShippingCost(weight, distance, shippingType, isExpress).value > 0.0
  {
    var w, d := NumVal(weight), NumVal(distance);
    assert w * 2.5 + d * 0.1 > 0.0;
  }

  /** Express handling costs exactly 10 more than the same order without it. */
  lemma ExpressAddsTen(weight: Value, distance: Value, shippingType: Value)
    requires CalculateShippingCost(weight, distance, shippingType, VBool(false)).Ok?
    ensures CalculateShippingCost(weight, distance, shippingType, VBool(true)).Ok?
    ensures CalculateShippingCost(weight, distance, shippingType, VBool(true)).value
            == CalculateShippingCost(weight, distance, shippingType, VBool(false)).value + 10.0
  {
  }

  /** The match on the shipping type is exact and case-sensitive. */
  lemma CapitalizedTypeRejected()
    ensures CalculateShippingCost(VInt(5), VInt(100), VStr("Standard"), VBool(false)).Err?
    ensures CalculateShippingCost(VInt(5), VInt(100), VStr("Standard"), VBool(false)).error.kind == ValueError
  {
    assert "Standard" != "standard";
  }
}
