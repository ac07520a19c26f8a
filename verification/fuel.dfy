/** Remaining fuel after burning at a constant rate. */
module Fuel {
  import opened Outcomes

  /** Fuel in kg left after burning `fbr` kg/s for `time` seconds from
      `fuel` kg; InvalidType if an argument is not a number, FuelDepleted if
      the remainder would be negative. */
  function CalcRemainingFuel(fuel: Input, fbr: Input, time: Input): (r: Result<real>)
    ensures r == Err(InvalidType) <==> !AllNumbers(fuel, fbr, time)
    ensures r == Err(FuelDepleted) <==>
              AllNumbers(fuel, fbr, time) && fbr.value * time.value > fuel.value
    ensures r.Ok? ==> r.value >= 0.0 && r.value + fbr.value * time.value == fuel.value
  {
    if !fuel.Num? || !fbr.Num? || !time.Num? then
      Err(InvalidType)
    else
      var remainingFuel := fuel.value - fbr.value * time.value;
      if remainingFuel < 0.0 then Err(FuelDepleted) else Ok(remainingFuel)
  }

  /** A successful update never yields more fuel than there was, provided
      the burn rate and the time are non-negative. */
  lemma FuelNeverIncreases(fuel: real, fbr: real, t: real)
    requires fbr >= 0.0 && t >= 0.0
    ensures CalcRemainingFuel(Num(fuel), Num(fbr), Num(t)).Ok? ==>
              CalcRemainingFuel(Num(fuel), Num(fbr), Num(t)).value <= fuel
  {
  }

  /** On numbers the update succeeds exactly when the burnt amount fbr · t
      does not exceed the load; a negative burnt amount succeeds whenever
      the load is non-negative. */
  lemma FuelSucceedsIff(fuel: real, fbr: real, t: real)
    ensures CalcRemainingFuel(Num(fuel), Num(fbr), Num(t)).Ok? <==> fbr * t <= fuel
    ensures fuel >= 0.0 && fbr * t <= 0.0 ==> CalcRemainingFuel(Num(fuel), Num(fbr), Num(t)).Ok?
  {
  }
}
