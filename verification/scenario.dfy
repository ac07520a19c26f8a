/** The top-level calculation: distance, then fuel, then velocity, the first
    error ending the run. */
module Scenario {
  import opened Outcomes
  import opened Units
  import opened Kinematics
  import opened Fuel

  /** The six scalar inputs of a run. */
  datatype Params = Params(vel: Input, acc: Input, time: Input, d: Input, fuel: Input, fbr: Input)

  /** The three results a successful run reports. */
  datatype Report = Report(velocity: real, distance: real, remainingFuel: real)

  /** The fixed inputs of the calculator. */
  const Given: Params := Params(Num(10000.0), Num(3.0), Num(3600.0), Num(0.0), Num(5000.0), Num(0.5))

  /** Runs the three updates in the order distance, fuel, velocity of the
      try block in index.js. */
  function Run(p: Params): (r: Result<Report>)
    ensures r.Ok? <==>
              CalcNewDist(p.vel, p.time, p.d).Ok?
              && CalcRemainingFuel(p.fuel, p.fbr, p.time).Ok?
              && CalcNewVel(p.vel, p.acc, p.time).Ok?
    ensures r.Ok? ==> r.value == Report(CalcNewVel(p.vel, p.acc, p.time).value,
                                        CalcNewDist(p.vel, p.time, p.d).value,
                                        CalcRemainingFuel(p.fuel, p.fbr, p.time).value)
    ensures CalcNewDist(p.vel, p.time, p.d).Err? ==> r == Err(CalcNewDist(p.vel, p.time, p.d).error)
    ensures CalcNewDist(p.vel, p.time, p.d).Ok? && CalcRemainingFuel(p.fuel, p.fbr, p.time).Err? ==>
              r == Err(CalcRemainingFuel(p.fuel, p.fbr, p.time).error)
    ensures CalcNewDist(p.vel, p.time, p.d).Ok? && CalcRemainingFuel(p.fuel, p.fbr, p.time).Ok?
            && CalcNewVel(p.vel, p.acc, p.time).Err? ==>
              r == Err(CalcNewVel(p.vel, p.acc, p.time).error)
  {
    var d2 :- CalcNewDist(p.vel, p.time, p.d);
    var rf :- CalcRemainingFuel(p.fuel, p.fbr, p.time);
    var vel2 :- CalcNewVel(p.vel, p.acc, p.time);
    Ok(Report(vel2, d2, rf))
  }

  /** A run succeeds exactly when every input is a number and the fuel
      suffices, and it then reports the closed-form values of the three
      updates. */
  lemma RunSucceedsIff(p: Params)
    ensures Run(p).Ok? <==>
              p.vel.Num? && p.acc.Num? && p.time.Num? && p.d.Num? && p.fuel.Num? && p.fbr.Num?
              && p.fbr.value * p.time.value <= p.fuel.value
    ensures Run(p).Ok? ==>
              && Run(p).value.velocity == p.vel.value + 3.6 * p.acc.value * p.time.value
              && (Run(p).value.distance - p.d.value) * SecondsPerHour == p.vel.value * p.time.value
              && Run(p).value.remainingFuel == p.fuel.value - p.fbr.value * p.time.value
  {
    if p.fuel.Num? && p.fbr.Num? && p.time.Num? {
      FuelSucceedsIff(p.fuel.value, p.fbr.value, p.time.value);
    }
    if Run(p).Ok? {
      var fuelStep := CalcRemainingFuel(p.fuel, p.fbr, p.time);
      assert fuelStep.Ok? && Run(p).value.remainingFuel == fuelStep.value;
      assert fuelStep.value + p.fbr.value * p.time.value == p.fuel.value;
    }
  }

  /** Which error a failed run reports: FuelDepleted exactly when every
      input read by the distance and fuel steps is a number and the burnt
      amount exceeds the load; InvalidType in every other failure. */
  lemma RunErrors(p: Params)
    ensures Run(p) == Err(FuelDepleted) <==>
              p.vel.Num? && p.time.Num? && p.d.Num? && p.fuel.Num? && p.fbr.Num?
              && p.fbr.value * p.time.value > p.fuel.value
    ensures Run(p) == Err(InvalidType) <==>
              !(p.vel.Num? && p.acc.Num? && p.time.Num? && p.d.Num? && p.fuel.Num? && p.fbr.Num?)
              && !(p.vel.Num? && p.time.Num? && p.d.Num? && p.fuel.Num? && p.fbr.Num?
                   && p.fbr.value * p.time.value > p.fuel.value)
  {
  }

  /** The fixed inputs give 48880 km/h, 10000 km and 3200 kg. */
  lemma GivenScenario()
    ensures Run(Given) == Ok(Report(48880.0, 10000.0, 3200.0))
  {
  }

  /** With only 100 kg of fuel burning at 1 kg/s for an hour the run stops
      with FuelDepleted. */
  lemma ScenarioFuelDepleted()
    ensures Run(Given.(fuel := Num(100.0), fbr := Num(1.0))) == Err(FuelDepleted)
  {
  }

  /** A non-numeric acceleration is only examined by the last step, so the
      run fails with InvalidType once distance and fuel have succeeded; a
      depleted tank is reported first, since fuel is computed before
      velocity. */
  lemma ScenarioOrdering()
    ensures Run(Given.(acc := NotNum)) == Err(InvalidType)
    ensures Run(Given.(acc := NotNum, fuel := Num(100.0))) == Err(FuelDepleted)
  {
  }
}
