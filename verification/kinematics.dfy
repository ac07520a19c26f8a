/** Velocity and distance updates under a constant acceleration. */
module Kinematics {
  import opened Outcomes
  import opened Units

  /** New velocity in km/h after accelerating at `acc` m/s² for `time`
      seconds from `vel` km/h; InvalidType if an argument is not a number. */
  function CalcNewVel(vel: Input, acc: Input, time: Input): (r: Result<real>)
    ensures r.Err? <==> !AllNumbers(vel, acc, time)
    ensures r.Err? ==> r.error == InvalidType
    ensures r.Ok? ==> r.value == vel.value + 3.6 * acc.value * time.value
  {
    if !vel.Num? || !acc.Num? || !time.Num? then
      Err(InvalidType)
    else
      var accKmh2 := ConvertAccToKmh2(acc.value);
      ConvertedAccOverSeconds(acc.value, time.value);
      Ok(vel.value + accKmh2 * (time.value / SecondsPerHour))
  }

  /** New distance in km after travelling `time` seconds at the initial
      velocity `vel` km/h from `d` km; InvalidType if an argument is not a
      number. */
  function CalcNewDist(vel: Input, time: Input, d: Input): (r: Result<real>)
    ensures r.Err? <==> !AllNumbers(vel, time, d)
    ensures r.Err? ==> r.error == InvalidType
    ensures r.Ok? ==> (r.value - d.value) * SecondsPerHour == vel.value * time.value
  {
    if !vel.Num? || !time.Num? || !d.Num? then
      Err(InvalidType)
    else
      var timeInHours := time.value / SecondsPerHour;
      Ok(d.value + vel.value * timeInHours)
  }

  /** The velocity rises exactly when acceleration and time have the same
      sign, falls exactly when their signs differ, and is unchanged exactly
      when one of them is zero. */
  lemma VelocityMonotone(v: real, a: real, t: real)
    ensures CalcNewVel(Num(v), Num(a), Num(t)).Ok?
    ensures CalcNewVel(Num(v), Num(a), Num(t)).value > v <==> (a > 0.0 && t > 0.0) || (a < 0.0 && t < 0.0)
    ensures CalcNewVel(Num(v), Num(a), Num(t)).value < v <==> (a > 0.0 && t < 0.0) || (a < 0.0 && t > 0.0)
    ensures CalcNewVel(Num(v), Num(a), Num(t)).value == v <==> a == 0.0 || t == 0.0
  {
  }

  /** With a non-negative velocity and time the distance never decreases. */
  lemma DistanceNonDecreasing(v: real, t: real, d: real)
    requires v >= 0.0 && t >= 0.0
    ensures CalcNewDist(Num(v), Num(t), Num(d)).Ok?
    ensures CalcNewDist(Num(v), Num(t), Num(d)).value >= d
  {
  }

  /** A product of two nonzero reals is nonzero. */
  lemma NonzeroProduct(x: real, y: real)
    requires x != 0.0 && y != 0.0
    ensures x * y != 0.0
  {
  }

  /** The displacement in km from `d` km after `t` seconds at initial
      velocity `v` km/h and constant acceleration `a` m/s², as the kinematic
      equation d + v·t + a·t²/2 gives it once t is in hours and a in km/h². */
  function ExactDistance(v: real, a: real, t: real, d: real): real {
    var th := t / SecondsPerHour;
    d + v * th + ConvertAccToKmh2(a) * th * th / 2.0
  }

  /** The distance update uses the initial velocity only: it falls short of
      the exact displacement by 3.6·a·t²/7200 km, which is a·t²/2 metres
      for `a` in m/s² and `t` in seconds, so it agrees with it exactly when
      there is no acceleration or no elapsed time, and undercounts it when
      the vehicle accelerates. */
  lemma DistanceUsesInitialVelocity(v: real, a: real, t: real, d: real)
    ensures CalcNewDist(Num(v), Num(t), Num(d)).Ok?
    ensures ExactDistance(v, a, t, d) - CalcNewDist(Num(v), Num(t), Num(d)).value
            == 3.6 * a * t * t / (2.0 * SecondsPerHour)
    ensures CalcNewDist(Num(v), Num(t), Num(d)).value == ExactDistance(v, a, t, d) <==> a == 0.0 || t == 0.0
    ensures a > 0.0 && t != 0.0 ==> CalcNewDist(Num(v), Num(t), Num(d)).value < ExactDistance(v, a, t, d)
  {
    if a != 0.0 && t != 0.0 {
      var gap := ExactDistance(v, a, t, d) - CalcNewDist(Num(v), Num(t), Num(d)).value;
      var k := 3.6 * a * t * t;
      NonzeroProduct(3.6 * a, t);
      NonzeroProduct(3.6 * a * t, t);
      assert gap == k / 7200.0;
      assert gap * 7200.0 == k;
    }
  }
}
