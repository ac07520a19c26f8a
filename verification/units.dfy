/** Conversion of acceleration from metres per second squared to kilometres
    per hour squared. */
module Units {

  const SecondsPerHour: real := 3600.0
  const MetresPerKilometre: real := 1000.0

  /** The factor the calculator multiplies by. */
  const AccFactor: real := 12960.0

  /** Acceleration in km/h² for an acceleration `acc` in m/s².
      The result agrees with the dimensional derivation: one m/s² is
      3600² / 1000 km/h². */
  function ConvertAccToKmh2(acc: real): (r: real)
    ensures r == acc * (SecondsPerHour * SecondsPerHour / MetresPerKilometre)
    ensures acc > 0.0 <==> r > 0.0
    ensures acc < 0.0 <==> r < 0.0
  {
    acc * AccFactor
  }

  /** The factor 12960 is 3.6² multiplied by 1000, and not 3.6² (= 12.96)
      as the comment beside the constant in index.js says. */
  lemma AccFactorDerivation()
    ensures AccFactor == 3.6 * 3.6 * 1000.0
    ensures AccFactor != 3.6 * 3.6
  {
  }

  /** Applying a converted acceleration for `t` seconds (expressed in hours)
      changes a velocity by 3.6 · acc · t km/h, i.e. acc · t m/s in km/h. */
  lemma ConvertedAccOverSeconds(acc: real, t: real)
    ensures ConvertAccToKmh2(acc) * (t / SecondsPerHour) == 3.6 * acc * t
  {
  }
}
