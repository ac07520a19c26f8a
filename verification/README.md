# Kinematics and fuel calculator

A model of `index.js`: a calculator for a vehicle's new velocity (km/h),
distance travelled (km) and remaining fuel (kg). Given an initial velocity,
a constant acceleration in m/s², an elapsed time in seconds, an initial
distance, a fuel load and a fuel burn rate in kg/s, it computes each update.
Each update first checks that its three arguments are numbers. The fuel
update refuses to return a negative amount.

- `Outcomes` (`outcomes.dfy`): an argument is `Num(real)` or `NotNum`, which
  models the `typeof x !== 'number'` guards. The two thrown errors are the
  variants `InvalidType` and `FuelDepleted` of a `Result`.
- `Units` (`units.dfy`): conversion of m/s² to km/h² by the factor 12960.
  The comment beside the constant in the source reads "3.6^2", which is
  12.96. The constant itself is right: 12960 = 3600² / 1000 = 3.6² · 1000.
  `AccFactorDerivation` proves 12960 = 3.6² · 1000 ≠ 3.6², and
  `ConvertAccToKmh2`'s contract gives 3600² / 1000.
- `Kinematics` (`kinematics.dfy`): the velocity and distance updates. The
  distance update uses the initial velocity, not the average velocity.
  `DistanceUsesInitialVelocity` states by how much this differs from the
  exact constant-acceleration displacement.
- `Fuel` (`fuel.dfy`): the remaining-fuel update and its depletion error.
- `Scenario` (`scenario.dfy`): the try block as a pure function `Run`. It
  computes distance, then fuel, then velocity. The first error is the
  outcome, and no partial results are returned. `Given` holds the fixed
  inputs of the source.

The code performs no checks for negative time, distance, fuel or burn rate,
and the model adds none. A negative burn rate increases the fuel, as it does
in the code.

## Model

| member | source | states |
|---|---|---|
| `Units.ConvertAccToKmh2` | index.js:17 | the converted value is acc · 3600² / 1000, and it has the sign of acc |
| `Units.AccFactorDerivation` | index.js:17 | 12960 equals 3.6² · 1000 and is not 3.6² as the comment says (its equality with 3600² / 1000 is stated by `Units.ConvertAccToKmh2`) |
| `Units.ConvertedAccOverSeconds` | index.js:27-30 | the converted acceleration applied for t seconds, taken in hours, is 3.6 · acc · t km/h |
| `Kinematics.CalcNewVel` | index.js:20-31 | InvalidType exactly when some argument is not a number; otherwise the value is vel + 3.6 · acc · time |
| `Kinematics.VelocityMonotone` | index.js:27-30 | on numbers, the velocity rises iff acc and time have the same nonzero sign, falls iff their signs differ, and is unchanged iff acc = 0 or time = 0 |
| `Kinematics.CalcNewDist` | index.js:34-41 | InvalidType exactly when some argument is not a number; otherwise (result − d) · 3600 = vel · time |
| `Kinematics.DistanceNonDecreasing` | index.js:39-40 | with vel ≥ 0 and time ≥ 0 the new distance is at least d |
| `Kinematics.DistanceUsesInitialVelocity` | index.js:39-40 | with v in km/h, a in m/s², t in s and d in km, the distance falls short of `ExactDistance` (d + v·t + a·t²/2, with t in hours and a in km/h²) by 3.6·a·t²/7200 km, i.e. a·t²/2 metres; the two agree iff a = 0 or t = 0, and with a > 0 and t ≠ 0 it undercounts |
| `Fuel.CalcRemainingFuel` | index.js:44-54 | InvalidType when some argument is not a number; FuelDepleted exactly when all are numbers and fbr · time > fuel; any value is ≥ 0, and the value plus the fuel burnt equals the load |
| `Fuel.FuelNeverIncreases` | index.js:49-53 | with fbr ≥ 0 and time ≥ 0 a successful result is at most the initial fuel |
| `Fuel.FuelSucceedsIff` | index.js:49-52 | on numbers the update succeeds iff fbr · time ≤ fuel; in particular a non-positive burnt amount succeeds whenever the load is non-negative |
| `Scenario.Run` | index.js:57-61 | the run succeeds iff all three updates do, and it then reports their values; otherwise the outcome is the error of the first failing step in the order distance, fuel, velocity |
| `Scenario.RunSucceedsIff` | index.js:57-61 | a run succeeds iff all six inputs are numbers and fbr · time ≤ fuel, and then reports vel + 3.6 · acc · time, d + vel · time / 3600 and fuel − fbr · time |
| `Scenario.RunErrors` | index.js:57-61 | a run ends in FuelDepleted iff the five inputs distance and fuel read are numbers and fbr · time > fuel; it ends in InvalidType iff some input is not a number and the run does not end in FuelDepleted |
| `Scenario.GivenScenario` | index.js:9-60 | the fixed inputs yield velocity 48880, distance 10000 and fuel 3200 |
| `Scenario.ScenarioFuelDepleted` | index.js:49-59 | 100 kg burning at 1 kg/s for 3600 s ends the run with FuelDepleted |
| `Scenario.ScenarioOrdering` | index.js:57-67 | a non-numeric acceleration fails the run with InvalidType; when the tank is also depleted, FuelDepleted is reported, because fuel comes before velocity |

## Left out

- Console output and `toFixed(2)` formatting (index.js:63-67): presentation only.
- The text of the error messages: only the kind of error is modelled.
- IEEE-754 arithmetic. Numbers are exact reals, so there is no rounding, NaN
  or Infinity. JavaScript's `typeof NaN` is `'number'`, so the code accepts
  NaN and Infinity as numbers; the model has no such values.
- Non-number arguments are not distinguished by kind (string, undefined, …):
  every one is `NotNum`, because the code treats them all alike.
- Repeating a call with the same inputs gives the same result because every
  member is a pure function. No separate property states this.
