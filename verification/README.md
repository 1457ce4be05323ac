# par6 runtime: a verified model

This project models the self-contained cores of the PAR6 robot-arm runtime and proves what they promise.
Reals are exact. Loops and objects the runtime updates in place are methods and classes here, each tied to
a specification whose properties are separate lemmas; concurrent code is a state machine over its atomic
steps.

- `LinearAlgebra`, `Cholesky`, `LeastSquares`, `GravityFit`, `GravityLaws`: identification of link and payload parameters
  from static torques. Normal equations with a scaled ridge are factored and solved by hand-written loops;
  the result is shown to be the unique minimiser for every matrix size and every sample set, its scores the
  true shares, and the incremental pose design to predict them. The square root is a parameter of which only
  `s >= 0` and `s * s == x` are assumed.
- `Jog`, `JogLaws`: the tick of the manual jog engine. The braking argument is an invariant over all command
  histories: the room left always covers the discrete stop. The stopping distances are shown to be the travel of
  a stop, and a tick of either ramp is told by the motion it makes.
- `Spline`, `SampleBudget`, `CornerTrims`, `JointBlend`: path geometry in `cart.rs`. The tridiagonal solve,
  the cubics it yields, the allocation of a point budget, and the corner-blended joint polyline.
- `Wrap`, `ArcKnots`: the choice among whole-turn branches, and knots at tool distance with the one rate the
  steepest stretch allows.
- `ClientWaits`, `ClientRequests`, `ClientSends`: the client's shared state. Completions, waits, restarts, time-outs,
  cancellations and closes interleave in one machine; roundtrips, retries and joined shutdown in another.
- `Overlay`, `OverlayTwice`, `Homing`: the recursive merge of configuration layers, what it leaves alone and
  when a second merge changes nothing, and the homing sequence's rewrite for a tool that cannot run gripper work.
- `CollisionWorld`, `CollisionScene`, `CollisionLaws`: the derived pair table, its transactional replacement,
  the names, epoch and clearances kept beside it, and what its rules come to for the shapes as they are given.
- `Reals`, `Wrappers`: shared helpers.

## Where the code does less than its documentation says

The models follow the code; each of these is a lemma or part of a contract below.

- `cart.rs` bounds the blended points by the budget or the pieces plus one. Two corners that leave more than
  nothing but no more than 1e-12 of a segment between them drop its line and keep its gap. A gap of at least
  1e-12 costs a point beyond the bound, a narrower one is merged away: `JointBlend.PointBoundExactly` is the
  condition, `JointBlend.SliverAddsPoint` a path that fails it. A step
  stays within two pitches and 1e-12 when no such gap exceeds two pitches, and not when one exceeds them by more
  than 2e-12 (`JointBlend.BlendSteps`, `BoundedGaps`, `SliverLongStep`).
- `collision.rs` promises that a rejected layer leaves the world and the epoch as they were. The handle accepts
  placed names of up to 256 bytes, reading a name back takes 256 bytes with its terminator: a name of exactly
  256 bytes, in the new layer or the other one, makes `set_layer` fail after the world was replaced
  (`CollisionScene.Scene.SetLayer`, `LongestNameUnreadable`; `ShortNamesReadable` is the condition to check).
  Clearances asked for in that state can be refused or index past the listed names
  (`CollisionScene.Scene.Clearances`, `StaleClearances`).
- `adopt_layers` is two replacements: when the second is refused the first stays
  (`CollisionScene.AdoptionStopsHalfWay`).
- `par6_col.cpp` pairs a shape with what cannot move against it when the shape is attached: with its own link,
  and with fixed keep-outs though it hangs on the fixed base (`CollisionWorld.AttachedToBaseIsPaired`).
- `jog.rs` names two ways a latched block clears; activation and a lookahead the other way are two more
  (`Jog.LatchClears`). The ramp bounds a tick's change of velocity only where no clamp stops a joint faster than
  one step (`Jog.TickGradualExactly`): runs on which one does are `Jog.LagCanJump`, where the measurement lags,
  and `Jog.SofterRampCanJump`, where a softer ramp is set in motion.
- `core.rs` says a waiter dropped by a restart finds the restart. One that captures its session after the new
  frame's publication and before the clearing reports a time-out instead
  (`ClientWaits.LateCaptureMissesRestart`). An entry of a cancelled wait stays in the table
  (`ClientWaits.CancelLeavesEntry`).
- A COMPLETE names no session and travels apart from STATUS frames. One that overtakes the first frame of a
  restarted runtime, or trails behind it, answers a wait of the other run, and so can a recovery in the grace
  period (`ClientWaits.EarlyCompleteAnswersOldWait`, `LateCompleteAnswersNewWait`, `GraceCrossesRestart`). An
  answer is of its own run exactly when the completion of its index recorded first, or last for an answer from
  the log, is (`OwnRunExactly`, `LoggedOwnRunExactly`).
- A request id is checked against the pending table only, so one held by a request that has not posted yet can be
  issued again after 2^32 others. The table and the replies stay right (`ClientRequests.RunMatched`), but a request
  is then hung up on, or ends as closed, in an open client, exactly when another posts or ends over its entry
  (`RunFairExactly`; `SharedIdFailsBoth` is a run, `YoungRunsAreFair` a way to rule it out).
- The overlay merge is not idempotent for every overlay: a repeated name can be merged over a different entry
  the second time, and a named per-joint entry can turn the array into one matched by name
  (`Overlay.RepeatedNameNotIdempotent`, `Overlay.NamedJointNotIdempotent`). Distinct names and unnamed joints
  suffice; `OverlayTwice.MergeTwiceExactly` is the exact condition on the overlay.

## Model

| member | source | states |
|---|---|---|
| LinearAlgebra.RidgedGramPositiveDefinite | crates/par6-kin/src/gravity.rs:327-349 | a sum of row outer products with a positive ridge on its diagonal is positive definite, for every size and any rows |
| LinearAlgebra.SolutionUnique | crates/par6-kin/src/gravity.rs:502-521 | a positive definite system has at most one solution |
| Cholesky.CholeskyFactor | crates/par6-kin/src/gravity.rs:479-500 | for every size a factor is returned exactly when the (lower half of the) matrix is positive definite, and it is lower triangular with a positive diagonal and multiplies with its transpose to the matrix |
| Cholesky.FactorPositiveDefinite | crates/par6-kin/src/gravity.rs:479-500 | whatever has such a factor is positive definite |
| Cholesky.PivotRefutes | crates/par6-kin/src/gravity.rs:487-492 | a pivot that is not positive is no accident of the elimination: the matrix then has a direction in which its form is not positive |
| Cholesky.Reduced | crates/par6-kin/src/gravity.rs:483-486 | the inner loop leaves the entry less the inner product of the two finished row prefixes |
| Cholesky.AtIsRowMajor | crates/par6-kin/src/gravity.rs:483-495 | the flat index walks the matrix row by row |
| Cholesky.ForwardSolve | crates/par6-kin/src/gravity.rs:504-511 | the first sweep solves the lower triangular system |
| Cholesky.BackSolve | crates/par6-kin/src/gravity.rs:512-519 | the second sweep solves the transposed system |
| Cholesky.SolvesCompose | crates/par6-kin/src/gravity.rs:503-521 | the two sweeps together solve the system the factor came from |
| Cholesky.CholeskyApply | crates/par6-kin/src/gravity.rs:503-521 | what is returned multiplies with the factored matrix to the right-hand side |
| LeastSquares.CostGap | crates/par6-kin/src/gravity.rs:346-352 | completing the square: the cost anywhere is the cost at the solution plus the ridged form of the difference |
| LeastSquares.SolutionMinimises | crates/par6-kin/src/gravity.rs:346-352 | the solution of the ridged normal equations is the only minimiser of squared torque residual plus the ridge penalty over all parameter vectors |
| LeastSquares.SolutionImproves | crates/par6-kin/src/gravity.rs:361-385 | the minimiser leaves no more squared residual than changing nothing |
| LeastSquares.ShareInRange | crates/par6-kin/src/gravity.rs:354-359 | a parameter's share is between zero and one before any clamp |
| LeastSquares.ShareUnique | crates/par6-kin/src/gravity.rs:354-359 | a parameter has one share, however it is computed |
| LeastSquares.ShareZero | crates/par6-kin/src/gravity.rs:276-281 | a share is zero exactly for the parameters no row touches |
| LeastSquares.UnexcitedUntouched | crates/par6-kin/src/gravity.rs:303-306 | a parameter the poses say nothing about keeps the value the model has |
| GravityFit.AddOuter | crates/par6-kin/src/gravity.rs:333-340 | adds one row's outer product and takes the row's largest magnitude into the running scale |
| GravityFit.AddEquation | crates/par6-kin/src/gravity.rs:330-341 | normal matrix, right-hand side and scale go on holding those of all the rows so far |
| GravityFit.AddRidge | crates/par6-kin/src/gravity.rs:346-349 | the ridge lands on the diagonal and nowhere else |
| GravityFit.ArmEquations | crates/par6-kin/src/gravity.rs:323-343 | after all samples the arrays hold the normal equations of every regressor row against the torque the model misses |
| GravityFit.PayloadEquations | crates/par6-kin/src/gravity.rs:189-210 | the same for the last body's four columns |
| GravityFit.Shares | crates/par6-kin/src/gravity.rs:354-359 | each score is the clamped share of its parameter |
| GravityFit.ClampIdle | crates/par6-kin/src/gravity.rs:358 | the clamp of a score never acts |
| GravityFit.Identify | crates/par6-kin/src/gravity.rs:346-359 | solvable exactly when the ridged matrix is positive definite; then parameters and scores are the minimiser and the true shares |
| GravityFit.SolutionIdentifies | crates/par6-kin/src/gravity.rs:350-359 | a solution of the normal equations with its clamped scores is the identification promised |
| GravityFit.LambdaSign | crates/par6-kin/src/gravity.rs:344-346 | the scaled ridge is positive exactly when the ridge is and some row is not all zero |
| GravityFit.ScalePositive | crates/par6-kin/src/gravity.rs:325-337 | the scale is positive exactly when some regressor entry is not zero |
| GravityFit.ScaleIsLargest | crates/par6-kin/src/gravity.rs:325-337 | and it is the largest magnitude of any entry |
| GravityFit.SolvableWhenExcited | crates/par6-kin/src/gravity.rs:350-351 | with a positive ridge the factorisation fails only for regressors that are all zero |
| GravityFit.SolvableWhenObservable | crates/par6-kin/src/gravity.rs:217-218 | without a ridge it fails exactly when some nonzero payload leaves every torque unchanged |
| GravityFit.RmsOf | crates/par6-kin/src/gravity.rs:361-374 | the reported error is the root of the mean squared torque residual over all samples and joints |
| GravityFit.FitArm | crates/par6-kin/src/gravity.rs:307-386 | for every sample set: which inputs are refused, the correction is the unique minimiser, the scores are the true shares, both errors are what they say, and the error after never exceeds the error before |
| GravityFit.ArmImproves | crates/par6-kin/src/gravity.rs:375-385 | a minimising correction does not raise the reported error |
| GravityFit.FitPayload | crates/par6-kin/src/gravity.rs:154-265 | for every sample set: which inputs are refused with and without a ridge, the mass and centre of mass come from the unique minimiser, and carrying the payload never explains the torques worse |
| GravityFit.PayloadImproves | crates/par6-kin/src/gravity.rs:238-264 | a minimising payload does not raise the reported error |
| GravityFit.CentreOfMass | crates/par6-kin/src/gravity.rs:231-236 | the first moments are divided by the mass unless it is negligible |
| GravityFit.PoseDesign.constructor | crates/par6-kin/src/gravity.rs:402-410 | an empty design holds the normal matrix of no rows |
| GravityFit.PoseDesign.Add | crates/par6-kin/src/gravity.rs:434-446 | a pose's rows join those the design holds, the stored matrix and scale staying theirs |
| GravityFit.PoseDesign.Determined | crates/par6-kin/src/gravity.rs:450-463 | the shares of the rows added so far when solvable, zeros otherwise; the stored matrix survives |
| GravityFit.PlanPredictsFit | crates/par6-kin/src/gravity.rs:448-449 | the incremental scores of a plan equal the scores a fit over the same rows reports |
| GravityLaws.ArmInUnits | crates/par6-kin/src/gravity.rs:303-359 | the ridge means the same in any unit: multiplying every regressor entry, torque and model prediction by one positive number changes neither correction nor scores |
| GravityLaws.PayloadInUnits | crates/par6-kin/src/gravity.rs:211-230 | nor payload nor its scores |
| GravityLaws.OneColumnShare | crates/par6-kin/src/gravity.rs:344-359 | a one-column regressor whose entries all have one nonzero magnitude has share 1 / (1 + ridge), however many rows |
| GravityLaws.OneParameterScore | crates/par6-kin/src/gravity.rs:344-359 | so the arm fit of one such parameter scores it 1 / (1 + ridge), however many samples |
| GravityLaws.ExplainedArmIsKept | crates/par6-kin/src/gravity.rs:303-352 | torques the model already explains leave it as it is, whatever the ridge |
| GravityLaws.ExplainedPayloadIsFound | crates/par6-kin/src/gravity.rs:183-236 | without a ridge, torques a payload explains give exactly that payload whenever the fit can be solved |
| GravityLaws.UniformError | crates/par6-kin/src/gravity.rs:361-374 | when every torque is missed by one amount, the error reported is that amount |
| Jog.StopCovers | crates/par6-motion/src/jog.rs:42-56 | braking tick by tick never takes more room than the continuous stopping distance |
| Jog.BrakeTravelMonotone | crates/par6-motion/src/jog.rs:266-283 | a faster joint needs at least as much room |
| Jog.BrakeTravelAntitone | crates/par6-motion/src/jog.rs:37-43 | a harder ramp needs no more room |
| Jog.TickBrakes | crates/par6-motion/src/jog.rs:232-346 | a trapezoid tick keeps the discrete stop inside the window and changes velocity by no more than the ramp allows, the clamps included |
| Jog.StepBrakes | crates/par6-motion/src/jog.rs:139-346 | so does every engine operation |
| Jog.RunBrakes | crates/par6-motion/src/jog.rs:139-346 | over every history of commands, releases, re-activations and ticks with the measurement following the target and no softer ramp handed to a joint in motion: the remaining travel covers the discrete stop and no tick jumps the velocity |
| Jog.HarderRampBrakes | crates/par6-motion/src/jog.rs:199-226 | changing the ramp settings keeps the stop inside when the joint rests or the new ramp brakes at least as hard |
| Jog.TickGradualExactly | crates/par6-motion/src/jog.rs:236-346 | whatever the measurement, a trapezoid tick changes the velocity by at most the ramp's step exactly when the joint was within one step of rest or the ramped velocity meets no clamp |
| Jog.GradualExactly | crates/par6-motion/src/jog.rs:232-352 | and a whole tick does so exactly when every joint is in one of those cases |
| Jog.LagCanJump | crates/par6-motion/src/jog.rs:252-260 | where the measurement lags the target the velocity bound fails: a run from a new engine ends with room to stop for every joint, and the next tick jumps |
| Jog.SofterRampCanJump | crates/par6-motion/src/jog.rs:205-214 | and where a softer ramp is set in motion: a run from a new engine whose measurements follow |
| Jog.TickKeepsWindow | crates/par6-motion/src/jog.rs:317-346 | for either profile and any measurement a target inside the soft window stays inside it |
| Jog.RunKeepsWindow | crates/par6-motion/src/jog.rs:139-346 | and so it does over every run that was synchronised inside |
| Jog.CommandWithinLimit | crates/par6-motion/src/jog.rs:159-180 | an accepted fraction never asks for more than the joint's jog velocity |
| Jog.ClampStops | crates/par6-motion/src/jog.rs:317-334 | a joint carried across the limit in one tick is stopped dead |
| Jog.LatchClears | crates/par6-motion/src/jog.rs:149-286 | exactly when a latched block changes, read off the call: leaving the driven set, a command the other way, activation, or a tick whose lookahead runs against the latch and finds too little room |
| Jog.LatchedOnlySlows | crates/par6-motion/src/jog.rs:285-295 | a joint driven the way it is latched only slows |
| Jog.JogEngine.constructor | crates/par6-motion/src/jog.rs:119-135 | a new engine is inactive with the floors applied to its settings |
| Jog.JogEngine.Activate | crates/par6-motion/src/jog.rs:139-147 | the new state is the specified step of the old one |
| Jog.JogEngine.Command | crates/par6-motion/src/jog.rs:159-180 | accepted exactly when all fractions are within one; a refusal names the first bad joint and changes nothing |
| Jog.JogEngine.Release | crates/par6-motion/src/jog.rs:184-186 | only the commanded speeds change |
| Jog.JogEngine.SetProfile | crates/par6-motion/src/jog.rs:199-201 | only the profile changes |
| Jog.JogEngine.SetAccelTime | crates/par6-motion/src/jog.rs:205-214 | refused exactly when not positive, floored otherwise |
| Jog.JogEngine.SetJerkFactor | crates/par6-motion/src/jog.rs:218-227 | refused exactly when not positive, floored otherwise |
| Jog.JogEngine.RampOne | crates/par6-motion/src/jog.rs:236-315 | one joint's latch and ramp; the other joints are untouched |
| Jog.JogEngine.IntegrateOne | crates/par6-motion/src/jog.rs:317-346 | one joint's integration and clamps; the other joints are untouched |
| Jog.JogEngine.Tick | crates/par6-motion/src/jog.rs:232-352 | the whole tick is the specified step, and its outputs are the state it leaves |
| JogLaws.ScurveStopIsTravel | crates/par6-motion/src/jog.rs:45-60 | the s-curve stopping distance is the travel of a jerk-limited stop: the acceleration let go at full jerk, the full deceleration built up, held and let go, ending at rest |
| JogLaws.LowStopIsCovered | crates/par6-motion/src/jog.rs:45-60 | and is no less than the travel of a stop too short to build up the full deceleration |
| JogLaws.TrapezoidStopIsTravel | crates/par6-motion/src/jog.rs:45-48 | the trapezoid stopping distance is the travel at constant deceleration |
| JogLaws.RatesAre | crates/par6-motion/src/jog.rs:34-40 | the ramp runs at exactly the acceleration that reaches full speed in its time or the limit where that is less, and a jerk of its factor |
| JogLaws.TrapezoidTick | crates/par6-motion/src/jog.rs:285-321 | a tick no limit holds moves the velocity toward what is commanded, or toward rest when latched that way, by at most one step, and the target by one tick of the new velocity |
| JogLaws.ScurveTick | crates/par6-motion/src/jog.rs:285-321 | an s-curve tick no limit holds sets a velocity that is close to its goal; otherwise it moves the acceleration by at most one tick of jerk, toward none exactly where letting it go would carry the velocity to the goal, else toward the full rate in the goal's direction |
| JogLaws.ScurveTickGentle | crates/par6-motion/src/jog.rs:296-313 | so the acceleration stays within the full rate, the velocity changes by exactly that acceleration or is set to a goal within one tick of jerk, and a joint with no acceleration moves toward its goal and not past it |
| JogLaws.SmoothWithinRates | crates/par6-motion/src/jog.rs:309-311 | away from its goal the acceleration changes by at most one tick of jerk exactly when it was no further than that past the full rate |
| JogLaws.ClampLands | crates/par6-motion/src/jog.rs:317-346 | a joint a limit holds rests at it or short of it, for both limits, and nothing else of it changes |
| JogLaws.LatchesExactly | crates/par6-motion/src/jog.rs:247-284 | a joint is latched the way it heads exactly when one and a half stops from where this tick could leave it, and a tick of travel, take up its measured room; otherwise its latch stays |
| JogLaws.IdleKeepsLatch | crates/par6-motion/src/jog.rs:249-250 | one that neither moves nor is asked to keeps its latch |
| JogLaws.UnlatchedFits | crates/par6-motion/src/jog.rs:262-284 | so a joint not latched the way it heads has room for one and a half stops from the speed and acceleration the tick does leave it, and for a tick of travel |
| JogLaws.OnlyTicksMove | crates/par6-motion/src/jog.rs:159-227 | no other call but activation moves a joint; a command taken replaces every fraction and the driven set, a release the fractions alone |
| JogLaws.SettingsTaken | crates/par6-motion/src/jog.rs:199-227 | a setting is taken as given or as its floor, and changes no other |
| JogLaws.TickSynchronises | crates/par6-motion/src/jog.rs:232-235 | the first tick of an inactive engine leaves every joint at rest where it is measured |
| Spline.NaturalSplineSecondDerivatives | crates/par6-motion/src/cart.rs:660-682 | for strictly increasing knots the sweeps leave the exact solution of the natural-spline system |
| Spline.PivotPositive | crates/par6-motion/src/cart.rs:674-675 | every denominator of the elimination is positive |
| Spline.SweepsSolve | crates/par6-motion/src/cart.rs:668-680 | eliminated rows and back substitution together solve every row |
| Spline.MomentsUnique | crates/par6-motion/src/cart.rs:658-660 | the waypoints determine the second derivatives |
| Spline.CubicInterpolates | crates/par6-motion/src/cart.rs:645-651 | each cubic runs through its two waypoints |
| Spline.SlopeIsDerivative | crates/par6-motion/src/cart.rs:645-651 | the slope used below is the cubic's first derivative |
| Spline.CurvatureIsDerivative | crates/par6-motion/src/cart.rs:645-651 | and the curvature its second |
| Spline.SlopesAgree | crates/par6-motion/src/cart.rs:668-673 | the slopes on either side of a knot agree exactly when its row of the system holds |
| Spline.SplineIsSmooth | crates/par6-motion/src/cart.rs:612-651 | at every interior knot value, slope and curvature of the neighbouring cubics match |
| Spline.SplineIsNatural | crates/par6-motion/src/cart.rs:658-682 | and at both ends of the path the curvature is nothing |
| Spline.ChordKnots | crates/par6-motion/src/cart.rs:589-596 | the knots are strictly increasing whatever waypoints coincide |
| Spline.Locate | crates/par6-motion/src/cart.rs:631-639 | the walk finds the segment holding a distance and the fraction along it, empty segments included |
| Spline.SplinePositions | crates/par6-motion/src/cart.rs:575-656 | refused exactly for fewer than two waypoints and for three or more that are all one pose; otherwise the samples start and end on the first and last waypoint and each lies on the natural spline, at its share of the length or, between two waypoints, evenly |
| Spline.LineIsSpline | crates/par6-motion/src/cart.rs:317-323 | between two waypoints the natural spline is the straight line |
| Spline.PathStart | crates/par6-motion/src/cart.rs:629-654 | the point at no distance is the first waypoint |
| Spline.PathEnd | crates/par6-motion/src/cart.rs:629-654 | the point at the whole distance is the last waypoint |
| Spline.FlatStretch | crates/par6-motion/src/cart.rs:635-639 | waypoints between which the length does not grow are one point |
| Spline.SampleOrder | crates/par6-motion/src/cart.rs:629-630 | the sampled distances run from nothing to the whole length without turning back |
| Spline.SamplesEven | crates/par6-motion/src/cart.rs:629-630 | and are evenly apart |
| Spline.IntervalsKeepPitch | crates/par6-motion/src/cart.rs:621-623 | the intervals stay within the point budget, keep the pitch unless the budget does not let them, and are no more than the pitch takes |
| Spline.LineIntervalsAre | crates/par6-motion/src/cart.rs:318-322 | a line has all the intervals asked for, or all the budget lets it have |
| SampleBudget.FitBudget | crates/par6-motion/src/cart.rs:239-271 | a path within the budget is untouched; over it the counts end summing to exactly what is allowed, each at least one and none raised above what it asked; no count but one is a whole interval above its share, none is below its share rounded down where those fit, and where they do not only the largest give |
| SampleBudget.FloorAll | crates/par6-motion/src/cart.rs:247-249 | every count is its share rounded down, or one where that is nothing |
| SampleBudget.FairCount | crates/par6-motion/src/cart.rs:245-271 | what that leaves one piece: at most its share when the rounded-down shares overshoot, within one of it when every share is at least one |
| SampleBudget.ShareIs | crates/par6-motion/src/cart.rs:245-246 | a share is the piece's part of what all ask for |
| SampleBudget.AllowedPoints | crates/par6-motion/src/cart.rs:241 | the points allowed are the budget, or one more than the pieces where that is more |
| SampleBudget.GiveBack | crates/par6-motion/src/cart.rs:252-259 | ends at the budget, only the largest counts having given |
| SampleBudget.GiveOut | crates/par6-motion/src/cart.rs:260-270 | ends at exactly the budget, the ones rounding cut deepest having been given to; the early break is unreachable |
| SampleBudget.SomePartShort | crates/par6-motion/src/cart.rs:261-267 | while the counts sum below the budget some piece is short of its share |
| SampleBudget.SomePartAboveOne | crates/par6-motion/src/cart.rs:252-258 | while they sum above it some piece has more than one interval |
| SampleBudget.SharesSum | crates/par6-motion/src/cart.rs:245-246 | the exact shares sum to the scaled total |
| SampleBudget.Largest | crates/par6-motion/src/cart.rs:253-255 | the last of the largest counts |
| SampleBudget.Shortest | crates/par6-motion/src/cart.rs:262-264 | the last of the pieces furthest short |
| CornerTrims.CornerTrims | crates/par6-motion/src/cart.rs:707-744 | refused exactly when the radii do not match the segments; otherwise each corner takes the same clamped radius off both segments, never more than half of either, so two corners never overlap |
| CornerTrims.FittingGreatest | crates/par6-motion/src/cart.rs:722-730 | the clamped radius is the greatest that exceeds neither what is asked nor half of either segment |
| JointBlend.CutPieces | crates/par6-motion/src/cart.rs:930-966 | the pieces of the path and the intervals each asks for |
| JointBlend.PiecesAbut | crates/par6-motion/src/cart.rs:944-966 | each piece ends where the next starts: exactly, save at a segment whose line is too short to keep, where the gap is that of the segment |
| JointBlend.NoGapWithoutSlivers | crates/par6-motion/src/cart.rs:944-949 | without slivers every join is exact |
| JointBlend.NarrowGaps | crates/par6-motion/src/cart.rs:944-949 | with them no gap exceeds the merging distance times the longest span |
| JointBlend.JoinsAreSlivers | crates/par6-motion/src/cart.rs:944-981 | the joins too wide to be merged are exactly the slivers at least the merging distance wide |
| JointBlend.PiecesStart | crates/par6-motion/src/cart.rs:944-949 | the first piece is the first segment's line, so the path is never without pieces |
| JointBlend.PiecesEnd | crates/par6-motion/src/cart.rs:944-966 | the last piece ends at the last waypoint |
| JointBlend.LineIsEven | crates/par6-motion/src/cart.rs:984-989 | a line is run evenly from its start to its end |
| JointBlend.CornerIsTangent | crates/par6-motion/src/cart.rs:990-1002 | a corner leaves the first segment along it and comes into the next along that |
| JointBlend.MotionIs | crates/par6-motion/src/cart.rs:947-963 | pieces are counted by how far the joints move from end to end, a corner's by its two legs |
| JointBlend.IntervalLeast | crates/par6-motion/src/cart.rs:943 | in the least intervals that keep the pitch |
| JointBlend.PointStep | crates/par6-motion/src/cart.rs:943-963 | neighbouring points of a line or a Bezier corner cut as finely as it asks are at most two pitches apart |
| JointBlend.CurveStep | crates/par6-motion/src/cart.rs:994-1000 | a Bezier corner moves at most twice as fast as the longer of its legs |
| JointBlend.PointBetween | crates/par6-motion/src/cart.rs:982-1004 | every point lies between the least and the greatest waypoint value of each joint |
| JointBlend.ThinEnds | crates/par6-motion/src/cart.rs:976-981 | leaving out repeated points keeps the first and stays within the merging distance of the last |
| JointBlend.ThinSteps | crates/par6-motion/src/cart.rs:976-981 | leaving out repeated points lengthens a step by no more than the merging distance |
| JointBlend.ThinApart | crates/par6-motion/src/cart.rs:976-981 | no two neighbouring points that are kept are one |
| JointBlend.ThinNext | crates/par6-motion/src/cart.rs:976-981 | a point is kept exactly when it is not the one before |
| JointBlend.TriedSize | crates/par6-motion/src/cart.rs:973-1005 | the points so far are at most one, the intervals cut so far, and one for each wide join; a repeated point at the end is not counted |
| JointBlend.BlendSize | crates/par6-motion/src/cart.rs:973-1005 | at most one point more than the intervals, and one for each sliver at least the merging distance wide |
| JointBlend.BlendSteps | crates/par6-motion/src/cart.rs:973-1005 | pieces cut as finely as they ask step at most two pitches, or the widest gap, and the merging distance |
| JointBlend.BoundedGaps | crates/par6-motion/src/cart.rs:944-1005 | conversely a path that steps at most two pitches and the merging distance has no gap wider than two pitches and twice the merging distance |
| JointBlend.AbuttingGaps | crates/par6-motion/src/cart.rs:944-966 | a gap of a segment without a line lies between two pieces |
| JointBlend.SliverLongStep | crates/par6-motion/src/cart.rs:944-981 | a gap of 2.7e-12 at a pitch of 1e-13 breaks the step bound, the budget not binding: concrete waypoints |
| JointBlend.TightBlend | crates/par6-motion/src/cart.rs:973-1005 | asked for no points at all, the count is exactly the pieces, one, and one for each wide sliver |
| JointBlend.PointBoundExactly | crates/par6-motion/src/cart.rs:237-241 | for paths whose pieces' ends are apart the documented point bound holds for all pitches and budgets exactly when no sliver is as wide as the merging distance |
| JointBlend.Sample | crates/par6-motion/src/cart.rs:975-1005 | the loops emit the tried points of all pieces, thinned |
| JointBlend.BlendedPolylineJoint | crates/par6-motion/src/cart.rs:896-1007 | which inputs are refused; otherwise for any waypoints and fractions: starts at the first waypoint, ends within 1e-12 of the last, stays in the waypoints' range, keeps the point bound but for wide slivers, shares a budget that binds out fairly by what the pieces ask, and where it does not bind steps at most two pitches and 1e-12 when no gap exceeds two pitches, and not when one exceeds them by more than 2e-12 |
| JointBlend.SliverAddsPoint | crates/par6-motion/src/cart.rs:945-981 | concrete waypoints: with a span of three radians every pitch at a budget of no points gives four pieces and six points; with one radian the sliver is merged away and the bound holds for every call |
| Wrap.WrapToWindow | crates/par6-kin/src/wrap.rs:34-63 | the result is a whole-turn shift that no other integer number of turns beats on distance outside the window, then distance from the seed |
| Wrap.UnbeatenBranch | crates/par6-kin/src/wrap.rs:28-63 | so it misses the window by no more than any whole number of turns would, is nearest the seed of those that miss it by as little, and is inside when any is |
| Wrap.CandidatesSuffice | crates/par6-kin/src/wrap.rs:38-47 | every branch is matched or beaten by one of the six scored |
| Wrap.NearestWithinHalf | crates/par6-kin/src/wrap.rs:41 | the rounded branch is within half a turn of the seed |
| Wrap.FartherIsWorse | crates/par6-kin/src/wrap.rs:22-27 | going further from the branch nearest the seed never comes closer to it |
| ClientWaits.RecordedConsistent | crates/par6-client/src/core.rs:831-844 | recording keeps log keys equal to the queue without repeats, at most the bound of them, nothing both logged and awaited; only the oldest entry is evicted |
| ClientWaits.Completions.Record | crates/par6-client/src/core.rs:831-844 | the finished command is logged and exactly its waiters are handed back |
| ClientWaits.Completions.Register | crates/par6-client/src/core.rs:630-637 | answered from the log or joined, in one critical section |
| ClientWaits.Completions.Cleanup | crates/par6-client/src/core.rs:640-646 | only senders whose receivers are gone leave, and no empty list stays |
| ClientWaits.Completions.Clear | crates/par6-client/src/core.rs:940-949 | a restart forgets log, queue and waiters together |
| ClientWaits.StepKeeps | crates/par6-client/src/core.rs:625-737 | every atomic step of any task keeps tables, channels, recorded answers and sessions in agreement |
| ClientWaits.RunKeeps | crates/par6-client/src/core.rs:625-737 | and so does every interleaving of replies, waits, time-outs, cancellations, restarts and closes |
| ClientWaits.OpenEnds | crates/par6-client/src/core.rs:625-648 | an open channel ends only by delivery, restart, close or its own leaving, and delivers what was recorded while it was open |
| ClientWaits.SentStays | crates/par6-client/src/core.rs:831-844 | a delivered answer stays delivered |
| ClientWaits.NoCompleteLost | crates/par6-client/src/core.rs:625-648 | over any run that leaves the wait alone, its channel holds the first completion recorded for its index since it joined, and stays open while there is none: nothing falls between the log check and joining |
| ClientWaits.ClearTells | crates/par6-client/src/core.rs:940-949 | a waiter dropped by a restart finds the new session published, if it captured the old one |
| ClientWaits.LateCaptureMissesRestart | crates/par6-client/src/core.rs:656-680 | a wait that captures its session between publication and clearing takes the restart for a time-out |
| ClientWaits.RestartWithJoinedWait | crates/par6-client/src/core.rs:883-949 | that moment is reachable from the start |
| ClientWaits.OwnRunExactly | crates/par6-client/src/core.rs:625-648 | an answer by the channel is of the runtime's run the wait is about exactly when the first completion of its index to be recorded is |
| ClientWaits.LoggedOwnRunExactly | crates/par6-client/src/core.rs:630-637 | an answer from the log is exactly when the last completion recorded of its index is |
| ClientWaits.LogIsLatest | crates/par6-client/src/core.rs:831-844 | what the log holds of a command is the last completion of its index |
| ClientWaits.HitExactly | crates/par6-client/src/core.rs:650-684 | STATUS ends the race exactly when the published frame is of another session, shows the command completed, or shows it accepted with a standing error of it or one before |
| ClientWaits.RefusedExactly | crates/par6-client/src/core.rs:573-582 | a wait comes to end as refused exactly when it is judged while the published frame is of its session, its standing error names the command or one before, and its accepted index has reached the command |
| ClientWaits.JudgedElse | crates/par6-client/src/core.rs:691-698 | judged otherwise it ends as changed session under another session's frame and goes into grace under any other |
| ClientWaits.DeliveredIsOutcome | crates/par6-client/src/core.rs:668-720 | a completion delivered in the race or in grace, or recovered, is the wait's outcome |
| ClientWaits.EarlyCompleteAnswersOldWait | crates/par6-client/src/core.rs:739-773 | a restarted runtime's COMPLETE that overtakes its first STATUS frame answers a wait of the run before: a run from the start |
| ClientWaits.LateCompleteAnswersNewWait | crates/par6-client/src/core.rs:940-949 | a late COMPLETE of the old run, recorded after the clearing, answers a wait of the new one: a run from the start |
| ClientWaits.GraceCrossesRestart | crates/par6-client/src/core.rs:699-720 | in the grace period the recovery answers with the restarted runtime's command of the same index: a run from the start |
| ClientWaits.SameClearEpoch | crates/par6-client/src/core.rs:650-703 | answers by the channel or from the log, held or given, were recorded between the same two clearings the wait joined between; where completions arrive in time that makes them the wait's own run's, and a recovered one is exactly when no other run was cleared for |
| ClientWaits.EntriesAreLiveOrCancelled | crates/par6-client/src/core.rs:622-648 | a wait that ended leaves no entry |
| ClientWaits.CancelLeavesEntry | crates/par6-client/src/core.rs:622-648 | a cancelled wait with an open channel leaves its entry |
| ClientWaits.AcceptedSpan | crates/par6-client/src/core.rs:916-934 | a frame lengthens its session's stretch by its distance from the last, or begins one |
| ClientWaits.StreamStep | crates/par6-client/src/core.rs:916-934 | each step keeps accepted frames plus counted gaps equal to what the session stretches span |
| ClientWaits.RunStream | crates/par6-client/src/core.rs:916-939 | over any arrival order numbers strictly rise within a session and nothing is unaccounted for |
| ClientWaits.FrameTaken | crates/par6-client/src/core.rs:916-934 | a frame is taken in exactly when it is newer than the last of its session or of another session |
| ClientWaits.StartStream | crates/par6-client/src/core.rs:883-949 | a new client satisfies that |
| ClientRequests.StepShutDown | crates/par6-client/src/core.rs:274-299 | once a joined close holds the lock no roundtrip is past its closed check, step by step |
| ClientRequests.JoinedSilences | crates/par6-client/src/core.rs:287-299 | after a joined close returns no roundtrip sends, whatever was in flight, retrying or first polled later |
| ClientRequests.ClosedSendsInFlight | crates/par6-client/src/core.rs:274-285 | after a plain close at most the sends already committed to go out |
| ClientRequests.StepMatched | crates/par6-client/src/core.rs:370-412 | whatever ids are issued, every step keeps the pending table exactly the posted requests still unanswered, and every reply with a request of its id |
| ClientRequests.RunMatched | crates/par6-client/src/core.rs:184-193 | so over any interleaving no finished request leaves an entry, and a request only ever ends with a reply that echoes its id |
| ClientRequests.StepFairExactly | crates/par6-client/src/core.rs:343-412 | a step of an open client hangs up on a request or ends it as closed exactly when one posts, or ends its posting, over the entry another has under the same id |
| ClientRequests.RunFairExactly | crates/par6-client/src/core.rs:343-412 | over any interleaving no request of an open client is told it was closed, all the way, exactly when that never happens |
| ClientRequests.SpoilingShares | crates/par6-client/src/core.rs:322-331 | it takes two outstanding requests of one id |
| ClientRequests.YoungRunsAreFair | crates/par6-client/src/core.rs:322-331 | so it never happens while ids are issued only with no request outstanding from a whole span of ids ago |
| ClientRequests.SharedIdFailsBoth | crates/par6-client/src/core.rs:322-412 | it can happen: a run from the start ends two requests of one id as closed in a client nobody closed |
| ClientRequests.TicketsApart | crates/par6-client/src/core.rs:322-333 | ids fewer than a full span apart differ |
| ClientRequests.StartHolds | crates/par6-client/src/core.rs:210-271 | a new client satisfies every invariant |
| ClientSends.StepAccounted | crates/par6-client/src/core.rs:386-410 | whatever arrives, fails or closes, each step keeps every request's datagrams accounted for: all of its attempts so far, and those of this one before the next |
| ClientSends.RunAccounted | crates/par6-client/src/core.rs:386-411 | so over any interleaving a request that gave up has sent every datagram once in each attempt, and one backing off has an attempt left |
| ClientSends.SentAtMost | crates/par6-client/src/core.rs:386-411 | and none has sent more than its attempts |
| ClientSends.StartAccounted | crates/par6-client/src/core.rs:210-271 | a new client has sent nothing |
| Overlay.MergeInto | crates/par6-config/src/overlay.rs:256-300 | the in-place recursive merge computes the specified merge in whatever order the keys come, and terminates on the overlay |
| Overlay.MergeArrays | crates/par6-config/src/overlay.rs:277-292 | entries by name or by position, new ones appended |
| Overlay.PositionIs | crates/par6-config/src/overlay.rs:281-289 | the first entry of a name is the one merged into |
| Overlay.SelfMerge | crates/par6-config/src/overlay.rs:256-300 | a document merged over itself is itself |
| Overlay.EntriesAbsorbed | crates/par6-config/src/overlay.rs:277-292 | after an array is merged each overlay entry is already in it |
| Overlay.MergeIdempotent | crates/par6-config/src/overlay.rs:256-300 | merging an overlay twice equals once, for all trees with distinct names in each overlay named array and no names in per-joint arrays; the exact condition is below |
| Overlay.MergeValueIdempotent | crates/par6-config/src/overlay.rs:263-297 | the same for any value under any path |
| Overlay.EntriesLand | crates/par6-config/src/overlay.rs:277-292 | after the merge each overlay entry lies merged over the shipped entry it names, or as a new one |
| Overlay.MergeLeavesUnnamed | crates/par6-config/src/overlay.rs:256-300 | every path the overlay does not name reads as before, through tables by key and into the entries of arrays by name or by position |
| Overlay.MergeSetsNamed | crates/par6-config/src/overlay.rs:256-300 | every plain value the overlay gives at such a path is in force |
| Overlay.EntriesLeftAlone | crates/par6-config/src/overlay.rs:277-292 | entries nothing in the overlay stands for stay whole and in place |
| Overlay.RepeatedNameNotIdempotent | crates/par6-config/src/overlay.rs:265-296 | a name given twice can break idempotence: concrete documents |
| Overlay.NamedJointNotIdempotent | crates/par6-config/src/overlay.rs:268-276 | so can a name in a per-joint array, which the second merge then refuses |
| OverlayTwice.LayTables | crates/par6-config/src/overlay.rs:256-300 | a table is laid over another key by key |
| OverlayTwice.FoldTables | crates/par6-config/src/overlay.rs:256-300 | and so are tables one after another |
| OverlayTwice.FoldEntries | crates/par6-config/src/overlay.rs:277-292 | named entries merged one after another fold name by name, and only first entries of a name change |
| OverlayTwice.FitsExactly | crates/par6-config/src/overlay.rs:256-300 | whether values can be laid one after another over anything at all is read off the values |
| OverlayTwice.QuietExactly | crates/par6-config/src/overlay.rs:256-300 | whether laying some values changes nothing after others, over every document, is read off the two lists |
| OverlayTwice.ByPosition | crates/par6-config/src/overlay.rs:277-292 | per-joint entries are laid over the ones in their places |
| OverlayTwice.PositionExactly | crates/par6-config/src/overlay.rs:268-292 | a per-joint array may be merged twice over every document exactly when each entry may, and either no entry can turn the array into a named one or each name's entries rest on its first |
| OverlayTwice.StableExactly | crates/par6-config/src/overlay.rs:256-300 | the condition read off an overlay value holds exactly when merging it twice equals once over every value |
| OverlayTwice.MergeTwiceExactly | crates/par6-config/src/overlay.rs:256-300 | and of a whole overlay exactly when that is so for every document |
| OverlayTwice.WellFormedIsStable | crates/par6-config/src/overlay.rs:256-300 | distinct names, and none in per-joint arrays, suffice |
| OverlayTwice.RepeatedAlikeIsStable | crates/par6-config/src/overlay.rs:281-289 | and are not needed: an entry given twice alike does no harm |
| OverlayTwice.JointPaths | crates/par6-config/src/overlay.rs:257-262 | the path that counts as per-joint is spelt by the keys homing and joints, or by the two in one, empty keys before them aside, and by no other keys |
| OverlayTwice.MergedUnder | crates/par6-config/src/overlay.rs:256-300 | where keys lead to a value on both sides, they lead afterwards to the one merged over the other |
| OverlayTwice.UnnamedArrays | crates/par6-config/src/overlay.rs:264-303 | for whole documents, by keys: an unnamed array of tables under the per-joint keys ends with each overlay entry laid over the shipped one in its place and later shipped ones kept; under any other keys it is replaced whole |
| OverlayTwice.UnnamedInside | crates/par6-config/src/overlay.rs:264-297 | and inside an entry of an array |
| OverlayTwice.NamedArrays | crates/par6-config/src/overlay.rs:264-292 | a named array, under any keys, ends with each name's entry the shipped one with the overlay's of that name laid over it, the shipped names in place; the overlay's must be named |
| OverlayTwice.OthersReplaced | crates/par6-config/src/overlay.rs:263-297 | unless both sides are tables, or both arrays of tables with entries, the overlay's value replaces the shipped one |
| CollisionWorld.FilterAdjacentPairs | cpp/src/par6_col.cpp:217-234 | exactly the pairs of geometries on different, unlinked joints stay, in order |
| CollisionWorld.LinkGeometriesShareName | cpp/src/par6_col.cpp:165-172 | every numbered geometry of a link is reported as the link |
| CollisionWorld.Handle.constructor | cpp/src/par6_col.cpp:335-347 | a new handle holds the world of no keep-outs |
| CollisionWorld.Handle.PairUp | cpp/src/par6_col.cpp:265-285 | whether a shape is checked against an earlier geometry, at what standoff, and its clearance entry |
| CollisionWorld.Handle.RebuildWorld | cpp/src/par6_col.cpp:236-303 | succeeds exactly when every allowed contact names something else in the world; then the table is the world of the layers, otherwise it is as it was |
| CollisionWorld.Handle.SetLayer | cpp/src/par6_col.cpp:420-510 | accepted exactly when every descriptor and every contact is good; a rejected layer leaves layers, pairs, standoffs and clearance list as they were, and which of the two errors it is |
| CollisionWorld.EligibleExactlyOnce | cpp/src/par6_col.cpp:258-287 | each eligible world pair appears once in the whole table, behind the self pairs, and nothing else does |
| CollisionWorld.ClearancesExact | cpp/src/par6_col.cpp:277-280 | the clearance list is exactly the world pairs with one fixed keep-out, correctly marked as the obstacle |
| CollisionWorld.EligibleExactly | cpp/src/par6_col.cpp:258-287 | with nothing attached a shape is checked against exactly what rides on another joint; an attached shape against everything it is not allowed to touch, its own link included |
| CollisionWorld.RigidPairsAttached | cpp/src/par6_col.cpp:265-286 | so a world pair that cannot move apart involves an attached shape |
| CollisionWorld.AttachedToBaseIsPaired | cpp/src/par6_col.cpp:265-275 | as a shape attached to the fixed base is with a fixed keep-out |
| CollisionWorld.WorldDetermined | cpp/src/par6_col.cpp:236-303 | the layers alone decide the table: putting a layer back puts the world back |
| CollisionLaws.StandoffsAsked | cpp/src/par6_col.cpp:240-285 | every world pair keeps at least the standoff each shape of it asks for, its own margin when not negative and else the world's clearance, and exactly what one of them asks; self pairs keep the clearance |
| CollisionLaws.SelfPairsKept | cpp/src/par6_col.cpp:217-234 | of the robot's own pairs those stay whose joints differ and are not parent and child |
| CollisionLaws.ReportedUnchanged | cpp/src/par6_col.cpp:165-172 | a name is reported as it is unless it numbers a geometry of a link |
| CollisionLaws.LinkContact | cpp/src/par6_col.cpp:174-178 | an attached shape is checked against a numbered geometry of a link unless it allows the link |
| CollisionLaws.ShapeContact | cpp/src/par6_col.cpp:265-276 | two shapes are checked unless both stand still or an attached one allows the other by name |
| CollisionLaws.ContactsKnownExactly | cpp/src/par6_col.cpp:258-264 | the contacts are good exactly when each names another shape or a reported robot part |
| CollisionLaws.AcceptedShapes | cpp/src/par6_col.cpp:447-498 | an accepted layer holds its shapes at the margin and place asked, fixed ones allowing nothing, contacts exact and given once, nothing of the installation attached |
| CollisionLaws.DecimalSpells | cpp/src/par6_col.cpp:462 | a slot's decimal spells the slot, so unplaced shapes have different names |
| CollisionLaws.AppliedShapes | crates/par6-kin/src/collision.rs:245-287 | a keep-out enters the world under its layer's prefix, at its margin, on the gripper exactly when attached |
| CollisionLaws.OnlyColliding | crates/par6-kin/src/collision.rs:245-248 | only shapes that collide are handed on, each as often as it is given |
| CollisionScene.Load | crates/par6-kin/src/collision.rs:177-209 | a robot is refused exactly when one of its geometries has a name that cannot be read back; otherwise the new scene is in step |
| CollisionScene.Scene.constructor | crates/par6-kin/src/collision.rs:192-209 | a new scene is in step with its handle, at epoch zero |
| CollisionScene.Scene.ListNames | crates/par6-kin/src/collision.rs:439-457 | names are the robot's and then both layers' in geometry order |
| CollisionScene.Scene.ListReportingNames | crates/par6-kin/src/collision.rs:458-467 | stops exactly at a name the buffer cannot hold; otherwise reporting names are those contacts use |
| CollisionScene.Scene.RebuildNames | crates/par6-kin/src/collision.rs:437-471 | the layout check always holds; in step exactly when every name can be read |
| CollisionScene.ListedExactly | crates/par6-kin/src/collision.rs:458-467 | the reporting names are the contact names up to the first that cannot be read |
| CollisionScene.Scene.SetLayer | crates/par6-kin/src/collision.rs:231-296 | succeeds exactly when the handle accepts the layer and every name can be read back; the epoch moves by one exactly then and the scene is in step; a rejection changes nothing; an accepted layer with an unreadable name is in force, reported as an error, and not counted |
| CollisionScene.Scene.AdoptLayers | crates/par6-kin/src/collision.rs:298-308 | succeeds exactly when both layers are taken in turn, and then layers and epoch are the other scene's; which layers are left otherwise |
| CollisionScene.Scene.FreshAdopts | crates/par6-kin/src/collision.rs:298-308 | a new scene of the same robot always adopts one that is in step |
| CollisionScene.AdoptionStopsHalfWay | crates/par6-kin/src/collision.rs:298-308 | over another robot the first layer can be taken and the second refused: concrete layers |
| CollisionScene.UnknownContactRefused | cpp/src/par6_col.cpp:420-510 | a shape allowing a contact nothing in the world is named for is refused |
| CollisionScene.Scene.Clearances | crates/par6-kin/src/collision.rs:384-408 | each keep-out that some part is checked against is answered by name with the least distance over all those parts, and no other; a stale scene is refused exactly when its buffer is too small and out of bounds exactly when an answer's name is not listed; a scene in step is neither |
| CollisionScene.Scene.Tell | crates/par6-kin/src/collision.rs:396-405 | the names are looked up exactly when all are listed |
| CollisionScene.StaleClearances | crates/par6-kin/src/collision.rs:384-408 | clearances asked for after a layer with a 256-byte placed name index past the listed names: a run on a robot of two parts |
| CollisionScene.Nearest | crates/par6-kin/src/collision.rs:389-395 | per keep-out the smallest entry, the first of equals |
| CollisionScene.ClearancesFit | crates/par6-kin/src/collision.rs:468-469 | the pair count is always room enough for the answers |
| CollisionScene.LongestNameUnreadable | crates/par6-kin/src/sys/collision.rs:166-178 | a placed name of 256 bytes is accepted by the handle and cannot be read back from it |
| CollisionScene.ShortNamesReadable | crates/par6-kin/src/sys/collision.rs:166-178 | names can be read back exactly when none exceeds 247 bytes in the installation or 249 in the program layer |
| CollisionScene.InForceAcceptable | crates/par6-kin/src/collision.rs:298-308 | a layer in force is acceptable wherever its contacts are known |
| Homing.Validate | crates/par6-config/src/homing.rs:338-445 | the checks decide exactly the validity used below |
| Homing.ValidateMoves | crates/par6-config/src/homing.rs:448-474 | exactly the move lists with known joints and positive durations pass |
| Homing.EveryJointReferenced | crates/par6-config/src/homing.rs:402-421 | true exactly when some step homes each joint |
| Homing.ReadyPoseRad | crates/par6-config/src/homing.rs:312-336 | the pose of the last placement of each joint, or exactly the joints nothing places, in order |
| Homing.LastNamedPlaces | crates/par6-config/src/homing.rs:316-324 | a joint ends where the last move of the last step that names it puts it |
| Homing.UnnamedUnplaced | crates/par6-config/src/homing.rs:316-329 | and one that no move names is not placed |
| Homing.ForTool | crates/par6-config/src/lib.rs:142-168 | the loops over the clone strip exactly the gripper work, and only for a tool without a driver |
| Homing.ArmOnlyStaysValid | crates/par6-config/src/lib.rs:142-168 | a valid sequence stays valid without its gripper work |
| Homing.SameArmWork | crates/par6-config/src/lib.rs:142-168 | what is left to do is exactly the arm's part of what was asked, in the same order and with the same joints in parallel |
| Homing.NoGripperLeft | crates/par6-config/src/lib.rs:147-160 | no gripper command is left in a move or a home group |
| Homing.SameReferences | crates/par6-config/src/lib.rs:139-141 | the same joints are referenced |
| Homing.SameReadyPose | crates/par6-config/src/lib.rs:139-166 | the arm is left in the same pose, or the same joints unplaced |
| Homing.ArmOnlyTwice | crates/par6-config/src/lib.rs:142-168 | stripping twice equals once |
| ArcKnots.LengthCovers | crates/par6-motion/src/arclen.rs:41 | a step's length is the hypotenuse of its translation and the arc of its rotation: it covers both, and is nothing only without both |
| ArcKnots.ToolArcLengths | crates/par6-motion/src/arclen.rs:36-45 | distances start at zero and grow by each step's hypotenuse: never falling, and standing still exactly where the tool neither moves nor turns |
| ArcKnots.MaxTranslationShare | crates/par6-motion/src/arclen.rs:47-64 | the share lies between zero and one, no counted step translates more than that share of its length, and when positive some step translates exactly that |
| ArcKnots.New | crates/par6-motion/src/arclen.rs:79-101 | nothing exactly when the tool covers no distance; otherwise strictly increasing knots from 0 to within 1e-12 of 1, each a waypoint in order, every waypoint left out within 1e-12 of a knot before it; two knots always remain |
| ArcKnots.KnotDistance | crates/par6-motion/src/arclen.rs:84-98 | each knot is its waypoint, at the tool's distance there in parts of the whole |
| ArcKnots.LeftOutDistance | crates/par6-motion/src/arclen.rs:88-98 | a waypoint left out lies no further than 1e-12 of the whole past a knot at or before it |
| ArcKnots.MaxSlope | crates/par6-motion/src/arclen.rs:126-135 | per joint the largest chord slope, reached on some chord |
| ArcKnots.MaxPathSpeed | crates/par6-motion/src/arclen.rs:145-153 | the least rate the steep joints allow, nothing exactly when no joint is steep or one allows no forward rate |
| ArcKnots.RatesWithinLimits | crates/par6-motion/src/arclen.rs:126-153 | at that rate no joint that turns noticeably turns faster between any two knots than its share of its limit, turn times rate against limit times knot distance, and some joint turns exactly that fast between some two |

## Left out

- Rounding, NaN and infinity: arithmetic is exact, so finiteness checks always pass. An unbounded path rate is an absent one.
- Regressors, forward kinematics and geometry queries: rows, lengths, distances and well-formedness are inputs; their error paths, and error texts and paths everywhere, are not modelled.
- `PoseDesign::gain`: a logarithm of the factor's diagonal.
- `Kin` installing a correction, `model_params` and `flatten`: plumbing around the fit.
- Spline and blend orientation, arcs, circles and the `Pose` blend: quaternions and trigonometry.
- `cart.rs` pitch zero or negative: a pitch is positive here.
- `Jog.RunBrakes`: stated for the trapezoid ramp; the s-curve's discrete ramp can pass its target slightly, so no such bound is claimed for it.
- `JogLaws.UnlatchedFits`: for the s-curve, only where one tick of jerk is within the full rate and the tick does not pass its command; `JogLaws.LatchesExactly` has neither condition.
- `Spline.SplinePositions`: positions only; how many intervals a single line asks for is an input.
- `SampleBudget.FitBudget`: counts are unbounded integers, not 64-bit ones.
- `ClientRequests.RunMatched`: a reply is known by its id alone, so one that is late by a whole span of ids is not told from one to a later request.
- The session a COMPLETE belongs to: a label of the model that no step of the client looks at.
- Sockets, timers, chunked encoding and decoding: messages arrive or do not, time-outs are nondeterministic steps. `par6_proto` is not part of this model; the completion bound is a constant of at least one.
- The requests and the STATUS critical section are steps of a state machine over values, not methods of a class: what the model leaves out is the locks' own mechanics. The completion tables are a class.
- `fire`, which sends without a roundtrip, protocol skew notes and `wait_status`.
- TOML parsing, key order, file lookup, tool layering and fingerprints: the merge starts from parsed trees. Which of several errors is reported first is not stated.
- Names and contacts are sequences of bytes; null pointers at the C boundary cannot be written.
- `apply_srdf`, meshes, placements of shapes in space, `check`, `min_distance` and `world_distance`: geometry. The final ordering of clearances by distance is a library sort.
- `Homing.Validate`: states whether a configuration passes, not which field is named.
- `loopback.rs`, `bus.rs`, `budget.rs`, `gate.rs`, the robot record's field checks and everything in Python: easy members or input and output.
