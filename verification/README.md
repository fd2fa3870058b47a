# Verification model of the servo output path and the policy rollout

The project models the parts of the repository that decide which joint vectors
reach the arm, and when:

- **Output path.** A causal latest-destination resampler, a critically damped
  transition limiter bounded in acceleration and jerk, and the final motion
  gates, once behind the resampler library's C interface and once in the native
  worker. On top of them the worker's session: packets, cycles, the no-progress
  hold tracker, lag checks, and the deadline schedule that drives it all.
- **Input path.** The datagram format, its CRC-32 and the newest-wins drain.
- **Rollout.** The absolute-time temporal ensembler and the loop that queries
  it once per tick, the two gates behind it, the pending-prediction queue.
- **Probes and tools.** The zero-motion probe's loop, the zero-motion session
  and the evidence validator, the septic trajectory with its plan and limit
  check, the hand's register scheduler, the horizon counts.

Doubles are modelled as `real`, nanoseconds and counters as unbounded naturals
with the program's two explicit 64-bit overflow tests written out. Objects
whose methods update fields are classes; each method is specified by a function
on the object's value, and the properties are proved about that function and
its runs. `ResamplerSpec`, `SelectedOutputSpec`, `OutputMotionSpec`,
`HoldTrackerSpec`, `WorkerSpec`, `ScheduleSpec` and `EnsemblerSpec` hold those
functions; rows about methods name the lemmas that say what their function
means. The environment (clock readings, measured joints, datagrams, other
threads' steps) is an arbitrary input. To check all files together, run
`dafny verify dfyconfig.toml`.

Four statements one might expect do not hold as they stand, and are stated in
the exact form that does:

- Shaping is meant to brake before the destination. The limiter's own cycles do:
  from rest they converge geometrically without crossing it
  (`LimiterConvergence.Converges`). But the program shapes only while
  dispatching the destination itself would cross a boundary
  (resampler_c_api.cpp:229-245, main.cpp:2929-2954), and so the loop leaves
  those cycles while its travel is still on. Exactly as long as shaping lasts the loop is
  those cycles (`DestinationLoop.ShapedRunIsCycles`, `ShapedRunConverges`);
  shaping always ends, the destination is then dispatched at once, and the next
  selection is beyond it (`CrossingLoop.LandsBeyond`). From rest the first
  selection lands and all later ones stay if and only if on every joint the
  error e, with limits V, B, J and period h, satisfies |e| <= (V + 1e-12) h,
  |e| <= (B + 1e-12) h^2 and 2|e| <= (J + 1e-12) h^3
  (`LandingLoop.LandsAndStays`); in the unsaturated range exactly these runs
  arrive without crossing (`CrossingLoop.CleanExactly`), and they are never
  shaped. With the default limits that is 16 microradians; at 20
  `OvershootExample.ConvergingRunOvershoots` gives the overshoot.
- The zero-motion probe's first gap: cycle 0 has no lateness check, so cycle 1
  can start as little as 100 microseconds after it
  (`ZeroMotionProbe.FirstGapCanCollapse`). It is at least 6 ms after it for
  every following wake-up exactly when cycle 0 woke within the warning bound or
  overran its release (`FirstGapIsSafe`); all later gaps lie in 6 to 12 ms.
- The horizon formulas, as functions of any event, count query rows exactly when
  the event lies within the episode, up to a fixed margin past its end
  (`HorizonCounts.FutureIsEnumerated` and `AfterFirstTwoIsEnumerated` give both
  directions). The failing inputs belong to the functions alone: their caller
  only passes an index of the episode's rows
  (tools/analyze_act_horizon_coverage.py:58-59).
- Trimming is not absent from every rollout: with one query and one selection
  per tick, n ticks of K-step chunks avoid it exactly when m(2K-m+1)/2 points
  fit, m being the smaller of n and K (`CanonicalLoop.RunCanonical`,
  `FitsIsPeak`). With the fixed capacity, chunks of at most 90 steps never trim
  in any run, and longer ones do once the run is long enough.

## Model

| member | source | states |
|---|---|---|
| `TransitionLimiter.MeasuredIsShaped` | native/jaka_servo_worker/joint_servo_resampler.hpp:103-116 | the finite differences of the gate recover exactly the velocity and acceleration the limiter integrated |
| `TransitionLimiter.ShapedEnvelope` | native/jaka_servo_worker/joint_servo_resampler.hpp:107-114 | a shaped acceleration is inside the internal boundary, and its change is within the jerk step or the previous overhang |
| `TransitionLimiter.ComputeLimitedPoint` | native/jaka_servo_worker/joint_servo_resampler.hpp:75-120 | argument errors, six independently shaped joints, cleared endpoint flag, position check; `ShapedEnvelope`, `MotionGate.ShapedPassesGate` and `LimiterConvergence.Converges` say what shaping achieves |
| `LimiterConvergence.CalmStep` | native/jaka_servo_worker/joint_servo_resampler.hpp:96-117 | one joint in the unsaturated range: neither clamp fires, the error keeps its sign and shrinks, the velocity stays within w times the error |
| `LimiterConvergence.Converges` | native/jaka_servo_worker/joint_servo_resampler.hpp:88-117 | for uninterrupted shaping, from rest and for every number of cycles: all shaped points succeed, no clamp fires, no overshoot, and each error is at most (1-(wh)^2)^n of its start; where the program's loop runs these cycles is `DestinationLoop.ShapedRunIsCycles` |
| `ServoResampler.JointServoResampler.Create` | native/jaka_servo_worker/joint_servo_resampler.hpp:126-133 | construction succeeds exactly for positive multiples of 8 ms |
| `ServoResampler.JointServoResampler.Initialize` | native/jaka_servo_worker/joint_servo_resampler.hpp:135-146 | the whole new state, or an error and no change; the run invariant it establishes is `ResamplerRuns.InitializedIsReachable` |
| `ServoResampler.JointServoResampler.Hold` | native/jaka_servo_worker/joint_servo_resampler.hpp:148-162 | the whole new state, or an error and no change; that the robot then stays continuous is `ResamplerRuns.EveryRunIsContinuous` |
| `ServoResampler.JointServoResampler.Accept` | native/jaka_servo_worker/joint_servo_resampler.hpp:164-223 | first target, target after a hold and replacement, each with its whole new state; errors in the program's order, and the fields an overflowing duration leaves half updated; `ResamplerRuns.AcceptKeepsReachable` and `ArrivesExactly` say that the new segment starts at the emitted point and ends at the target; `ResamplerRuns.AcceptSetsDuration` and `ReachesInTime` say how long the new segment takes, `ResamplerAccounts.StepCounts` what is counted |
| `ServoResampler.JointServoResampler.Evaluate` | native/jaka_servo_worker/joint_servo_resampler.hpp:225-255 | the point on the segment at a servo time, with clamped fraction and endpoint flag; `ResamplerRuns.EveryRunIsContinuous` and `TicksFollowSegment` say that this is continuous and follows the segment; `ResamplerRuns.EvaluatesOnLine` and `VelocityIsExact` say where on the segment the point lies, `ResamplerAccounts.PointsTellTheirSource` whose acceptances it reports |
| `ServoResampler.JointServoResampler.Commit` | native/jaka_servo_worker/joint_servo_resampler.hpp:257-268 | emitted point, servo time, counters, and the end of the segment; `ResamplerRuns.EmitNeverRecedes` and `TicksFollowSegment` say what a commit achieves; `ResamplerAccounts.StepCounts` says what is counted |
| `ServoResampler.JointServoResampler.CommitTransitionLimited` | native/jaka_servo_worker/joint_servo_resampler.hpp:270-286 | the segment restarts at the shaped point for one period, also what an overflow leaves half updated; `ResamplerRuns.ShapedKeepsReachable` keeps the run invariant |
| `ResamplerRuns.InitializedIsReachable` | native/jaka_servo_worker/joint_servo_resampler.hpp:135-146 | initialization establishes the run invariant |
| `ResamplerRuns.EveryRunIsContinuous` | native/jaka_servo_worker/joint_servo_resampler.hpp:135-286 | in every state any run reaches, emitted, start and destination are inside the limits, the segment began no later than the last servo time, and evaluating at that time returns the emitted point |
| `ResamplerRuns.EmitNeverRecedes` | native/jaka_servo_worker/joint_servo_resampler.hpp:225-268 | an unshaped commit never increases any joint's distance to the destination |
| `ResamplerRuns.TicksFollowSegment` | native/jaka_servo_worker/joint_servo_resampler.hpp:225-268 | over any number of undisturbed ticks the emitted point is the segment's point at that time, and the segment is open exactly before its end |
| `ResamplerRuns.ArrivesExactly` | native/jaka_servo_worker/joint_servo_resampler.hpp:204-268 | ceil(D / period) spaced ticks after a target of duration D the emitted point is the destination itself and the resampler is inactive |
| `ResamplerRuns.EvaluatesOnLine` | native/jaka_servo_worker/joint_servo_resampler.hpp:225-255 | while a segment is open, every joint of the evaluated point has gone the share of its way that the time has of the duration; from the end on the point is the destination; the fraction and the endpoint flag say the same |
| `ResamplerRuns.VelocityIsExact` | native/jaka_servo_worker/joint_servo_resampler.hpp:245-252 | two points of one segment lie exactly the reported velocity times the elapsed time apart |
| `ResamplerRuns.AcceptSetsDuration` | native/jaka_servo_worker/joint_servo_resampler.hpp:164-223 | a new segment starts at the emitted point and lasts one servo period after no target or a hold, otherwise the time between the two acceptances |
| `ResamplerRuns.ReachesInTime` | native/jaka_servo_worker/joint_servo_resampler.hpp:164-268 | over runs: with a1 < a2 the acceptance times of two consecutive targets, the second is reached after ceil((a2 - a1) / period) spaced ticks; the first target, and the first after a hold, after one |
| `ResamplerRuns.StaysUnderWay` | native/jaka_servo_worker/joint_servo_resampler.hpp:164-268 | and not before: until a2 - a1 has passed the segment is open, and each joint has gone the elapsed share of its way |
| `ResamplerAccounts.StepCounts` | native/jaka_servo_worker/joint_servo_resampler.hpp:164-330 | what each of the eight counters counts, told from what the call did: emissions, repeats, shaped points, arrivals, replacements, preemptions, longest duration and latency |
| `ResamplerAccounts.RunCounts` | native/jaka_servo_worker/joint_servo_resampler.hpp:164-330 | over runs the totals are the numbers of events of each kind |
| `ResamplerAccounts.PointsTellTheirSource` | native/jaka_servo_worker/joint_servo_resampler.hpp:225-238 | after any run an evaluated point reports the acceptances its segment comes from and leads to |
| `MotionGate.FinalGateMeaning` | native/jaka_servo_worker/resampler_c_api.cpp:95-118 | the gate is silent exactly inside all boundaries and otherwise names a violated one |
| `MotionGate.BoundariesInNumbers` | native/jaka_servo_worker/resampler_c_api.cpp:95-118 | the boundaries in numbers: velocity and acceleration with 1e-12 of tolerance, the jerk with its relative and absolute tolerance |
| `MotionGate.RequireFinalBoundaries` | native/jaka_servo_worker/resampler_c_api.cpp:95-118 | the first violation in joint order, and none exactly inside all boundaries |
| `MotionGate.ShapedPassesGate` | native/jaka_servo_worker/joint_servo_resampler.hpp:88-118 | a shaped joint measures inside the recoverable acceleration and the final jerk boundary whenever the acceleration overhang has room |
| `MotionGate.UnshapedPassesGate` | native/jaka_servo_worker/resampler_c_api.cpp:83-118 | whatever needs no shaping is already inside every final boundary |
| `SelectedOutput.ResamplerHandle.Initialize` | native/jaka_servo_worker/resampler_c_api.cpp:164-176 | history at rest at the position even when the resampler then refuses it, resampler initialized; `EnvelopeClosure.InitialIsClosed` says why that is a safe start |
| `SelectedOutput.ResamplerHandle.ConfigureTransition` | native/jaka_servo_worker/resampler_c_api.cpp:187-209 | accepts exactly positive velocity, recoverable and jerk limits with hard at least recoverable; refused ones still overwrite the velocity limits; `EnvelopeClosure.InitialIsClosed` uses the accepted ones |
| `SelectedOutput.ResamplerHandle.Measured` | native/jaka_servo_worker/resampler_c_api.cpp:62-81 | zero motion at the same time, finite differences later, an error earlier; `TransitionLimiter.MeasuredIsShaped` relates it to the limiter |
| `SelectedOutput.ResamplerHandle.EvaluateSelected` | native/jaka_servo_worker/resampler_c_api.cpp:220-254 | evaluate, shape if required, gate, commit and remember; a rejected call changes nothing, except that a servo clock overflow leaves the shaped point emitted; `EnvelopeClosure.ShapedSelection`, `UnshapedSelectionSucceeds` and `EnvelopeCloses` say when it succeeds and what runs of it keep; `SelectedOutputSpec.ConsecutiveSelections` says what its reports mean |
| `SelectedOutputSpec.ConsecutiveSelections` | native/jaka_servo_worker/resampler_c_api.cpp:220-254 | two selections in a row: the second one's motion is measured against what the first one reported, and it reports a recovery exactly when the first was shaped and it is not |
| `EnvelopeClosure.UnshapedSelectionSucceeds` | native/jaka_servo_worker/resampler_c_api.cpp:220-254 | a point that needs no shaping is never rejected |
| `EnvelopeClosure.ShapedSelection` | native/jaka_servo_worker/resampler_c_api.cpp:229-245 | a shaped point succeeds if and only if its position and velocity are admissible and the servo clock does not run out; never rejected for acceleration or jerk |
| `EnvelopeClosure.EnvelopeCloses` | native/jaka_servo_worker/resampler_c_api.cpp:83-118 | over every run of calls the previous acceleration stays within the recoverable boundary plus 1e-12 and every selection succeeds or fails only for the listed reasons |
| `EnvelopeClosure.InitialIsClosed` | native/jaka_servo_worker/resampler_c_api.cpp:164-176 | initialization and configuration establish the envelope |
| `EnvelopeClosure.DefaultsHaveRoom` | native/jaka_servo_worker/main.cpp:197-200 | with the default limits the tolerance condition holds for every positive timestep |
| `SelectionLoop.PlainTick` | native/jaka_servo_worker/resampler_c_api.cpp:220-254 | toward a destination one period away, a selection that needs no shaping dispatches the destination |
| `SelectionLoop.ShapedTick` | native/jaka_servo_worker/resampler_c_api.cpp:220-254 | one that needs it dispatches the shaped point, or is rejected exactly for that point's position, its motion or the end of the servo clock |
| `DestinationLoop.ShapedRunIsCycles` | native/jaka_servo_worker/resampler_c_api.cpp:229-245 | while every selection is shaped, n selections one period apart leave exactly the history of n limiter cycles |
| `DestinationLoop.ShapedRunConverges` | native/jaka_servo_worker/resampler_c_api.cpp:229-245 | from rest in the unsaturated range, with w times the error within the velocity limits, none of those selections is rejected, and the run converges as the cycles do |
| `LandingLoop.KeptExactly` | native/jaka_servo_worker/resampler_c_api.cpp:220-254 | at the destination, whatever the motion it was reached with, all later selections keep it if and only if velocity and acceleration can be stopped within the acceleration and jerk limits |
| `LandingLoop.LandsAndStays` | native/jaka_servo_worker/resampler_c_api.cpp:220-254 | from rest the first selection lands and all later ones stay if and only if every error is within (V+1e-12)h, (B+1e-12)h^2 and half of (J+1e-12)h^3 |
| `LandingLoop.RoughLandingOvershoots` | native/jaka_servo_worker/resampler_c_api.cpp:220-254 | a first selection that lands too fast is followed by one beyond the destination, or by a rejection |
| `JointLanding.CrossingGoesPast` | native/jaka_servo_worker/joint_servo_resampler.hpp:88-117 | one joint: if its candidate crossed the acceleration or jerk boundary before the last free step, then after the landing the feedback takes it past the destination |
| `CrossingLoop.LandsBeyond` | native/jaka_servo_worker/resampler_c_api.cpp:220-254 | from rest in the unsaturated range, a landing after any number of shaped selections is followed by a point beyond the destination, or by a rejection |
| `CrossingLoop.ShapingEnds` | native/jaka_servo_worker/resampler_c_api.cpp:220-254 | shaping ends within a number of selections given by the errors, the jerk limit and wh |
| `CrossingLoop.CleanExactly` | native/jaka_servo_worker/resampler_c_api.cpp:220-254 | from rest in the unsaturated range, the loop arrives without a rejection and without crossing the destination if and only if the errors satisfy the condition of `LandsAndStays` |
| `OvershootExample.ConvergingRunOvershoots` | native/jaka_servo_worker/resampler_c_api.cpp:220-254 | default limits, 20 microradians: every premise of convergence holds, the first selection lands, the second is 18 microradians beyond |
| `OutputMotionSpec.GatesAgree` | native/jaka_servo_worker/main.cpp:699-707 | the worker's final check and the library's gate accept the same samples although they search in different orders |
| `OutputMotionSpec.UnshapedIsFinal` | native/jaka_servo_worker/main.cpp:670-697 | in recovery mode a candidate that needs no shaping passes the final check, which the worker skips for it |
| `OutputMotionSpec.CandidateMeans` | native/jaka_servo_worker/main.cpp:670-697 | which measurable candidates are refused in recovery, abort and plain mode, in terms of the boundaries |
| `OutputMotion.ClassifyTransition` | native/jaka_servo_worker/main.cpp:637-654 | a stall is a destination farther than 1e-6 on some joint with no joint selected more than 1e-9 away; bounded streaks of it are `WorkerRuns.DispatchStreaks` |
| `OutputMotion.OutputMotionDiagnostics.Initialize` | native/jaka_servo_worker/main.cpp:660-668 | history at rest, or an error and no change; sound start of a session: `WorkerRuns.BeginIsSound` |
| `OutputMotion.OutputMotionDiagnostics.Measured` | native/jaka_servo_worker/main.cpp:777-796 | position, timestamp and monotonicity errors, then finite differences; `WorkerRuns.DispatchIsGated` ties it to consecutive commands |
| `OutputMotion.OutputMotionDiagnostics.CheckCandidate` | native/jaka_servo_worker/main.cpp:670-697 | which crossings are reported and which are errors, in each mode; `OutputMotionSpec.UnshapedIsFinal` says that acceptance without shaping implies the final check, `RecoverySession.CandidatesAreAccepted` that recovery mode refuses none |
| `OutputMotion.OutputMotionDiagnostics.CheckFinal` | native/jaka_servo_worker/main.cpp:699-707 | the first violated boundary: velocity, then hard acceleration, then jerk; `OutputMotionSpec.GatesAgree` says that this is the library's gate |
| `OutputMotion.OutputMotionDiagnostics.TransitionLimitedPoint` | native/jaka_servo_worker/main.cpp:729-747 | shaping against the last committed motion with the smaller acceleration boundary; `RecoverySession.ShapedVerdict` says that the result can only fail for velocity |
| `OutputMotion.OutputMotionDiagnostics.Commit` | native/jaka_servo_worker/main.cpp:869-885 | new history and running maxima; `WorkerRuns.DispatchIsSound` ties the history to the emitted point, `WorkerRuns.CommitsStill` says that rest leaves the maxima at zero; `WorkerRuns.DispatchPeaks` says that the maxima are the peaks over the commands |
| `HoldTracker.OutputNoProgressHoldTracker.Hold` | native/jaka_servo_worker/main.cpp:922-959 | one more stall: all fields, whether it starts, degrades or escalates; `HoldAccounting.TrackerAccounts` and `QuietStallIsWithinPolicy` say what counters and escalation mean |
| `HoldTracker.OutputNoProgressHoldTracker.Recover` | native/jaka_servo_worker/main.cpp:961-973 | closes the streak and returns its duration; `HoldAccounting.ProgressAccounts` and `AccountingHolds` say what the totals mean |
| `HoldTracker.OutputNoProgressHoldTracker.Finalize` | native/jaka_servo_worker/main.cpp:975-983 | closes an open streak without a recovery; `HoldAccounting.FinalizedAccounts` says what the totals then include |
| `HoldAccounting.TrackerAccounts` | native/jaka_servo_worker/main.cpp:917-983 | after every session each counter is the matching statistic of the session split into maximal streaks: counts, total, longest, degraded, most cycles |
| `HoldAccounting.SequencesAreReported` | native/jaka_servo_worker/main.cpp:922-973 | the reported sequences are those of the stall that opened the last streak and of the progress that ended the last finished one |
| `HoldAccounting.AccountingHolds` | native/jaka_servo_worker/main.cpp:922-973 | holds are recoveries plus the open streak, the total bounds the longest, degradations at most holds |
| `HoldAccounting.QuietStallIsWithinPolicy` | native/jaka_servo_worker/main.cpp:946-957 | a stall does not escalate exactly when its streak is within the cycle limit and shorter than the hard stop |
| `HoldAccounting.FinalizedAccounts` | native/jaka_servo_worker/main.cpp:975-983 | after finalizing, total and longest include the open streak |
| `WorkerSpec.ShortestIsShortest` | native/jaka_servo_worker/main.cpp:140-142 | the joint difference differs from the plain one by whole turns and is at most half a turn |
| `JointWorker.JointWorker.HandOff` | native/jaka_servo_worker/main.cpp:2520-2549 | resampler, diagnostics and references all start at the measured hand-off vector; `WorkerRuns.BeginIsSound` says when it succeeds and what then holds |
| `JointWorker.JointWorker.Receive` | native/jaka_servo_worker/main.cpp:2699-2840 | stop, heartbeat, hold-current and target packets: contract checks and the new state; `WorkerRuns.PacketsMean` says which packets are accepted and what they change, `AlignmentIsChecked` when the first target is refused, `ReceiveIsSound`, `ReceiveWaits` and `NumberedPasses` what packets cannot change |
| `JointWorker.JointWorker.ReceiveTarget` | native/jaka_servo_worker/main.cpp:2783-2830 | flag, kind, limit and first-alignment checks, then acceptance; meaning as for `Receive` |
| `JointWorker.JointWorker.CheckTracking` | native/jaka_servo_worker/main.cpp:2965-3000 | lag, growing wrist lag and consecutive hard crossings, with both aborts; `WorkerSpec.ShortestIsShortest` says what a lag is, `ZeroMotionSession.NearIsTracked` when the checks never fail; `TrackingFaults.FaultsFromHandOff` says exactly which sequences of lags stop, and where |
| `JointWorker.JointWorker.Dispatch` | native/jaka_servo_worker/main.cpp:2912-3015 | one cycle: propose, gate, classify, hold, track, command and commit; a command may precede a failing commit; `WorkerRuns.DispatchIsSound`, `DispatchIsGated`, `DispatchWaits` and `DispatchStreaks` say what a cycle keeps |
| `WorkerRuns.DispatchIsSound` | native/jaka_servo_worker/main.cpp:2912-3015 | a completed cycle leaves the diagnostics' previous position equal to the resampler's emitted point |
| `WorkerRuns.DispatchEmits` | native/jaka_servo_worker/main.cpp:2912-3015 | a completed cycle is one emission of the resampler: plain at the end of the command, shaped at the time of evaluation |
| `WorkerRuns.PacketAccepts` | native/jaka_servo_worker/main.cpp:2699-2840 | a joint target is one acceptance of the resampler, a hold one of the last command, and a heartbeat leaves it alone |
| `WorkerRuns.DispatchIsGated` | native/jaka_servo_worker/main.cpp:2921-3009 | every command, also of a failing cycle, is inside the joint and velocity limits and, in recovery mode, inside all boundaries against the previous command, in abort mode inside the recoverable one |
| `WorkerRuns.DispatchWaits` | native/jaka_servo_worker/main.cpp:2912-3009 | before the first aligned target a cycle commands the hand-off vector and moves nothing |
| `WorkerRuns.DispatchStreaks` | native/jaka_servo_worker/main.cpp:2955-3015 | dispatched stalls never exceed the cycle limit nor reach the hard-stop duration |
| `WorkerRuns.StallMeans` | native/jaka_servo_worker/main.cpp:637-654 | a command is a stall exactly if it was shaped, the destination is more than 1e-6 away on some joint and no joint moves more than 1e-9 |
| `WorkerRuns.DispatchPeaks` | native/jaka_servo_worker/main.cpp:869-885 | over a session the reported extremes are the greatest step, velocity, acceleration and jerk of its commands |
| `WorkerRuns.PacketsMean` | native/jaka_servo_worker/main.cpp:2699-2840 | a stop always ends the session; which flags and frame each other kind needs, and what an accepted one changes; an accepted first target is within the tolerance of the hand-off vector |
| `WorkerRuns.AlignmentIsChecked` | native/jaka_servo_worker/main.cpp:2793-2801 | an otherwise admissible first target is refused as misaligned if and only if some joint is farther than the tolerance from the hand-off vector |
| `WorkerRuns.NumberedPasses` | native/jaka_servo_worker/main.cpp:2783-2830 | packets numbered increasingly from 1 never trip the resampler's sequence check, with holds and heartbeats interleaved |
| `WorkerSession.TakeIsSafe` | native/jaka_servo_worker/main.cpp:2695-3015 | one packet or cycle keeps all of the session's properties |
| `WorkerSession.RunSession` | native/jaka_servo_worker/main.cpp:2577-3015 | over any session: the trace is that of the specified steps, all commands are gated against their predecessors, pre-target commands equal the hand-off vector, stalls stay within policy, the first target that passes is aligned, a stop ends the session, numbered packets pass |
| `WorkerSession.SessionFromObeys` | native/jaka_servo_worker/main.cpp:2695-2830 | over sessions the first joint target that passes is within the tolerance of the measured hand-off vector, and a processed stop packet is the last input |
| `TrackingFaults.FaultsFromHandOff` | native/jaka_servo_worker/main.cpp:2965-3000 | over sequences of lags, without earlier halt: tracking is lost exactly at the first cycle that closes the tolerated number of consecutive cycles beyond the bound; the wrist check stops exactly where a joint of J4 to J6 lags half the bound after growing by more than 1e-6 in three consecutive cycles, and comes first |
| `TrackedSession.SessionFromTracks` | native/jaka_servo_worker/main.cpp:2912-3000 | a session stops for tracking exactly at the first such fault of the lags it checks, and for that fault |
| `RecoverySession.HardMustCover` | native/jaka_servo_worker/main.cpp:445-460 | option parsing admits a hard boundary 1e-12 below the recoverable one; an unshaped sample never exceeds the hard boundary if and only if it is not below |
| `RecoverySession.ShapedVerdict` | native/jaka_servo_worker/main.cpp:699-747 | with room for the step, the final check of a shaped point can only fail for velocity, and its acceleration stays within the recoverable boundary |
| `RecoverySession.SessionStaysInEnvelope` | native/jaka_servo_worker/main.cpp:2912-3015 | in recovery mode, with room for every time step and a covering hard boundary, no session is stopped for acceleration or jerk and every dispatched command measures within the recoverable acceleration plus 1e-12 |
| `RecoverySession.EnvelopeFromHandOff` | native/jaka_servo_worker/main.cpp:2520-3015 | the same from the hand-off on, for every measured start |
| `RecoverySession.DefaultsAreRoomy` | native/jaka_servo_worker/main.cpp:197-200 | with the default boundaries every sequence of command times leaves that room |
| `DrivenSession.SessionIsNotBlamed` | native/jaka_servo_worker/main.cpp:2695-3015 | a session whose servo times do not go back and whose packet numbers increase is never stopped for either |
| `DrivenSession.DrivenSessionIsNotBlamed` | native/jaka_servo_worker/main.cpp:2577-3015 | when the servo times are the evaluations of a scheduled run and the packets those of successive drains, no session is stopped for a servo time that goes back or a number that does not increase |
| `DrivenSession.SessionHalts` | native/jaka_servo_worker/main.cpp:2695-3015 | every error a session can end with; command times that increase exclude the one for going back |
| `DrivenSession.DrivenSessionHalts` | native/jaka_servo_worker/main.cpp:2577-3015 | in recovery mode, with times from the schedule, packets from the drain and each command issued within its own cycle, a session can only end for the operator, the data and measurements, the end of the servo clock, or a shaped point that is still too fast |
| `ZeroMotionSession.RestingCycle` | native/jaka_servo_worker/main.cpp:2912-3015 | a zero-motion cycle commands the hand-off vector or stops for the clock or the measured lag, never for a motion limit |
| `ZeroMotionSession.ZeroMotionMetrics.Observe` | native/jaka_servo_worker/main.cpp:2878-2883 | per-joint and overall displacement maxima agree; over a session these are the peaks, `ZeroMotionSession.PeaksNext` |
| `ZeroMotionSession.ZeroMotionMetrics.Commanded` | native/jaka_servo_worker/main.cpp:3077-3086 | lag maxima, first and last command, command and mismatch counts; over a session these are the peaks, `ZeroMotionSession.PeaksNext` |
| `ZeroMotionSession.WriteMetrics` | native/jaka_servo_worker/main.cpp:2354-2392 | which session value each reported entry is; `EvidenceFollows` says how the validator judges them |
| `ZeroMotionSession.EvidenceFollows` | tools/jaka_edg_e1_zero_motion.py:15-45 | the report of a resting worker is accepted exactly when it counts a command |
| `ZeroMotionReport.EvidenceMeans` | tools/jaka_edg_e1_zero_motion.py:15-45 | what accepted evidence says, whoever wrote it: commands were issued, all of them the hand-off vector, nothing moved, and the maxima agree |
| `ZeroMotionSession.RunZeroMotion` | native/jaka_servo_worker/main.cpp:2864-3086 | the session ends as the worker's specified steps say; it runs to its end if and only if the hand-off is admissible, servo times never go back, command times strictly increase and no cycle's lags are at fault (`TrackingFaults`), in particular whenever every lag stays below half the abort bound; it then reports the true peaks and the hand-off vector throughout, and the validator accepts it exactly when it issued a command |
| `ZeroMotionSession.Completion` | native/jaka_servo_worker/main.cpp:2912-3015 | from any resting worker the remaining cycles go through if and only if their clocks and their lags allow it |
| `ZeroMotionSession.NearIsTracked` | native/jaka_servo_worker/main.cpp:2965-3000 | lags below half the abort bound never fail a lag check, over any number of cycles |
| `ServoSchedule.ServoClock.RunCycle` | native/jaka_servo_worker/main.cpp:2577-2683 | one pass: grace, start faults, warnings, evaluation time and realignment; `ServoSchedule.StepCommands`, `StepSeparates` and `StepKeepsApart` say what a pass guarantees; `ScheduleFaults.RunIsDescribed` says what the passes of a run amount to |
| `ServoSchedule.ServoClock.CompleteCycle` | native/jaka_servo_worker/main.cpp:3127-3194 | completion faults and the next deadline; `ServoSchedule.Completes` says what it leaves for the next pass; `ScheduleFaults.RunningCompletes` and `RunIsDescribed` say when it faults |
| `ServoSchedule.StepSeparates` | native/jaka_servo_worker/main.cpp:2577-2683 | consecutive command cycles evaluate at least one period apart, start at least a period minus 2 ms apart, and do not overlap |
| `ServoSchedule.RunLoop` | native/jaka_servo_worker/main.cpp:2577-3194 | over any wake-ups and completions the cycles and the outcome are those of the specified passes, and there is no catch-up burst, across both kinds of realignment |
| `ServoSchedule.TraceKeepsApart` | native/jaka_servo_worker/main.cpp:2577-3194 | every specified run, however it ends, keeps its evaluations a period apart and its starts at least a period minus 2 ms apart |
| `ScheduleFaults.RunIsDescribed` | native/jaka_servo_worker/main.cpp:2577-3194 | every run cycle by cycle, without the loop variables: deadlines, starts, evaluation times, late, missed and graced flags, and exactly when it ends with which of the three faults |
| `ScheduleFaults.RunningCompletes` | native/jaka_servo_worker/main.cpp:3151-3169 | in a run that goes on every cycle ends within 1.5 periods of its deadline, and outside grace no two in a row miss their completion |
| `ScheduleFaults.OnTimeNeverFaults` | native/jaka_servo_worker/main.cpp:2577-3194 | wake-ups within 0.8 ms and completions within the period never fault and stay on the grid of the start |
| `ScheduleFaults.RealignmentsAreCounted` | native/jaka_servo_worker/main.cpp:3170-3194 | the realignment counter is the number of cycles that started or completed late |
| `ScheduledServo.EvaluationNeverGoesBack` | native/jaka_servo_worker/main.cpp:2917-2922 | whatever packets are interleaved, a scheduled evaluation is never rejected as going back in time |
| `ScheduledServo.ScheduleIsSpaced` | native/jaka_servo_worker/main.cpp:2917-2922 | the schedule provides the tick spacing that exact arrival needs |
| `Crc32.Compute` | native/jaka_servo_worker/main.cpp:126-134 | the loop computes the complemented register over the bytes |
| `Crc32.ChecksumIsStandard` | native/jaka_servo_worker/main.cpp:126-134 | it is the reflected CRC-32 of IEEE 802.3 clause 3.2.9, as polynomial division |
| `Crc32.RegisterIsLinear` | native/jaka_servo_worker/main.cpp:129-132 | registers of two messages combine by exclusive or |
| `Crc32.WindowChangesChecksum` | native/jaka_servo_worker/main.cpp:126-134 | two equal-length messages differing only within four consecutive bytes have different checksums |
| `Crc32.WindowBreaksSeal` | native/jaka_servo_worker/main.cpp:1848 | such damage also breaks a message carrying its own checksum, wherever the window lies |
| `Crc32.BurstChangesChecksum` | native/jaka_servo_worker/main.cpp:126-134 | two equal-length messages whose transmitted bits differ only within 32 consecutive ones, at any bit offset, have different checksums |
| `Crc32.BurstBreaksSeal` | native/jaka_servo_worker/main.cpp:1848 | such a burst also breaks a message carrying its own checksum, wherever it lies |
| `TargetSocket.Check` | native/jaka_servo_worker/main.cpp:1847-1856 | header, checksum, kind, timestamps and finite payload |
| `TargetSocket.DrainNewest` | native/jaka_servo_worker/main.cpp:1837-1864 | the drain returns the acceptable packet with the greatest new sequence and counts exactly the arrivals that were malformed or no new maximum; over runs: `SequencesIncrease` |
| `TargetSocket.DamagedIsRejected` | native/jaka_servo_worker/main.cpp:1847-1858 | a datagram damaged within four consecutive bytes is never delivered |
| `TargetSocket.BurstIsRejected` | native/jaka_servo_worker/main.cpp:1847-1858 | a datagram damaged by a burst of up to 32 transmitted bits at any offset is never delivered |
| `WireFormat.RoundTrip` | src/teleoperation/wire.py:84-90 | a packet encoded by the sender decodes to itself and carries the right checksum |
| `WireFormat.EncodedIsWellFormed` | native/jaka_servo_worker/main.cpp:1847-1856 | an encoded packet passes the worker's checks exactly for magic, version, kind, ordered times not in the future, and finite payload values |
| `WireFormat.EncodedIsDelivered` | native/jaka_servo_worker/main.cpp:1837-1864 | sent alone and newest, such a packet is delivered as it was, whatever bytes follow it in the datagram |
| `TargetSocket.SequencesIncrease` | native/jaka_servo_worker/main.cpp:2695-2700 | over any run of drains delivered sequences strictly increase |
| `ZeroMotionProbe.RunCycle` | native/jaka_zero_motion_probe/main.cpp:333-393 | one cycle of the probe, with its faults and the next release |
| `ZeroMotionProbe.RunCycles` | native/jaka_zero_motion_probe/main.cpp:317-398 | the exact starts and outcome of a run; starts from cycle 1 on lie 6 to 12 ms apart |
| `ProbeFaults.RunIsDescribed` | native/jaka_zero_motion_probe/main.cpp:317-398 | every run cycle by cycle, without the loop variables: releases, starts, and exactly which fault ends it |
| `ProbeFaults.OnTimeCompletes` | native/jaka_zero_motion_probe/main.cpp:317-398 | wake-ups within 0.8 ms and completions within the period never fault |
| `ZeroMotionProbe.FirstGapCanCollapse` | native/jaka_zero_motion_probe/main.cpp:342-362 | a completed run whose first two commands start 100 microseconds apart |
| `ZeroMotionProbe.FirstGapIsSafe` | native/jaka_zero_motion_probe/main.cpp:374-393 | cycle 1 starts at least 6 ms after cycle 0 if and only if cycle 0 woke within the warning bound or overran its release |
| `Predictions.SortIsStable` | src/embodiment_core/act_temporal_executor.py:192-194 | sorting by query tick and id permutes, sorts, and keeps the order of equal keys |
| `Predictions.SortedIsFixed` | src/embodiment_core/act_temporal_executor.py:194 | candidates already in query order are left as they are |
| `EnsembleWeights.WeightsSumToOne` | src/embodiment_core/act_temporal_executor.py:195-198 | the normalized weights are positive and sum to one |
| `EnsembleWeights.WeightsAreGeometric` | src/embodiment_core/act_temporal_executor.py:192-198 | each weight is q times the one before, so a positive coefficient favours the oldest query |
| `EnsembleWeights.AverageInHull` | src/embodiment_core/act_temporal_executor.py:211-215 | the weighted average lies between common bounds of its values |
| `EnsemblerIndex.SizeWithout` | src/embodiment_core/act_temporal_executor.py:161-176 | the total size is that of any bucket plus the rest |
| `EnsemblerIndex.TrimSize` | src/embodiment_core/act_temporal_executor.py:161-169 | trimming leaves exactly the capacity, or everything |
| `EnsemblerIndex.TrimRemovesOldest` | src/embodiment_core/act_temporal_executor.py:161-169 | trimming shortens buckets only from the front, and none with a tick later than a survivor |
| `TemporalEnsembler.AbsoluteTimeTemporalEnsembler.Create` | src/embodiment_core/act_temporal_executor.py:89-116 | construction succeeds exactly for valid dimensions, horizon, age and capacity |
| `TemporalEnsembler.AbsoluteTimeTemporalEnsembler.AddPrediction` | src/embodiment_core/act_temporal_executor.py:135-159 | all horizons in use are indexed by target tick, then the index is trimmed; a malformed chunk changes nothing; `EnsemblerSpec.AddAccounts` balances the points, `EnsemblerRuns.StepSimulates` relates them to the whole history |
| `TemporalEnsembler.AbsoluteTimeTemporalEnsembler.TrimCapacity` | src/embodiment_core/act_temporal_executor.py:161-169 | the trimmed index, its count and the drop counter; `EnsemblerIndex.TrimSize` and `TrimRemovesOldest` say what goes |
| `TemporalEnsembler.AbsoluteTimeTemporalEnsembler.ExpireBefore` | src/embodiment_core/act_temporal_executor.py:171-176 | exactly the buckets before the tick go, counted as expired; `EnsemblerSpec.SelectAccounts` balances the points |
| `TemporalEnsembler.AbsoluteTimeTemporalEnsembler.Select` | src/embodiment_core/act_temporal_executor.py:178-223 | the selection and the whole new state, fallback included; `EnsemblerRuns.StepSimulates`, `SelectDoesNotLeak`, `SelectInHull` and `EnsembleWeights.WeightsAreGeometric` say what is selected; `SelectionMeaning.SelectionAverages` says how its action follows from its contributors |
| `SelectionMeaning.SelectionAverages` | src/embodiment_core/act_temporal_executor.py:183-223 | read off the selection alone: each contributor's action is its prediction's row for the tick, in order of query tick and id, the weights are positive, sum to one and are each q times the one before, and each component of the action is the weighted sum of theirs |
| `SelectionRuns.RunMeans` | src/embodiment_core/act_temporal_executor.py:135-223 | over any operations every selection is such an average, every fallback repeats the last one with its age, and the counters are the numbers of operations and outcomes |
| `SelectionRuns.NaiveIsComplete` | src/embodiment_core/act_temporal_executor.py:79-87 | a naive selection misses none of the predictions that speak about the tick, and falls back exactly when there is none |
| `EnsemblerSpec.AddAccounts` | src/embodiment_core/act_temporal_executor.py:150-159 | every added point is buffered or dropped for capacity |
| `EnsemblerSpec.SelectAccounts` | src/embodiment_core/act_temporal_executor.py:171-189 | every point leaving the buffer expired, was too old, or contributes |
| `NaiveEnsembler.RelevantMembers` | src/embodiment_core/act_temporal_executor.py:79-87 | the naive filter yields only past predictions aimed at the tick, within horizon and age |
| `EnsemblerRuns.YoungIsRelevant` | src/embodiment_core/act_temporal_executor.py:183-189 | the young part of a full bucket is the naive filter of the history |
| `EnsemblerRuns.StepSimulates` | src/embodiment_core/act_temporal_executor.py:135-223 | one operation of the ensembler simulates one of the naive one that keeps the whole history |
| `EnsemblerRuns.SelectDoesNotLeak` | src/embodiment_core/act_temporal_executor.py:178-209 | contributors are relevant predictions of the history, also after trimming |
| `EnsemblerRuns.SelectInHull` | src/embodiment_core/act_temporal_executor.py:211-223 | a componentwise box around all chunks contains every selected or repeated action |
| `EnsemblerSession.RunEnsembler` | src/embodiment_core/act_temporal_executor.py:135-223 | state and selections are the fold of the specified operations; points added equal dropped, expired, age-expired, contributed and buffered; every selection averages its contributors' rows, fallbacks repeat, counters count; without drops all selections equal the naive ones and miss no relevant prediction; no leak; hull |
| `EnsemblerSession.EveryRunKeeps` | src/embodiment_core/act_temporal_executor.py:135-223 | the same properties as a statement about the fold of any operations |
| `CanonicalLoop.FitsIsPeak` | tools/act_physical_rollout.py:865-878 | over n cycles every addition fits if and only if m(2K-m+1)/2 is within the capacity, m = min(n, K) |
| `CanonicalLoop.PeakIsTriangular` | tools/act_physical_rollout.py:865-878 | that peak never exceeds K(K+1)/2 and equals it from K cycles on |
| `CanonicalLoop.CycleCounts` | tools/act_physical_rollout.py:1066-1084 | one query and one selection: what stays buffered, and when a trim happens; `FitsIsPeak` adds it up over a run |
| `CanonicalLoop.RunCanonical` | tools/act_physical_rollout.py:1066-1084 | state and selections are the fold of one addition and one selection per tick; a run of n ticks never trims if and only if m(2K-m+1)/2 points fit, m = min(n, K); then tick t averages min(t+1, K) queries, never falls back, and equals the naive selection |
| `CanonicalLoop.DefaultCapacityHolds` | tools/act_physical_rollout.py:877 | K(K+1)/2 fits the capacity 4096 exactly up to chunks of 90; by `PeakIsTriangular` those never trim in a run of any length |
| `PolicyGates.ProjectionIsNearest` | tools/act_physical_rollout.py:737-777 | the projection keeps the arm, moves each hand value to the nearest legal one, and refuses exactly those beyond the tolerance |
| `PolicyGates.EventsAreTheViolations` | tools/act_physical_rollout.py:778-793 | exactly the hand channels outside the interval are reported, with their distance |
| `PolicyGates.ProjectionIsIdempotent` | tools/act_physical_rollout.py:737-793 | a second projection changes and reports nothing |
| `PolicyGates.RefusalNamesFirst` | tools/act_physical_rollout.py:758-777 | a refusal names a channel if and only if that is the first hand value beyond the tolerance |
| `PolicyGates.AssertedExactly` | tools/act_physical_rollout.py:728-734 | the final check alone passes exactly inside the arm envelope and the unit interval, and the arm is reported first |
| `PolicyGates.PassesExactly` | tools/act_physical_rollout.py:728-793 | an action passes both gates if and only if its arm is in the envelope and its hand within the tolerated interval |
| `PolicyHull.RunPolicy` | tools/act_physical_rollout.py:1183-1197 | if all predictions lie in the tolerated box, the selections of any run of the ensembler, repeated ones included, pass both gates |
| `RegisterSchedule.PickIsFirst` | tools/act_live_shadow.py:421-427 | the earliest due source, ties by priority, or none exactly when nothing is due |
| `RegisterSchedule.NextDueIsNext` | tools/act_live_shadow.py:456-460 | the next due time is on the grid, strictly after the completion, and skips only grid points already past |
| `RegisterScheduler.RH56ReadOnlyStream.Iterate` | tools/act_live_shadow.py:420-460 | one iteration: source read, success counter, new due time; `BoundedWaiting`, `StaysOnGrid` and `ReadMovesOn` say what iterating guarantees |
| `RegisterScheduler.BoundedWaiting` | tools/act_live_shadow.py:418-460 | once a source is due, at most one read of each other source, and so at most one less than the number of sources, completes before it is read, and no iteration idles |
| `RegisterScheduler.StaysOnGrid` | tools/act_live_shadow.py:457-460 | in every run each due time stays on its source's original grid |
| `RegisterScheduler.ReadMovesOn` | tools/act_live_shadow.py:421-460 | in every run a source is read only when due, and is next due strictly after the completion |
| `RegisterScheduler.RunStream` | tools/act_live_shadow.py:418-460 | the loop reads the specified source in every iteration |
| `Polynomials.SlopeIsDerivative` | native/jaka_minimal_joint_probe/trajectory.hpp:19-22 | what a step adds to a polynomial is the step times its slope plus a second-order rest |
| `SepticTrajectory.SuccessiveDerivatives` | native/jaka_minimal_joint_probe/trajectory.hpp:19-22 | velocity, acceleration and jerk are the successive derivatives of the position |
| `SepticTrajectory.TrajectoryIsBounded` | native/jaka_minimal_joint_probe/trajectory.hpp:15-26 | at every time position, velocity (35/16), squared acceleration (7056/125) and jerk (52.5) are within their bounds |
| `SepticTrajectory.ReturnMirrorsOutward` | native/jaka_minimal_joint_probe/trajectory.hpp:15-26 | the return motion is the time reversal of the outward one |
| `SepticTrajectory.EndsAtRest` | native/jaka_minimal_joint_probe/trajectory.hpp:15-26 | both ends are reached exactly and at rest |
| `PlanCheck.SampledPeaks` | native/jaka_minimal_joint_probe/plan_main.cpp:78-79 | the sampled velocity and jerk maxima are the true peaks of the whole motion |
| `PlanCheck.CheckLimits` | native/jaka_minimal_joint_probe/plan_main.cpp:78-80 | the planner's verdict: the velocity and jerk peaks of the whole motion and every acceleration sample are within the limits; motions their limits allow are accepted |
| `PlanCheck.PeaksDecide` | native/jaka_minimal_joint_probe/plan_main.cpp:78-80 | velocity and jerk limits hold at every time if and only if the sampled peaks obey them |
| `PlanCheck.LimitsHold` | native/jaka_minimal_joint_probe/plan_main.cpp:78-80 | a motion whose peaks the limits allow obeys all three limits at every time, not only at the samples |
| `PlanCheck.AllowedIsAccepted` | native/jaka_minimal_joint_probe/plan_main.cpp:78-80 | such a motion passes the sampled check |
| `PlanCheck.PlannedMotionIsAllowed` | native/jaka_minimal_joint_probe/plan_main.cpp:16-24 | the planned quarter-degree motion is such a motion, and the check accepts it |
| `ProbePlan.MakePlan` | native/jaka_minimal_joint_probe/motion_main.cpp:71-77 | 551 or 1439 points, leg by leg; `WholePlanIsValid` and `ReturnLegIsReversed` say what the legs amount to; `ProfileMeans` and `LegsMean` say which motion the points are |
| `ProbePlan.ValidatePlan` | native/jaka_minimal_joint_probe/motion_main.cpp:87-91 | true exactly for plans that start and end at the start vector and move only the probed joint within the displacement |
| `ProbePlan.ValidPlanStaysTogether` | native/jaka_minimal_joint_probe/motion_main.cpp:87-91 | any two points of a valid plan differ on the probed joint only, and by no more than the displacement and the slack |
| `ProbePlan.PlanAndValidate` | native/jaka_minimal_joint_probe/motion_main.cpp:71-91 | for every start and both profiles the plan that is made is valid and the validation says so |
| `ProbePlan.WholePlanIsValid` | native/jaka_minimal_joint_probe/motion_main.cpp:71-91 | every plan with these points starts and ends at the start vector, moves only the probed joint, and stays within the displacement at every point |
| `ProbePlan.ProfileMeans` | native/jaka_minimal_joint_probe/motion_main.cpp:71-77 | the two profiles: 0.25 degrees in 2 s with 0.4 s of hold, or 5 degrees in 5 s with 1 s of hold and 0.5 s to settle |
| `ProbePlan.LegsMean` | native/jaka_minimal_joint_probe/motion_main.cpp:71-77 | the legs by their points: from the start to the displaced vector, held there, back, and at the start again |
| `ProbePlan.ReturnLegIsReversed` | native/jaka_minimal_joint_probe/motion_main.cpp:72-74 | the return leg commands the outward vectors in reverse order with negated velocities |
| `PendingQueue.EveryInterleavingIsSound` | tools/act_physical_rollout.py:582-599 | for every interleaving the retried put succeeds, reading order is publication order, every number is read, lost, queued or in hand once, losses are within the drops |
| `PendingQueue.BetweenQueries` | tools/act_physical_rollout.py:655-661 | between queries the drained numbers increase and reads, losses and queue add up to all published numbers |
| `PendingQueue.DropsAreRefusals` | tools/act_physical_rollout.py:582-599 | the drop counter is exactly the number of puts a full queue refused |
| `HorizonCounts.FutureIsEnumerated` | tools/analyze_act_horizon_coverage.py:111-112 | the first formula equals the enumeration of query rows if and only if the event is at most the length, or the horizon is 1 |
| `HorizonCounts.AfterFirstTwoIsEnumerated` | tools/analyze_act_horizon_coverage.py:113 | the second formula, if and only if the event is at most one past the length, or the horizon at most 2 |
| `HorizonCounts.PaddingIsClosed` | tools/analyze_act_horizon_coverage.py:114-117 | an episode's row-by-row padding totals m rows and mH - m(m+1)/2 slots |
| `HorizonCounts.Count` | tools/analyze_act_horizon_coverage.py:104-125 | all totals and fractions, and exactly when the function fails instead |

## Left out

- TransitionLimiter.ComputeLimitedPoint: for an acceleration boundary in (0, 1e-9] the program divides by zero or clamps to an inverted interval; the model returns an error of its own there.
- SelectionLoop.Tick: the loop is the library's, at one fixed destination and a constant step; a replaced destination whose first segment lasts longer than a period enters this loop with its first shaped selection or at the segment's end, and the worker's loop, which shapes under the same condition, has a varying command time instead.
- OutputMotion.OutputMotionDiagnostics.CheckCandidate: the per-joint rejection counters and the name of the first violating joint, which only feed the metrics file and the error text, are not modelled; scalar and per-joint velocity limits are one vector, as option parsing makes them agree.
- OutputMotion.OutputMotionDiagnostics.CheckFinal: the rejection counters and the last checked jerk, likewise.
- OutputMotion.OutputMotionDiagnostics.Commit: the acceleration crossing counters, likewise.
- JointWorker.JointWorker.Receive: takes the packet's decoded joint vector; the binary64 decoding of the payload, pause and stationary flags, status packets, and the branch that activates the controller after the first target (unreachable in the joint modes, which activate before the loop) are not part of this model.
- JointWorker.JointWorker.ReceiveTarget: the pause flags a target resets are not modelled.
- JointWorker.JointWorker.CheckTracking: the lag maxima of the metrics file (those of a zero-motion session are in ZeroMotionMetrics.Commanded) and the warning counters are not modelled.
- JointWorker.JointWorker.Dispatch: telemetry rows, controller health polling, command-stream timeouts and the joint shadow mode are not part of this model.
- ServoSchedule.ServoClock.RunCycle: the stop flag, the session duration and the artificial delays of the fake backend are not modelled; absolute sleeps are assumed never to return early.
- ZeroMotionSession.WriteMetrics: models the entries the validator reads, as values; the text formatting of the file is not modelled.
- TemporalEnsembler.AbsoluteTimeTemporalEnsembler.Select: the weight base exp(-coefficient) is an arbitrary positive real; resetting the ensembler, which discards entries uncounted, is left out.
- PlanCheck.SampledPeaks: the acceleration peak lies between samples, so its sampled maximum is described as that of the samples; the limit at all times comes from the trajectory's bound.
- RegisterScheduler.RH56ReadOnlyStream.Iterate: a read that raises, or an ERROR register that is not zero, ends the stream; the values read are not modelled.
- PendingQueue.EveryInterleavingIsSound: one producer thread is assumed, as in the program; the lock-protected cache of recent predictions is not part of this model.
- IEEE rounding, infinities and NaN: every input is a finite real; wrap-around of 64-bit counters is modelled only where the program tests for it.
- Vendor SDK calls, sockets, serial registers, cameras, model inference, files, metrics text, CPU placement and signal delivery.
- Cartesian and bounded modes of the worker, inverse kinematics, rotation code, minimal-motion mode, MuJoCo and Quest tools, dataset conversion and training.
