# A home-battery controller, modelled and proved

This project models the decision path of a controller that keeps a home battery
balancing the grid meter: samplers fill one-place slots, a coordinator takes one
round of samples per tick, the engine folds them into its view of the world, the
controller decides, directives go to the batteries, and the failsafe idles the
batteries once the meter or one of them has not answered for too long. Around it
are the simulated battery the controller is exercised with, the price poller's
anchor and retry schedule, the charge-ceiling write policy, and the offline
integration of a recorded stream into daily rows.

Objects the source updates in place are classes (`Slot`, `Controller`, `World`,
`Engine`, `Devices`, `CeilingSync`, `AnchorSchedule`, `VirtualBattery`,
`ChargerTick`, `Coordinator`). Each of their methods is proved equal to a function
of the old state, and the promises are proved about those functions over whole
runs. Watts are saturating 32-bit integers, wall-clock times saturating 64-bit
milliseconds; flows, energies, grid readings and money are reals.

## Where to look

| file | what it holds |
|---|---|
| `Units.dfy`, `World.dfy` | the arithmetic, the world a decision reads |
| `Controller.dfy`, `ControllerRuns.dfy`, `ControllerLaws.dfy`, `ClosedLoop.dfy`, `ResumeRuns.dfy` | the state machine and control law; what every run keeps; when each outcome comes about; convergence of the closed loop; two runs that cross the goal |
| `Allocate.dfy`, `Engine.dfy` | addressing and delivery; the fold, the latch, resume |
| `Scan.dfy`, `Run.dfy`, `RunLaws.dfy`, `Failsafe.dfy`, `Protocol.dfy` | slots and samplers; one tick and what it decides on; the failsafe over runs of ticks; every interleaving |
| `Ceiling.dfy`, `Schedule.dfy`, `ScheduleRuns.dfy`, `ScheduleLaws.dfy` | the two rate-limited retry machines |
| `Ramp.dfy`, `Simulation.dfy` | the simulated battery |
| `Calendar.dfy`, `Analyze.dfy`, `AnalyzeLaws.dfy` | local dates and daily energy rows |

`dafny verify dfyconfig.toml` checks everything.

## The main results

- **One round per decision** (`Protocol`). In every interleaving of samplers and
  coordinator a tick decides exactly when the meter and every registered battery
  are fresh, and then only on samples of its own round that began after all
  earlier ticks' writes ended. It stands down on age alone. No sample is served twice.
- **Failsafe** (`FailsafeRuns`). While the latch is set, the last command
  attempted on every battery ever commanded is idle.
- **Controller runs** (`ControllerRuns`). Charge is never directly followed by
  discharge; a direct switch back waits out the minimum mode duration; each stay
  is ramped exactly once; a spent cycle budget means standby; setpoints stay
  within the slew limit of what the battery reports.
- **Convergence** (`ClosedLoop`). With a steady load and a battery that does what
  it is told, a loop entered in any way settles within the deadband of its goal. Only
  the first setpoint can pass the goal, and `EntryCrosses` says exactly when: never
  from rest with nothing left in the estimate. From the second decision on the setpoint moves
  monotonically and never crosses.
- **Simulation** (`Ramps`, `Simulation`). Moved energy is the integral of each
  direction's flow and additive over spans; flow is slewed and capped; the store
  stays in range, does not depend on reads, and a closed cycle returns exactly the
  product of the two efficiencies.
- **Retry machines** (`ScheduleRuns`, `ScheduleLaws`, `Ceilings`). A fetch budget over
  every run and a write budget over every stretch of every run; and within them every
  due anchor is fetched, every failed fetch and every failed write tried again.
- **Engine** (`Engines`). Resume from a snapshot is exact; statuses alternate;
  every sized directive goes to the one battery that sized it.
- **Analysis** (`Calendar`, `AnalysisLaws`). The local date is recovered exactly;
  the daily rows lose nothing and count nothing twice.

## Where the code and a claim about it differ

- `src/controller.rs:130-140` says the commanded estimate is zero whenever the last
  decision was idle or standby. The code leaves it standing on the calibration and
  fault idles, and on the failsafe idle, which does not pass through the controller
  at all. `IdleClearsCommandedIfFit` and, for the whole engine,
  `IdleStepClearsCommanded` give the exact condition on the battery and the event;
  `FaultIdleKeepsCommanded` and `FailsafeKeepsCommanded` are runs that show it
  failing.
- What stays in the estimate is added to the next setpoint. With the goal at 95 W and
  300 W left standing, the first setpoint is 296 W after a fault idle
  (`FaultEntryCrosses`) and 395 W after a failsafe idle (`FailsafeResumeCrosses`),
  under a slew limit of 400 W. `SetpointTracksReport` bounds it by the report plus the
  slew limit, `EntryCrosses` gives the exact condition on the state before the
  decision, and `Converges` holds from there all the same.
- The fetch budget of one plus the policy's attempts holds exactly for policies of
  at most 254 attempts: the 8-bit counter saturates at 255 and such a policy then
  retries without end (`BudgetHoldsBelowSaturation`). The order of the configured
  anchors does not matter to it. The program's own two policies are constants of 3
  attempts (`src/prices/mod.rs:393`) and 2 (`src/prediction/mod.rs:280`), so no running
  poller comes near that edge of the type.
- `moved` is additive from exactly the instant the ramp started, or for a ramp that
  holds still (`AdditiveExactlyOnceStarted`): the start itself is not one of its
  cuts. The battery only integrates from the start on.
- The nearest-candidate search for the local date is exact up to 182 days from the
  UTC date, far beyond the one day a time zone can make, and no further
  (`ExactToHalfAYear`).

## Model

| member | source | states |
|---|---|---|
| Units.GainBounds | src/units.rs:482-494 | a gain up to 100 % never overshoots an error, and moves at least one watt once gain times error reaches 50 |
| Units.GainScales | src/units.rs:491-494 | for every gain and error the result is that percentage of the error to the nearest watt, ties away from zero, and the end of the range beyond it |
| Units.ArithmeticSaturates | src/units.rs:141-160 | sums, differences and negations of watts, caps and clamped setpoints are exact where representable and at the nearest bound where not |
| Units.TimeSaturates | src/units.rs:766-804 | spans between instants and configured durations likewise, in 64 bits |
| Units.ReadingsTruncate | src/units.rs:173-185 | a meter figure loses its fraction, its two directions are opposites, and it saturates beyond the range |
| Units.FlowHasOneDirection | src/units.rs:286-293 | a flow charges or discharges, never both, and the two give it back |
| Units.RampIsThreeQuarters | src/units.rs:386-390 | the ramp takes three quarters and drops the fraction |
| Worlds.AscendingIsSorted | src/world.rs:167-171 | devices are iterated once each in id order, the lowest first |
| Worlds.PrimaryIsTheFirst | src/world.rs:192-194 | the battery decisions are sized on is the lowest-id one |
| Worlds.NoBatteryNoPrimary | src/world.rs:192-194 | there is none exactly when the world holds no battery |
| Worlds.ChargerIsTheFirst | src/world.rs:178-188 | the charger read is the lowest-id one whose sample has a time |
| Worlds.NoTimedCharger | src/world.rs:178-188 | there is none exactly when no charger's sample has a time |
| Worlds.UnderlyingGridCountsEveryBattery | src/world.rs:197-206 | the meter is corrected by the sum of every battery's flow |
| Worlds.World.ObserveMeter | src/world.rs:143-152 | replaces the reading, production and sample time, and nothing about any device |
| Worlds.World.ObserveDevice | src/world.rs:154-164 | replaces one device's measurement and sample time and no other's |
| Controllers.Controller.FromSession | src/controller.rs:192-227 | a fresh session is idle with the idle stamp at start-up, and from 1970 on its decision and cooldown timers have elapsed |
| Controllers.BackdatedHasElapsed | src/controller.rs:192-227 | a timer set back by its own span has elapsed exactly when setting it back did not saturate |
| Controllers.Controller.Restore | src/controller.rs:247-249 | takes over a saved state whole |
| Controllers.Controller.TakeDecision | src/controller.rs:274-286 | no decision and no change inside the minimum interval or without a battery, otherwise one decision for the primary |
| Controllers.Controller.TakeDecisionAt | src/controller.rs:291-334 | calibration and fault bypass the rules and the guards; everything else goes through both |
| Controllers.Controller.DropToIdle | src/controller.rs:338-345 | enters idle and stamps it only when not idle already |
| Controllers.Controller.Guard | src/controller.rs:548-561 | records what the final decision commands, zero when it is not active |
| Controllers.Controller.GuardInner | src/controller.rs:563-670 | day rollover, cycle limit, cooldown, mode entry, ramp and standby timeout, field by field, equal the guards as one function |
| ControllerLaws.OutcomesFollowTable | src/controller.rs:291-670 | each mode and each reason comes about exactly when the figures in the world and the history say so: SOC limits with the balance day, thresholds with their hysteresis, car, solar, idle and cooldown guards, cycle limit and idle timeout |
| ControllerLaws.DecisionLeaves | src/controller.rs:338-345 | what each kind of decision leaves in the history: mode, last active mode, stamps, ramp and estimate |
| ControllerLaws.BandKeepsOrDrops | src/controller.rs:505-512 | an error counts whole from the deadband's width on and not at all inside it |
| ControllerRuns.ChargingNeverTargetsDischarge | src/controller.rs:379-425 | from a reachable charging state the rules cannot pick discharge |
| ControllerRuns.InvHolds | src/controller.rs:338-670 | every reachable state: charging carries no idle stamp, an active mode is the last active one, a pending ramp means an active mode, the day's transitions are within a positive limit |
| ControllerRuns.StepSinceCharge | src/controller.rs:396-420 | with charge the last active mode, discharge needs an idle stamp old enough |
| ControllerRuns.NoDischargeStraightAfterCharge | src/controller.rs:396-420 | between a charge and the next discharge lies a decision that idled the battery, whose stamp is still in force and at least the minimum idle time old |
| ControllerRuns.StayExists | src/controller.rs:623-637 | time in an active mode belongs to a stay whose entry stamped the mode change |
| ControllerRuns.DirectSwitchWaitsOutTheMode | src/controller.rs:602-621 | discharge turns directly into charge only after the minimum mode duration |
| ControllerRuns.RampStep | src/controller.rs:623-645 | one step of a stay: ramped exactly when pending, spent exactly by a positive setpoint |
| ControllerRuns.RampPendingUntilSpent | src/controller.rs:126-129 | within a stay the ramp is pending exactly until the first decision that asks for power, across suppressed and zero-cap ticks |
| ControllerRuns.RampExactlyOnce | src/controller.rs:639-645 | in each stay the first decision asking for power commands three quarters of it, every later one all of it |
| ControllerRuns.DecidesWhenDue | src/controller.rs:274-286 | in every run there is a decision exactly when there is a battery and the minimum interval since the last one has passed |
| ControllerRuns.CountersCount | src/controller.rs:570-637 | in every state of every run the daily counters are the mode entries and the suppressions among the guarded decisions since the day last changed |
| ControllerRuns.LimitActsOnTheCount | src/controller.rs:577-600 | a guarded decision meets the cycle limit exactly when it is on and that many modes were entered that day |
| ControllerRuns.SpentBudgetStandsBy | src/controller.rs:577-600 | once as many modes were entered in a day as the limit allows, no more are: every decision until the next day's is at zero watts, standby for a fit battery and idle for one that calibrates or has faulted |
| ControllerRuns.StandbyFollowsIdle | src/controller.rs:647-669 | in any run a standby other than the cycle limit's closes an idle at least as long as the idle timeout, in which nothing was commanded |
| ControllerRuns.StepLawTracksReport | src/controller.rs:521-540 | the law's target is within the slew limit of the report, and leaves the commanded value further than that only toward the report, saturation included |
| ControllerRuns.TargetPowerTracksReport | src/controller.rs:474-500 | the same after the cap |
| ControllerRuns.ActiveDecisionIsTarget | src/controller.rs:307-334 | an active decision commands the law's target for its own mode, ramped only when it says so |
| ControllerRuns.SetpointTracksReport | src/controller.rs:521-561 | from any state, so also after an outage, an active setpoint is at most the report plus the slew limit |
| ControllerRuns.IdleClearsCommandedIfFit | src/controller.rs:130-140 | after a decision that commands nothing the estimate is zero exactly when the battery neither calibrates nor has faulted, or it was zero already |
| ControllerRuns.FaultIdleKeepsCommanded | src/controller.rs:302-334 | a two-decision run whose fault idle leaves the estimate at 300 W |
| ClosedLoop.FirstDecision | src/controller.rs:291-334 | from any entry, with any estimate and report, the first setpoint in closed form, and a running loop after it |
| ClosedLoop.EntryCrosses | src/controller.rs:474-540 | from a battery at rest or opposed the first setpoint passes the goal exactly when the commanded shares of the estimate after one move, of the slew limit and of the cap all do |
| ClosedLoop.CleanEntryNeverCrosses | src/controller.rs:474-540 | with nothing left in the estimate an entry never crosses |
| ClosedLoop.LawApproaches | src/controller.rs:505-540 | on a report that agrees with the estimate one update moves toward the goal without crossing it, and holds still exactly inside the deadband |
| ClosedLoop.LoopStep | src/controller.rs:291-334 | one whole decision of a running loop keeps it running and makes progress, ramp included |
| ClosedLoop.StepTakesItsShare | src/controller.rs:521-527 | unramped, unslewed and outside the band, one decision takes the gain's percentage off the error, to the nearest watt |
| ClosedLoop.NeverCrosses | src/controller.rs:474-540 | in a run from any entry every decision after the first moves monotonically to load less margin and never past it; the first too when report and estimate agree |
| ClosedLoop.ErrorShrinks | src/controller.rs:474-540 | after the first decision each one outside the deadband takes at least a watt off the error, but for one the ramp may cost |
| ClosedLoop.Converges | src/controller.rs:474-540 | from any entry, crossing or not, after as many decisions as there were watts to go and two or three more the battery is inside the deadband and stays put |
| ClosedLoop.RunsFromTheFirst | src/controller.rs:291-334 | from any entry report and estimate agree after one decision and for good |
| ResumeRuns.FaultEntryCrosses | src/controller.rs:302-334 | a whole engine run whose entry after a fault idle commands 296 W for a goal of 95 W |
| ResumeRuns.FailsafeResumeCrosses | src/engine.rs:169-193 | a whole engine run whose resumption after the failsafe commands 395 W for a goal of 95 W |
| Allocation.CommandKeepsTheDecision | src/allocate.rs:48-58 | mode and watts of a decision can be read back from its command |
| Allocation.Devices.Apply | src/registry.rs:122-143 | one write is attempted, whatever its result |
| Allocation.Devices.Actuate | src/registry.rs:285-328 | every directive is attempted in order; each outcome is its own directive's, false when unregistered or failed |
| Allocation.EveryDirectiveIsAttempted | src/registry.rs:285-328 | a failure stops nothing: every registered device named ends on the last command the list gave it, and no other device changes |
| Engines.Engine.Restore | src/engine.rs:97-106 | world, controller and latch become the snapshot's |
| Engines.Engine.Handle | src/engine.rs:108-127 | one event's effect on the state and the step it emits |
| Engines.Engine.HandleMeter | src/engine.rs:129-162 | clears the latch, observes, decides and allocates against the world just observed |
| Engines.Engine.HandleTimeout | src/engine.rs:169-193 | sets the latch, idles every battery, and reports the first time only |
| Engines.Engine.Replay | src/replay.rs:85-93 | one frame per event, in order, equal to the fold |
| Engines.SplitFold | src/replay.rs:248-274 | splitting a stream anywhere gives the unbroken fold's steps and final state |
| Engines.Resume | src/engine.rs:85-106 | a same-tuned engine given the snapshot carries on exactly where the first stopped |
| Engines.IdleStepClearsCommanded | src/engine.rs:129-193 | after any event that idles the fleet the estimate is zero exactly when it was a meter reading with a fit primary, or the estimate was zero already |
| Engines.FailsafeKeepsCommanded | src/engine.rs:169-193 | a cold-started engine whose failsafe idle leaves the estimate at 300 W |
| Engines.StatusesAlternate | src/engine.rs:129-193 | from an unlatched start the statuses alternate strictly, timeout first, and tell the latch |
| Engines.IdleIsBroadcast | src/allocate.rs:48-58 | an idle or standby decision reaches every battery exactly once in id order |
| Engines.ActiveDecisionFitsPrimary | src/controller.rs:291-334 | an active decision is for a healthy primary inside its SOC limit and within its cap |
| Engines.StepIsWellAddressed | src/allocate.rs:48-86 | in any step a sized directive goes to the lowest-id battery alone, the one that sized it, and only as load, solar and car allow; anything else goes to all |
| Scan.Slot.Deliver | src/scan.rs:159-164 | a sample replaces what waited, stamps the slot, clears the failures and reports them |
| Scan.Slot.Fail | src/scan.rs:166-170 | counts a failure, saturating, and leaves the waiting sample and the stamp alone |
| Scan.Slot.Take | src/scan.rs:176-191 | down past the blind window without consuming; otherwise consumes, fresh only for the round asked |
| Scan.SampleLoop | src/scan.rs:265-295 | with any takes in between: one read per change of the watch cell, stamped with the value read first, delivered or counted as a failure, in a schedule of slot operations |
| Scan.EveryRequestIsRead | src/scan.rs:272-276 | at each look at the watch cell there is exactly one write if it changed, by however much, carrying the round it holds now, and none otherwise |
| Scan.AnswerWaitsForItsRound | src/scan.rs:272-284 | after an answered look the slot holds the answer under that round |
| Scan.ScheduleIsASlotRun | src/scan.rs:141-191 | any such schedule is a slot run, so the laws of slot runs hold of sampler and reader together |
| Scan.RoundsAreAskedOnce | src/scan.rs:265-295 | as requests count up, each read answers a later round than every one before; overtaken requests are skipped |
| Scan.LastAnswerWaits | src/scan.rs:159-191 | whatever takes and failures follow a delivery, its stamp stays, the failures since are counted, and its sample waits until the first take that does not find the slot down |
| Scan.TakeTells | src/scan.rs:172-191 | what a take returns in full: down with the failures since the last delivery, else fresh exactly for its own round and untaken, else quiet |
| Scan.TakeTellsOfAnEmptySlot | src/scan.rs:172-191 | the same of a source that never answered, counted from the opening |
| Scan.FreshWasDelivered | src/scan.rs:172-191 | a fresh reading was delivered for that round, within the blind window, and taken by nothing before |
| Scan.ServedOnce | src/scan.rs:172-191 | between two fresh readings a new sample was delivered, and it is the one served |
| Scan.DownSampleIsNeverServed | src/scan.rs:172-191 | a sample left waiting when its slot was down is never served later, given instants that do not run back |
| Run.VerdictMeaning | src/run.rs:933-966 | stand down exactly when some source is down, decide exactly when every one is fresh |
| Run.ChargerTick.Fold | src/run.rs:143-194 | the charger's sample enters the world, and its silence is announced once per outage |
| Run.FoldDevices | src/run.rs:202-269 | fresh readings enter the world and the ceilings in order; the fleet is silent, waiting or complete |
| RunLaws.FoldHoldsTheReadings | src/run.rs:202-269 | each device ends on its last fresh reading and its sample time, reported limit or not; a device without one and everything else stay |
| RunLaws.FoldNotesTheReports | src/run.rs:227-247 | each ceiling learns the last limit its device reported, and nothing else |
| RunLaws.ChargerEntersTheWorld | src/run.rs:143-194 | a fresh charger sample enters under its own id and time, any other changes nothing |
| Run.KeepUp | src/run.rs:273-322 | after the first tick, exactly the directives for devices not found down |
| Run.Coordinator.StandFleetDown | src/run.rs:273-329 | the failsafe step, with every directive attempted on the outage's first tick |
| Run.Coordinator.DecideTick | src/run.rs:333-418 | the meter step, with its directives attempted |
| Run.Coordinator.Tick | src/run.rs:920-985 | charger, fleet, verdict, command, ceilings, next round, in that order |
| RunLaws.TickDecidesOnItsSamples | src/run.rs:920-966 | a tick that decides does so at its own instant on a world made of its own samples of meter, batteries and charger |
| RunLaws.SizedOnItsOwnSample | src/run.rs:920-966 | the battery a setpoint is sized on is the lowest-id one as this tick's sample showed it |
| RunLaws.SkippedTickOnlyFolds | src/run.rs:957-966 | a tick short of a sample commands nothing and keeps history and latch |
| RunLaws.StandDownReaches | src/run.rs:273-322 | a stand-down sends idle and nothing else to every battery, and again to each not down while the outage lasts |
| FailsafeRuns.StandDownKeepsInv | src/run.rs:273-322 | standing down leaves every battery ever commanded on idle, and the first tick reaches all the known ones |
| FailsafeRuns.DecisionKeepsInv | src/run.rs:333-418 | a decision clears the latch and only commands known batteries |
| FailsafeRuns.LatchedMeansIdle | src/run.rs:273-322 | after any run of ticks, while the latch is set, the last command attempted on every battery ever commanded is idle |
| FailsafeRuns.IdleFromStandDownToDecision | src/run.rs:273-322 | in any run the latch is set exactly from a stand-down to the next decision, quiet rounds included, and throughout no battery is left on anything but idle |
| Protocol.StepKeepsInv | src/scan.rs:265-295 | every step of every sampler and of the coordinator keeps the protocol's invariant |
| Protocol.InvHolds | src/run.rs:893-985 | so it holds throughout every behaviour |
| Protocol.DecisionsUseOneRound | src/run.rs:893-985 | a tick decides exactly when every source is fresh, on samples of its own round begun after all earlier writes ended, within the blind window |
| Protocol.FirstRoundIsDecidedOn | src/run.rs:893-985 | from the start, sources that answer the first round are decided on by the tick that follows |
| Protocol.StampIsLastLanding | src/scan.rs:132-164 | a slot's stamp is the instant of its source's last delivery, or of the inbox's opening |
| Protocol.TakesWereMade | src/run.rs:926-957 | every take on a tick's record was made at its step from its own source's slot |
| Protocol.StandsDownOnAgeAlone | src/run.rs:933-966 | in every behaviour a tick stands down exactly when the meter's or some battery's last delivery, or the inbox's opening without one, was longer ago than the blind window at the step that took from its slot |
| Protocol.NoSampleServedTwice | src/scan.rs:172-191 | over every behaviour the samples served are all different |
| Ceilings.CeilingSync.Observe | src/ceiling.rs:87-91 | notes a report for a holder, ignores any other device |
| Ceilings.CeilingSync.Record | src/ceiling.rs:93-101 | notes the attempt with its time, landed or failed, and changes no other device |
| Ceilings.CeilingSync.Sync | src/ceiling.rs:106-123 | every due and driven device gets exactly one attempt, every other keeps its record |
| Ceilings.WritesAreSpaced | src/ceiling.rs:44-58 | from any tick on, each write beyond the first and beyond one per target change has moved the record a full pause past that tick |
| Ceilings.WriteBound | src/ceiling.rs:44-58 | between any two ticks of any run the attempts are at most one, plus the target changes in between, plus the minutes elapsed |
| Ceilings.SameTargetWritesArePaused | src/ceiling.rs:44-58 | consecutive writes of one target are at least 60 s apart |
| Ceilings.FirstTickWrites | src/ceiling.rs:44-58 | the first tick writes |
| Ceilings.WritesExactlyWhenNeeded | src/ceiling.rs:44-58 | a later tick writes exactly when the target changed, or a minute has passed since a write that failed or that the device's report contradicts |
| Ceilings.SettledStaysQuiet | src/ceiling.rs:44-58 | once a write landed and the report agrees, none follows while the target holds |
| Ceilings.FleetRunsEachDevice | src/ceiling.rs:66-123 | in any run over the whole fleet each driven device's record and writes are those of its own events alone, so the bounds above hold of every one |
| Ceilings.UndrivenIsLeftAlone | src/ceiling.rs:106-123 | a device the process does not drive is never written to |
| Ramps.Ramp.SortedCuts | src/simulation.rs:113-125 | the bends inside the span, in order |
| Ramps.Ramp.Integrate | src/simulation.rs:113-146 | the loop over the cuts computes the energy moved in each direction |
| Ramps.MovedIsAdditive | src/simulation.rs:88-146 | energy over adjoining spans adds up, wherever arrival and zero crossing fall |
| Ramps.MovedWithinItsFlow | src/simulation.rs:88-146 | over any span each direction's energy lies between its least and greatest flow times the width |
| Ramps.MovedIsTheIntegral | src/simulation.rs:88-146 | that and additivity single it out: any other figure with both properties agrees with it, so it is the integral of the direction's flow |
| Ramps.AdditiveExactlyOnceStarted | src/simulation.rs:88-146 | additivity holds exactly from the ramp's start, or for one that holds still |
| Simulation.VirtualBattery.AdvanceTo | src/simulation.rs:218-236 | integrates once up to the instant, clamps, and reports what was achieved |
| Simulation.VirtualBattery.ApplyAt | src/simulation.rs:284-296 | a command starts a ramp from the present flow |
| Simulation.VirtualBattery.ReadingAt | src/simulation.rs:300-323 | a reading advances the model and reports it |
| Simulation.VirtualBattery.FlowAt | src/simulation.rs:325-333 | so does reading the flow |
| Simulation.RunKeepsInv | src/simulation.rs:218-296 | after any run the store is between empty and full, and the ramp and the reported power within the rated caps |
| Simulation.ReportIsRated | src/simulation.rs:218-261 | the power a reading reports is within the caps, in a clamped span as well |
| Simulation.NewBatteryStaysSound | src/simulation.rs:180-296 | all of this from a newly built battery, however it is seeded, commanded and read |
| Simulation.ReportsItsCommand | src/simulation.rs:265-323 | given time, and room in the store, the battery reports exactly the capped watts it was told, signed by direction |
| Simulation.ReadingPassesOn | src/simulation.rs:300-323 | a reading carries the rated caps and the power in force, and is at its limit exactly at 100 % |
| Simulation.SetpointWithinReportIsTakenWhole | src/simulation.rs:265-296 | a setpoint within the reported caps is taken whole |
| Simulation.SocIsNearest | src/simulation.rs:300-323 | the reported state of charge is the stored share to the nearest percent |
| Simulation.SpanSettles | src/simulation.rs:218-261 | a span settles what the ramp moved, or ends at the bound it passed and reports the constant flow that would have got it there |
| Simulation.FlowRoundsToNearest | src/simulation.rs:54-56 | flows are reported to the nearest watt, halves away from zero |
| Simulation.FlowIsSlewed | src/simulation.rs:88-95 | over any run the flow changes at most 800 W per second, across commands too |
| Simulation.CommandIsContinuous | src/simulation.rs:284-296 | a command bends the flow and does not break it |
| Simulation.FlowOverWithinCaps | src/simulation.rs:265-278 | the flow never exceeds a rated cap in either direction |
| Simulation.SeedReadsBack | src/simulation.rs:300-323 | a battery seeded at a state of charge reports it |
| Simulation.AchievedFlowIsHonest | src/simulation.rs:253-261 | a clamped span reports, to the watt, the constant flow that would have settled what landed |
| Simulation.StoreFollowsLedger | src/simulation.rs:241-246 | without clamping, the store changes by energy in at one efficiency less energy out over the other |
| Simulation.RoundTrip | src/simulation.rs:241-246 | a closed cycle returns exactly the product of the two efficiencies |
| Simulation.StoreIgnoresReads | src/simulation.rs:218-236 | without clamping, the store does not depend on how often the model is read |
| Schedule.AnchorSchedule.MarkUsed | src/schedule.rs:258-267 | settles the anchor and every earlier one for the day and drops the retry |
| Schedule.AnchorSchedule.MarkFailed | src/schedule.rs:221-253 | schedules the next attempt within the day and the policy, else gives the anchor up |
| ScheduleRuns.FetchBudget | src/schedule.rs:183-267 | in any run each anchor is fetched at most one time more than the attempts |
| ScheduleRuns.FetchesNeverGoBack | src/schedule.rs:183-215 | after a fetch that day comes the same anchor or a later one, and only a later one once it settled |
| ScheduleRuns.RetriesStayInTheDay | src/schedule.rs:194-253 | a retry is fetched on its anchor's own day, not before it is due |
| ScheduleRuns.BudgetHoldsBelowSaturation | src/schedule.rs:221-253 | the budget holds for every run exactly when the policy allows at most 254 attempts |
| ScheduleLaws.NewAnchorIsFetched | src/schedule.rs:183-215 | with the anchors in order, a poll that finds one due later than all fetched that day fetches it or a later one |
| ScheduleLaws.PendingIsExplained | src/schedule.rs:221-253 | a pending retry comes from the last fetch, which failed, is due the policy's delay after it, and counts the anchor's fetches |
| ScheduleLaws.FailureIsRetried | src/schedule.rs:221-253 | a transient failure leaves a retry exactly while the delay stays in the day and the attempts allow it |
| ScheduleLaws.FailureTellsWhatItLeft | src/schedule.rs:221-253 | the answer says whether a retry is pending, and a failure marked on another day only drops the pending one |
| ScheduleLaws.RetryComesWhenDue | src/schedule.rs:194-215 | and that retry is fetched at the first poll at or after its time, and not before |
| ScheduleLaws.SettlingIsExact | src/schedule.rs:258-267 | a fetch that ends its anchor settles that one and all earlier ones and no other |
| Calendar.YearFrom | src/analyze.rs:436-438 | the UTC year a day falls in |
| Calendar.DateRoundTrip | src/analyze.rs:436-443 | every day number is an existing date's, and that date gives it back |
| Calendar.DayRoundTrip | src/analyze.rs:436-443 | every existing date is found again from its day number |
| Calendar.Landmarks | src/analyze.rs:436-438 | the Unix epoch and the last evening of 2026 fall on their dates |
| Calendar.LocalDateIsNearest | src/analyze.rs:436-443 | the date returned is no further off than any candidate, the earliest of equals |
| Calendar.LocalDateIsExact | src/analyze.rs:436-443 | any true local date within 182 days of the UTC date is returned, leap days included |
| Calendar.HalfAYearIsTheLimit | src/analyze.rs:436-443 | at 183 days the search can return another year's date |
| Calendar.ExactToHalfAYear | src/analyze.rs:436-443 | every local date within so many days of the UTC date is recovered exactly when those are at most 182 |
| Calendar.UndatedExactly | src/analyze.rs:436-443 | a clock has no date exactly when no candidate year has its ordinal |
| Calendar.ClockDateIsExact | src/analyze.rs:428-443 | for every instant and every zone at most a day from UTC the local date is recovered |
| Analysis.Accumulate | src/analyze.rs:357-426 | what moved within 0 to 30 s goes whole to the first reading's day; a longer or backward gap changes nothing |
| Analysis.Daily | src/analyze.rs:298-351 | one row per day read, oldest first, each the sum of the intervals that start on it, with the SOC range seen |
| AnalysisLaws.DaysAreThoseRead | src/analyze.rs:320-343 | the rows' days are exactly those of dated meter readings |
| AnalysisLaws.SamplesAreTheReadings | src/analyze.rs:298-343 | each dated reading is one sample, in order, with its own figures and the battery state last reported before it |
| AnalysisLaws.CountedOnce | src/analyze.rs:353-366 | one reading more adds its interval to the days' sum exactly once |
| AnalysisLaws.RowsConserve | src/analyze.rs:298-426 | summed over the rows, time, energy and cost equal their sums over consecutive readings |
| AnalysisLaws.TrapezoidRule | src/units.rs:646-651 | steady power gives power times time, the ends can be swapped, and powers add |
| AnalysisLaws.RowShowsTrapezoids | src/analyze.rs:357-426 | import, export, unstored, charged, discharged, above cap and each phase of a row are the trapezoids of that power over its counted intervals |
| AnalysisLaws.RowShowsPricedTime | src/analyze.rs:382-398 | priced time is that of the intervals with a price at their start, unpriced that of the others |
| AnalysisLaws.RowIsCosted | src/analyze.rs:382-398 | at a steady price the four costs are the energies at the contracts' rates, tax included on the purchase alone |
| AnalysisLaws.AboveCapIsServed | src/analyze.rs:93-114 | demand above the cap is within import plus discharge; unstored export is within export |
| AnalysisLaws.RowsAreConsistent | src/analyze.rs:357-411 | per row: unstored export at most export, demand above the cap at most import plus discharge, priced and unpriced time make up the covered time, and the fixed contract bills exactly the priced energy |

## Left out

- Floating point: grid readings, flows, energies, prices and costs are reals, so no claim is bit-exact. Simulated instants are real seconds, without rounding to nanoseconds.
- Scan.Slot.Deliver: rounds are natural numbers; the counter's wrap at 2^64 is not modelled.
- Controllers.Controller.GuardInner: the daily counters are unbounded where the source's 32-bit ones would overflow; the wording of the reasons is reduced to the data behind it.
- Controllers.Controller.FromSession: its timers are promised to have elapsed from 1970 on; for a clock so early that setting one back saturates, `BackdatedHasElapsed` gives the exact condition.
- Units.WrappingAbs: the absolute value of the least 32-bit integer wraps as in a release build; a debug build stops there.
- ClosedLoop.Converges: stated for one fit battery with no charger or solar beside it, a goal between nothing and its cap, gain 1 to 100 %, slew and deadband at least one watt and gain times deadband at least 50; the configuration also allows gains to 200 %, which can overshoot, and zero gain or slew, which do not move.
- FailsafeRuns.LatchedMeansIdle: the charger's id is not a battery's, which `src/config.rs:929-935` enforces.
- Protocol.DecisionsUseOneRound: slot operations and the watch cell are atomic steps; the task scheduler, channels and task failures are not part of this model. A decision's writes all end before the next request, as the loop awaits them.
- Device ids: ranks, since only their order and identity matter.
- Adapter writes: attempts with an arbitrary result; HTTP, MQTT and Modbus are not part of this model.
- Schedule.AnchorSchedule.MarkFailed: durations too long for the date library, which stop the program, and resuming from the journal are not modelled.
- Calendar.ClockDateIsExact: dates beyond the calendar library's range of some 262 000 years are not modelled.
- Analysis.Daily: the price series is a function from instants to the price in force; rounding costs to cents and rendering the tables are left out.
- Time zones and daylight saving: local dates, ordinals and weekdays are inputs.
- Replaying a fixture: format checks, configuration overrides and the comparison with recorded lines (`src/replay.rs:100-300`) are text handling.
- Configuration parsing, the journal, the dashboard, the announcer, back-pressure, the round-trip-efficiency estimator, the request timeout and shutdown draining: easy members or I/O.
- The dashboard's home usage and the device floor in the SOC limits shown to the user: display only.
