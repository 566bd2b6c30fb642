# Battery lab: verified models

Dafny models of the battery-cycling lab's services and the properties they are built on.

* **Orchestrator** (`Orchestrator`, `OrchestratorProofs`, `OrchestratorHoles`, `OrchestratorHalts`,
  `Executor`): one experiment, its rows in `experiment_steps`, its status, the copy in memory and the events sent.
  Every operation is the list of its effects in the order of the awaits; a process may die after any
  prefix, and any database statement may raise.  `Executor` holds the code's own form and logs
  exactly those lists.
* **Parquet export** (`HivePath`, `Export`, `ExportProofs`, `ExportBoundary`, `Exporter`): telemetry
  moving from hot rows to one object per hour with a ledger, any number of passes interleaved step
  by step.
* **Cell and chamber** (`Chemistry`, `Aging`, `CellModel`, `CellProofs`, `CellBand`, `CellLaws`,
  `CellCycles`, `EcmCell`, `Chamber`): the physics over exact reals.  `sqrt` and `exp` are arguments with their laws:
  sqrt(x) >= 0 and sqrt(x)^2 = x for x >= 0; exp positive and increasing.
* **Cycler chassis** (`Registers`, `ChassisModel`, `ChassisProofs`, `ChassisBoot`, `ChassisBand`,
  `ChassisCurrent`, `ChassisChemistry`, `SendCommand`, `Glitch`, `Mixture`, `Snapshot`, `DeadMan`,
  `DeadManBounds`, `Cycler`, `CyclerClient`): channels, register store and dead-man timers as one state machine of atomic
  steps.  Rounding to binary32 (section 3.4 of IEEE 754-2008) is an argument: a 32-bit pattern for
  every real, stable once rounded, exact at zero.  Register reads and writes follow sections 6.3,
  6.6 and 6.12 of the Modbus Application Protocol Specification V1.1b3.
* **Keepalive, ingester, alerts** (`Keepalive`, `KeepaliveRuns`, `KeepaliveBounds`, `Ingester`,
  `IngesterRows`, `Alerts`): the sweeps that feed the dead-man timers, the batch buffer with its
  context join, and the alert sink with its retry queue.

`Prelude` and `Models` hold the shared vocabulary.  Time, outcomes of I/O and ambient temperatures
are inputs.  Where the code updates objects in place, so do the classes here, and each contract ties
the new state to the step function about which the run-level lemmas are proved.
`dafny verify dfyconfig.toml` checks everything.

Where the repository's documentation and its code differ, the code is modelled:

* `services/orchestrator/src/orchestrator/executor.py:7` speaks of a single transaction; the code
  closes the old row and inserts the new one in two statements, with the position advanced in memory
  between them.  `RunKeepsExactly` says which runs that harms and `LostInsertLeavesHole` how.
* `services/orchestrator/src/orchestrator/main.py:374` says that a recovery decides by reading the
  channel; past the last step it does not read it.  A safety halt in the very last step whose final
  UPDATE is lost is therefore recorded as a completion: `HaltSurvivesExactly`.
* `services/parquet_export/src/parquet_export/main.py:161` calls a `--now` pass beside the periodic
  one safe.  It is, unless a failing write publishes a partial object: `OverlapIsReachable` is a run
  that loses a row.
* `services/orchestrator/src/orchestrator/cycler_client.py:107` says that writing the setpoint and
  limits before the mode avoids running with stale ones.  On a channel that is driven already it
  does not: the new setpoint runs in the old mode under the old limits until the other writes arrive
  (`NewSetpointUnderOldModeAndLimits`).  `NeverMixedExactly` says exactly when old and new parts are
  never in force together; `SilentExactlyWhenCalm` is about the control law staying at 0 A meanwhile.
* `services/watchdog/src/watchdog/alerts.py:6` queues what the database refuses; other exceptions of
  an insert pass through `emit`, and `LostOnlyByRaising` says exactly when an alert is lost.

## Model

| member | source | states |
|---|---|---|
| OrchestratorProofs.StepKeepsExactly | services/orchestrator/src/orchestrator/executor.py:116-213 | of all acts (kick-off, tick, reap, resume) and all fates (complete, die after any effect, a statement raises), exactly one breaks the invariant: a tick that survives the loss of the INSERT of its next row |
| OrchestratorProofs.RunKeepsExactly | services/orchestrator/src/orchestrator/executor.py:116-213 | over any run with crashes between any two effects and any number of restarts, the rows are an initial segment of the (cycle, step) order, closed but for possibly the last, and the live copy stands on the open row, at every point, if and only if no tick survives a lost INSERT |
| OrchestratorHoles.LostInsertLeavesHole | services/orchestrator/src/orchestrator/executor.py:194-196 | a survived lost INSERT: dying at once repairs it, while the next completed step leaves a hole at the lost position that is still there, with the invariant broken, after any further operations, crashes and recoveries |
| OrchestratorHoles.HoleIsForGood | services/orchestrator/src/orchestrator/main.py:86-111 | a position without a row that the experiment has passed, or was completed without, never gets one again, over any run |
| OrchestratorHoles.LostInsertIsReachable | services/orchestrator/src/orchestrator/executor.py:166-196 | from a fresh experiment of any schedule with a second position, a kick-off and one step end reach that loss |
| OrchestratorProofs.ResumeNeitherSkipsNorRepeats | services/orchestrator/src/orchestrator/main.py:86-111 | recovery from the largest row alone goes back to the one open row or on to the first missing one: every earlier position has a closed row, and no closed row is re-opened |
| OrchestratorProofs.LastRowEndsPrefix | services/orchestrator/src/orchestrator/main.py:92-100 | the row that sorts last is the predecessor of the first missing position |
| OrchestratorProofs.TickKeeps | services/orchestrator/src/orchestrator/executor.py:116-213 | every prefix of a tick's effects leaves the database consistent, and the whole tick keeps the invariant |
| OrchestratorProofs.KickoffKeeps | services/orchestrator/src/orchestrator/executor.py:216-271 | the same for a kick-off with each of its outcomes |
| OrchestratorProofs.ResumeKeeps | services/orchestrator/src/orchestrator/main.py:369-465 | the same for a recovery with each of its outcomes |
| OrchestratorProofs.FreshIsConsistent | services/orchestrator/src/orchestrator/main.py:331-343 | a newly inserted experiment satisfies the invariant |
| OrchestratorProofs.HistoryGrows | services/orchestrator/src/orchestrator/executor.py:58-96 | whatever fails, no row disappears, no closed row is re-opened and no accepted event is withdrawn |
| OrchestratorProofs.NextIndex | services/orchestrator/src/orchestrator/executor.py:166-191 | every step change raises cycle * steps + step by one, and the schedule is over exactly at repeat * steps |
| OrchestratorProofs.CompletedMeansAllRows | services/orchestrator/src/orchestrator/main.py:129-134 | whichever of the two paths wrote 'completed', there are exactly repeat * steps rows, one per position, all closed |
| OrchestratorProofs.CleanRun | services/orchestrator/src/orchestrator/executor.py:166-191 | without crash or halt an experiment is completed exactly when repeat * steps step ends have been seen, and the events are then 0 .. repeat - 1, once each, in order |
| OrchestratorHalts.HaltFailsForGood | services/orchestrator/src/orchestrator/executor.py:124-135 | a completed tick that finds its channel latched closes the open row, writes no other row and no event and fails the experiment, and over every later run of ticks, kick-offs, recoveries and crashes status, rows and events stay exactly so |
| OrchestratorHalts.HaltSurvivesExactly | services/orchestrator/src/orchestrator/main.py:127-134 | a halt whose tick dies or fails anywhere, followed by a recovery that finds the channel still latched, ends as failed - except exactly when its last statement is lost in the very last step: recovery then never reads the channel and records a completion |
| OrchestratorHalts.KickoffEnds | services/orchestrator/src/orchestrator/executor.py:216-247 | a refused or unreachable kick-off is failed for good, with one open row or none; an accepted one is running with its first row open under a live copy; an unanswered one is left running without a copy |
| OrchestratorHalts.ResumeEndsAs | services/orchestrator/src/orchestrator/main.py:369-465 | a recovery: unreachable or refused is failed for good with rows and events as they were, past the end is completed, accepted goes on at an open row, unanswered changes nothing |
| OrchestratorHalts.StepEndIs | services/orchestrator/src/orchestrator/executor.py:138-195 | a completed tick that sees its step end closes that row and no other, sends the cycle's event exactly at the cycle's last step, and opens the next position's row or completes the experiment |
| Executor.Orchestration.InsertStepRow | services/orchestrator/src/orchestrator/executor.py:58-75 | INSERT ... ON CONFLICT DO NOTHING of the current position, logged as one effect |
| Executor.Orchestration.MarkStepCompleted | services/orchestrator/src/orchestrator/executor.py:78-96 | closes the row of the current position if it exists, logged as one effect |
| Executor.Orchestration.MarkExperimentStatus | services/orchestrator/src/orchestrator/executor.py:99-113 | writes the status, logged as one effect |
| Executor.Orchestration.StepOneTick | services/orchestrator/src/orchestrator/executor.py:116-163 | the statements, event and in-memory changes of a tick come in exactly the specified order, for each observation of the channel |
| Executor.Orchestration.Advance | services/orchestrator/src/orchestrator/executor.py:166-213 | the cycle event, then the new position in memory, then its row or the final status |
| Executor.Orchestration.Kickoff | services/orchestrator/src/orchestrator/executor.py:216-271 | status, first row, then the outcome of the chemistry read-back and the first command |
| Executor.Orchestration.LoadResumeState | services/orchestrator/src/orchestrator/main.py:86-111 | computes the specified resume position from the rows |
| Executor.Orchestration.ResumeInflight | services/orchestrator/src/orchestrator/main.py:369-465 | writes 'completed' past the end, 'failed' on a latched channel, otherwise re-inserts the row and registers the experiment, in that order |
| Executor.Orchestration.Reap | services/orchestrator/src/orchestrator/main.py:220-222 | finished experiments leave the in-memory dict |
| ExportProofs.StepKeepsExactly | services/parquet_export/src/parquet_export/export.py:44-203 | the exact boundary of the data mover: an atomic step of any number of interleaved passes keeps the invariant if and only if it is not an arrival in an hour already recorded, scanned past or being read, nor a partial object over an hour recorded or written by another pass |
| ExportProofs.RunConserves | services/parquet_export/src/parquet_export/main.py:39-81 | if rows arrive only in hours at or above every cutoff used, no row is ever lost: for one exporter whatever fails, partial objects included, and for any number of overlapping passes if no failing write publishes a partial object |
| Export.InvConserves | services/parquet_export/src/parquet_export/main.py:39-81 | the invariant means that every ingested row is hot, or in the object at its hour's path |
| ExportProofs.OverlappingPartialLosesRows | services/parquet_export/src/parquet_export/export.py:167-172 | two overlapping passes and one partial object: rows are gone once the other pass records the hour and drops |
| ExportProofs.OverlapIsReachable | services/parquet_export/src/parquet_export/main.py:157-178 | that situation is reached from an empty store with arrivals that respect every cutoff |
| ExportProofs.LateRowIsLost | services/parquet_export/src/parquet_export/export.py:44-63 | a row for a recorded hour is found by no later scan, whatever the cutoff, and lost at the next drop above it |
| ExportProofs.PartialKeepsExactly | services/parquet_export/src/parquet_export/export.py:167-172 | a partial object left by the finally block keeps the invariant exactly when no other pass has written the hour and nobody has recorded it |
| ExportBoundary.StepHarmlessExactly | services/parquet_export/src/parquet_export/export.py:44-203 | the same boundary in terms of loss: a step is safe if and only if no continuation with arrivals that respect every cutoff, by any of the passes and without further partial objects, ever loses a row |
| ExportBoundary.RunStaysWithin | services/parquet_export/src/parquet_export/main.py:39-81 | along every run with arrivals that respect the cutoffs - one exporter whatever fails, or any number without partial objects - the invariant, the bound by the cutoffs used so far and objects of ingested rows only all hold, so the boundary applies at every point |
| ExportBoundary.HarmlessExactlyOnRuns | services/parquet_export/src/parquet_export/main.py:39-81 | hence after every such run from an empty store the next step is safe if and only if no later course of events loses a row |
| ExportBoundary.Finish | services/parquet_export/src/parquet_export/main.py:49-74 | from any state a pass left alone comes to its end, drops everything below its cutoff and writes no object but those of the hours it had still to write |
| ExportBoundary.LoseRecorded | services/parquet_export/src/parquet_export/export.py:192-203 | a row of a recorded hour that its object lacks is lost once a later hour is exported |
| ExportProofs.OverwriteTouchesOneHour | services/parquet_export/src/parquet_export/export.py:123-124 | writing the object of one hour leaves what is archived for every other hour as it was |
| ExportProofs.DropKeeps | services/parquet_export/src/parquet_export/export.py:192-203 | dropping chunks after a full pass never removes a row that is not archived |
| HivePath.HourPathInjective | services/parquet_export/src/parquet_export/s3.py:38-47 | two hours share an object path if and only if they are the same hour |
| HivePath.HourReadsBack | services/parquet_export/src/parquet_export/s3.py:38-47 | splitting the path at its slashes and reading each directory key=number gives back the year, month, day and hour under those names, the last three in two digits |
| HivePath.BeforeIsEarlier | services/parquet_export/src/parquet_export/export.py:44-63 | the order by which hours are selected and dropped is the order of time on the calendar |
| HivePath.CutoffSplitsHours | services/parquet_export/src/parquet_export/export.py:206-208 | a row is older than a floored cutoff exactly when its whole hour is, and the floor is the last full hour not after the time |
| Exporter.Exporter.FindPendingHours | services/parquet_export/src/parquet_export/export.py:44-63 | every hot row below the cutoff is in a recorded hour or a pending one; a pending hour has such rows and is not recorded; the hours ascend strictly |
| Exporter.AscendingIsUnique | services/parquet_export/src/parquet_export/export.py:50-61 | there is only one such list, so the scan is determined |
| Exporter.Exporter.WriteBatches | services/parquet_export/src/parquet_export/export.py:124-166 | streams every row in batches, or stops at the failing fetch or write with exactly the rows before it written; the writer is open from before the first write, so a failing first write leaves it open with nothing in it |
| Exporter.Exporter.ExportHour | services/parquet_export/src/parquet_export/export.py:102-189 | on success the ledger gains the hour with the number of its rows and the pass moves on; on failure the ledger is unchanged and the pass is over |
| Exporter.Exporter.RecordExport | services/parquet_export/src/parquet_export/export.py:79-99 | the ledger row is inserted once and never overwritten |
| Exporter.Exporter.GiveUp | services/parquet_export/src/parquet_export/export.py:167-172 | a failure publishes exactly what had been written if the writer was open, be it nothing, and no object otherwise |
| Exporter.Exporter.DropExportedChunks | services/parquet_export/src/parquet_export/export.py:192-203 | removes exactly the rows of hours below the cutoff |
| Exporter.Exporter.ExportPending | services/parquet_export/src/parquet_export/main.py:49-74 | records an initial segment of the pending hours, up to the first that fails, and returns their number and total rows |
| Exporter.Exporter.RunOnce | services/parquet_export/src/parquet_export/main.py:39-81 | a whole pass: chunks are dropped exactly if there was something pending and all of it was exported; the state stays one that a run of atomic steps reaches |
| CellLaws.TickDraws | libs/batterylab/src/batterylab/ecm.py:70-72 | coulomb counting with its sign: a tick of a working cell draws current times time at the capacity both losses have left, unless it meets an end of the range; discharging lowers the charge, charging raises it, a dead cell's stands still |
| CellLaws.ChargeIsConserved | libs/batterylab/src/batterylab/ecm.py:70-72 | over every history within the range, aging and faults included, the charge the cell gave is the sum of current times time, with its sign |
| CellLaws.MetersAreExact | libs/batterylab/src/batterylab/ecm.py:95-105 | over every history without runaway, age and pending second add up to the tick lengths, less than a second is ever pending, and throughput has grown by all the charge moved |
| CellLaws.StepAges | libs/batterylab/src/batterylab/ecm.py:95-105 | a tick loses lithium for the charge it moves and, when a second has accumulated, for that time at its new charge and temperature |
| CellLaws.NodesRelax | libs/batterylab/src/batterylab/ecm.py:60-93 | the diffusion voltage covers dt/30 s of its way to I * 15 mOhm and the temperature dt/200 s of its way to ambient plus 2.5 K/W of Joule heat in the fault's resistance; the cell latches exactly above its runaway temperature |
| CellLaws.TerminalsSag | libs/batterylab/src/batterylab/ecm.py:120-138 | discharging pulls the terminals below the idle voltage by I * R0 and charging lifts them above it; a latched cell shows the idle voltage and no current |
| CellLaws.IdleVoltage | libs/batterylab/src/batterylab/chemistry.py:55-60 | the idle voltage falls by the diffusion voltage, rises 0.3 mV/K, and rises strictly with charge |
| CellLaws.SohIs | libs/batterylab/src/batterylab/degradation.py:69-78 | state of health times nameplate is what both losses leave, exactly, or 0 |
| CellCycles.CyclesAreExcursions | libs/batterylab/src/batterylab/ecm.py:107-118 | over every history without runaway the cycle count grows by exactly the number of excursions of the state of charge - below 95 %, down by more than half of the range, back above 95 % - defined on the course of the charge alone |
| CellCycles.DetectRemembers | libs/batterylab/src/batterylab/ecm.py:107-118 | fed one value at a time, the detector's memory agrees with the course so far, and a counted cycle is booked at the depth of its excursion's deepest fall |
| CellProofs.CyclesArePaidFor | libs/batterylab/src/batterylab/ecm.py:70-115 | for any history of currents, ambients and injected faults, cycle_count * q_effective <= cumulative throughput, with the travel of the current excursion on top, through clamping, aging and the early return on runaway |
| CellProofs.StepPays | libs/batterylab/src/batterylab/ecm.py:55-118 | one step keeps that account |
| CellProofs.NewCellIsPaid | libs/batterylab/src/batterylab/ecm.py:18-34 | a new cell starts with it |
| CellProofs.DetectPays | libs/batterylab/src/batterylab/ecm.py:105-115 | cycle detection never counts more travel than there was |
| CellBand.MildHistory | libs/batterylab/src/batterylab/ecm.py:55-138 | over unbounded histories with |I| <= 10 A, 0 < dt <= 30 s and ambient in [-20, 60], all four chemistries: soc in [0, 1], T in [-20, 76], |v_rc| <= 0.15, no latch, terminal voltage in [2.2, 5.2] V, loss within its budget and the account of cycles |
| CellBand.StepStaysInBand | libs/batterylab/src/batterylab/ecm.py:55-98 | one step stays in the band and thermal runaway does not latch |
| CellBand.VoltageInBand | libs/batterylab/src/batterylab/ecm.py:120-138 | in the band the terminals show between 2.2 and 5.2 V |
| CellBand.NewCellStartsInBand | libs/batterylab/src/batterylab/ecm.py:18-34 | a new cell of any known chemistry starts in the band |
| CellBand.RestRelaxes | libs/batterylab/src/batterylab/ecm.py:70-98 | without current, charge and throughput stand still and neither |v_rc| nor |T - ambient| grows, faults included |
| Chemistry.OcvStrictlyIncreasing | libs/batterylab/src/batterylab/chemistry.py:55-60 | the interpolated open-circuit voltage rises strictly with charge over the whole range |
| Chemistry.OcvFollowsTable | libs/batterylab/src/batterylab/chemistry.py:55-60 | the curve meets the table at all eleven points and is straight in between |
| Chemistry.R0Shape | libs/batterylab/src/batterylab/chemistry.py:62-74 | nominal between 10 % and 90 % at 25 C, up to a quarter more towards both ends, half a percent less per kelvin; the floor is never met in the band |
| Chemistry.OcvBounds | libs/batterylab/src/batterylab/chemistry.py:55-60 | it stays between the ends of the table |
| Chemistry.R0Bounds | libs/batterylab/src/batterylab/chemistry.py:62-73 | the series resistance is positive and below a linear bound in temperature |
| Chemistry.KnownAreSound | libs/batterylab/src/batterylab/chemistry.py:76-137 | the four parameter sets have increasing tables and positive constants |
| Aging.ThroughputLawIsPathIndependent | libs/batterylab/src/batterylab/degradation.py:38-57 | throughput loss telescopes: for every partition into ticks, interleaved with anything, it is k_cyc * swelling * sqrt(throughput / capacity) |
| Aging.CalendarLossBounded | libs/batterylab/src/batterylab/degradation.py:21-35 | calendar loss is at most k_cal * exp((Tmax - 25) / 12) * sqrt(elapsed), less its value at the start, for every tick pattern up to Tmax |
| Aging.SqrtLaw | libs/batterylab/src/batterylab/degradation.py:21-35 | the square-root law from both sides: any number of equal ticks at one charge and temperature costs the rate times the growth of sqrt(t), up to a shift by one tick |
| Aging.RecordCounts | libs/batterylab/src/batterylab/degradation.py:21-66 | over any run the record counts every ampere-hour, second and cycle once, and material loss is k_lam times the sum of the squared depths |
| Aging.SohNeverRises | libs/batterylab/src/batterylab/degradation.py:21-78 | state of health is in [0, 1] and falls or stays under every event |
| Aging.SohFallsOverRuns | libs/batterylab/src/batterylab/degradation.py:69-78 | over any interleaving of ticks and cycles it is no higher at the end than at any moment before |
| EcmCell.AgingState.StepCalendarLli | libs/batterylab/src/batterylab/degradation.py:21-35 | the in-place calendar tick is the specified step and returns the loss it added |
| EcmCell.AgingState.StepThroughputLli | libs/batterylab/src/batterylab/degradation.py:38-57 | the in-place throughput tick is the specified step and returns the loss it added |
| EcmCell.AgingState.OnCycle | libs/batterylab/src/batterylab/degradation.py:60-66 | the in-place cycle event is the specified step and returns the loss it added |
| EcmCell.ECMCell.Step | libs/batterylab/src/batterylab/ecm.py:55-118 | the in-place tick, with its early returns, is the specified step of the cell |
| EcmCell.ECMCell.Detect | libs/batterylab/src/batterylab/ecm.py:105-115 | the in-place cycle detection is the specified one |
| Chamber.ThermalModel.Step | services/chamber/src/chamber/thermal.py:21-34 | the in-place tick is the specified Euler step, or the setpoint for a non-positive time constant |
| Chamber.NoOvershoot | services/chamber/src/chamber/thermal.py:29-34 | for 0 < dt <= tau a tick moves towards the setpoint and not past it |
| Chamber.ErrorShrinksGeometrically | services/chamber/src/chamber/thermal.py:29-34 | the error after n ticks is exactly (1 - dt/tau)^n times the first |
| Chamber.SettlesIn2000Seconds | services/chamber/src/chamber/thermal.py:16-34 | with tau = 600 and dt <= 1, after 2000 s at most a twentieth of any error is left, so a 20 C step is within 1 C |
| Registers.SetpointWords | libs/batterylab/src/batterylab/modbus_maps.py:161-174 | the two words of a setpoint read back as its binary32 value, and what any two words say is already rounded |
| Registers.CodesReadBack | libs/batterylab/src/batterylab/modbus_maps.py:111-145 | every mode and error survives the wire; a word that is no code reads as idle or no error |
| Registers.Int16RoundTrip | libs/batterylab/src/batterylab/modbus_maps.py:177-187 | two's complement survives the trip exactly for the int16 range, and always agrees modulo 65536 |
| Registers.UnsignedReadback | services/cycler/src/cycler/modbus_server.py:218-222 | a truncated and clamped quantity reads back within one quantum exactly if it is above -1 and below 65536 quanta |
| Registers.SignedReadback | services/cycler/src/cycler/modbus_server.py:250-254 | the signed counterpart, exactly between -32769 and 32768 |
| Snapshot.ReadAfterMirror | services/orchestrator/src/orchestrator/cycler_client.py:62-95 | after a mirror tick a read returns mode, error and binary32 setpoint exactly, voltage, current and temperature within one quantum exactly when in range, SOC always, the cycle index capped; at or below 0 C it reads 0 |
| Snapshot.InBandReadsTrue | services/cycler/src/cycler/modbus_server.py:225-302 | for a cell in its physical band only temperatures at or below -0.1 C are misread |
| Snapshot.StatusAfterMirror | services/cycler/src/cycler/modbus_server.py:262-290 | health within one quantum, the dead-man status of channel and chassis exact |
| Snapshot.StampReadsBack | services/cycler/src/cycler/modbus_server.py:135-138 | a cycle index that fits its register is stamped on its channel alone and reads back |
| SendCommand.SendRefinesCommand | services/orchestrator/src/orchestrator/cycler_client.py:97-116 | the four writes refine one atomic command: interleaved with any mirror, cell, safety and chassis ticks, kicks and other channels' commands, an unlatched channel ends with the requested mode, both limits, and a setpoint within 1e-9 of the binary32 value, and its registers agree |
| SendCommand.CommandTakesEffect | services/cycler/src/cycler/channel.py:61-83 | what the registers command is in force on an unlatched channel, on a latched one only if it is idle; what is in force already changes nothing, and whatever changes feeds the dead-man |
| SendCommand.RepeatIsNoOp | services/cycler/src/cycler/channel.py:61-83 | sending the command again, write by write, changes no channel in any field |
| SendCommand.NeighboursUntouched | services/cycler/src/cycler/modbus_server.py:124-167 | a command's writes touch no other channel and no register outside its block |
| SendCommand.StaysLatched | services/cycler/src/cycler/channel.py:65-67 | no interleaving of a command with anything but a chemistry write unlatches a channel |
| SendCommand.NoiseMoves | services/cycler/src/cycler/modbus_server.py:225-302 | seen from a channel's command state and registers, everything else either leaves them alone, mirrors the channel into the registers, or halts the channel |
| SendCommand.WriteMoves | services/cycler/src/cycler/modbus_server.py:140-158 | seen from there, each of the four writes stores its words and applies the whole command in the registers |
| SendCommand.StepKeepsRepresentable | services/cycler/src/cycler/modbus_server.py:146-158 | a live setpoint is always a binary32 value |
| Glitch.ActivationIsGlitchFree | services/orchestrator/src/orchestrator/cycler_client.py:97-116 | from idle or rest with a MODE register that says so, or latched, 0 A in every intermediate state; whenever the channel is driven, the mode, setpoint and both limits are the requested ones |
| Glitch.SilentExactlyWhenCalm | services/orchestrator/src/orchestrator/cycler_client.py:105-109 | for a non-zero setpoint, from the first write up to the mode write every interleaving leaves the control law at 0 A for every voltage, if and only if the channel is latched or both its mode and its MODE register are idle or rest |
| Glitch.OldModeDrivesNewSetpoint | services/cycler/src/cycler/modbus_server.py:140-158 | otherwise a mirror tick and the first write, or the write alone, drive the channel with the new setpoint in the mode from before the command |
| Mixture.NeverMixedExactly | services/orchestrator/src/orchestrator/cycler_client.py:105-116 | from coherent registers, no interleaving ever runs an active channel with a mixture of the old and the new command (mode, setpoint beyond 1e-9, either limit) if and only if the channel is latched, idle or at rest, or the two commands differ in at most one part |
| Mixture.NewSetpointUnderOldModeAndLimits | services/cycler/src/cycler/modbus_server.py:140-158 | what the promise fails on: after the first write alone an unlatched channel has the new setpoint, the old mode and both old limits, and at constant current drives just that |
| CyclerClient.CyclerClient.SendCommand | services/orchestrator/src/orchestrator/cycler_client.py:97-116 | the client's writes in order until one fails; if all arrive and the channel is unlatched, the command is in force |
| ChassisProofs.LatchAbsorbs | services/cycler/src/cycler/channel.py:61-108 | one step of anything, seen from a latched channel: it is unlatched if and only if the step is a chemistry write naming a different known chemistry; otherwise same error, idle, 0 A, charge and throughput frozen, |v_rc| and |T - ambient| no larger |
| ChassisProofs.LatchHolds | services/cycler/src/cycler/safety.py:131-146 | the same over any run without such a write, |T - ambient| for a constant ambient |
| ChassisProofs.RunKeepsOrder | services/cycler/src/cycler/safety.py:35-146 | over any run a latched channel is idle and every cell stays a cell of a known chemistry |
| ChassisProofs.WriteLatch | services/cycler/src/cycler/modbus_server.py:170-209 | a write of any words at any address changes no latch and no cell unless it swaps the chemistry |
| ChassisBand.RunStaysInBand | services/cycler/src/cycler/safety.py:134-146 | control law and cell together: over any run in which constant-current setpoints stay within 10 A, ticks within 30 s and ambients in [-20, 60], every cell of the chassis stays in its band, its terminals between 2.2 and 5.2 V, and no channel latches thermal runaway |
| ChassisBand.StepKeepsCool | services/cycler/src/cycler/channel.py:119-152 | one step of anything keeps that |
| ChassisCurrent.TickDrawsAsked | services/cycler/src/cycler/safety.py:134-146 | a cell tick draws the control law's current for its length from its own cell: the setpoint at constant current, nothing at idle, at rest or on a latched channel; nothing else on the chassis changes |
| ChassisCurrent.ConstantCurrentDraws | services/cycler/src/cycler/channel.py:119-143 | over any run of cell ticks at constant current the cell gives exactly setpoint times time, while it is within its range and nothing latches |
| ChassisChemistry.ChemistryWriteInstalls | services/cycler/src/cycler/modbus_server.py:170-222 | writing a chemistry's number makes every cell of the chassis one of that name: untouched if they were, otherwise each a new cell on an idle, unlatched channel with that chemistry's limit; any other number changes no channel |
| ChassisChemistry.ReadBackConfirms | services/orchestrator/src/orchestrator/executor.py:233-247 | from that write on, over every run without another write there, all cells are of that chemistry and the register reads as the number written |
| ChassisChemistry.MirrorCorrects | services/cycler/src/cycler/modbus_server.py:291-300 | a mirror tick makes the register read as the number of the chemistry the cells have |
| ChassisChemistry.BootIsUniform | services/cycler/src/cycler/main.py:41-62 | a chassis boots with all cells of one chemistry |
| ChassisChemistry.RunKeepsUniform | services/cycler/src/cycler/modbus_server.py:170-222 | no run ever mixes chemistries on a chassis |
| ChassisProofs.ControlLaw | services/cycler/src/cycler/channel.py:119-152 | 0 A when latched, idle or rest; constant voltage pushes towards the setpoint, monotonically, clipped exactly from 2/3 V away; constant power is delivered exactly unless that takes more than 6 A |
| DeadMan.BreachTrips | services/cycler/src/cycler/safety.py:48-81 | over every timely run, a channel whose reading stays over the limits in force, or whose cell is latched, for longer than p ends latched, idle and at 0 A, unless its chemistry was swapped |
| ChassisProofs.ChassisBodyExactly | services/cycler/src/cycler/safety.py:84-106 | a chassis body reports a stale kick exactly when there is one and then halts exactly the driven channels |
| ChassisProofs.KickResetsTimer | services/cycler/src/cycler/modbus_server.py:131-133 | a kick sets that channel's timer and touches nothing else |
| DeadMan.DeadManBound | services/cycler/src/cycler/safety.py:35-128 | over every run in which the safety body runs at least every p and the chassis body at least every q wall seconds: a driven channel's last kick is at most threshold + p old, and it has been driven under a stale chassis kick for at most q |
| DeadMan.OrchestratorGone | services/cycler/src/cycler/safety.py:1-10 | over every timely run in which no register is written after some moment, the channel is idle and at 0 A from threshold + p after that moment on, whatever it was doing |
| DeadManBounds.ChannelBoundIsAttained | services/cycler/src/cycler/channel.py:156-166 | from every boot of every chassis the first bound is attained: the client's four writes, timely bodies, and a kick exactly threshold + p old |
| DeadManBounds.ChassisBoundIsAttained | services/cycler/src/cycler/safety.py:84-106 | from every boot the second bound is attained: the channel kicked at every beat, the chassis never, and a drive exactly q under a stale chassis kick |
| DeadManBounds.PromptExactly | services/cycler/src/cycler/safety.py:26-32 | with the thresholds and periods of the code, every timely run from every boot keeps a driven channel's kick at most 5.5 s old and a drive under a chassis kick older than 5 s at most 0.5 s long, if and only if SIM_TIME_FACTOR >= 0.2 |
| DeadMan.BootIsFresh | services/cycler/src/cycler/safety.py:92-97 | the invariant holds from boot on |
| Cycler.Channel.Apply | services/cycler/src/cycler/channel.py:61-83 | the in-place command is the specified one; it returns False only if nothing changed, True only if every requested field is now in force |
| Cycler.Channel.Halt | services/cycler/src/cycler/channel.py:103-108 | latches the first error and parks the channel |
| Cycler.Channel.SafetyTick | services/cycler/src/cycler/safety.py:48-81 | the body of the safety loop is the specified step, limits in the order of the code |
| Cycler.Channel.CellTick | services/cycler/src/cycler/safety.py:134-146 | the body of the cell loop is the specified step, cell included |
| Cycler.Channel.Rebuild | services/cycler/src/cycler/modbus_server.py:203-209 | the swap of one channel's cell is the specified one |
| Cycler.ChassisDataBlock.constructor | services/cycler/src/cycler/modbus_server.py:53-86 | every block exists, the limits are those of the channels and the chemistry that of the cells |
| Cycler.MakeChannels | services/cycler/src/cycler/main.py:41-63 | n idle channels with new cells of one chemistry, its voltage limit, and nothing shared |
| Cycler.Boot | services/cycler/src/cycler/main.py:66-116 | a cycler comes up as the booted chassis that the dead-man results start from |
| Cycler.ChassisDataBlock.SetValues | services/cycler/src/cycler/modbus_server.py:91-102 | a register write is the specified one: all words stored, then each dispatched in order, or nothing if an address is missing |
| Cycler.ChassisDataBlock.Dispatch | services/cycler/src/cycler/modbus_server.py:104-167 | the effect of one written register on all channels and the kick state is the specified one |
| Cycler.ChassisDataBlock.Swap | services/cycler/src/cycler/modbus_server.py:170-209 | the loop over the channels installs the named chemistry in all of them, or changes nothing |
| Cycler.ChassisDataBlock.WriteBlock | services/cycler/src/cycler/modbus_server.py:232-284 | the words of one channel's block after a mirror pass, address by address, and no other register changed |
| Cycler.ChassisDataBlock.MirrorTick | services/cycler/src/cycler/modbus_server.py:225-302 | a whole mirror pass is the specified refresh of the store |
| Cycler.ChassisDataBlock.ChassisTickOf | services/cycler/src/cycler/safety.py:98-106 | the body of the chassis watchdog is the specified step over all channels |
| Keepalive.GroupByChassis | services/orchestrator/src/orchestrator/channel_keepalive.py:77-83 | the groups are, chassis by chassis, the running channels in the order of the experiments |
| Keepalive.MembersComplete | services/orchestrator/src/orchestrator/channel_keepalive.py:78-83 | every running experiment of a reachable chassis is in its chassis' group |
| Keepalive.KickChassis | services/orchestrator/src/orchestrator/channel_keepalive.py:47-63 | one kick per channel in order, failures skipped, each starting when the one before is over |
| Keepalive.SweepOnce | services/orchestrator/src/orchestrator/channel_keepalive.py:76-94 | exactly the running channels are kicked, chassis by chassis from a common start, and the sweep ends with the slowest chassis |
| Keepalive.SweepIsDone | services/orchestrator/src/orchestrator/channel_keepalive.py:76-94 | such a sweep reaches every running channel within n * l, n the largest group and l the longest kick |
| Keepalive.SweepKicksRunning | services/orchestrator/src/orchestrator/channel_keepalive.py:77-94 | every kick of a sweep goes to a channel with a running experiment of its own chassis, as many on each reachable chassis as it has running experiments, and to no other chassis |
| Keepalive.KicksKeepComing | services/orchestrator/src/orchestrator/channel_keepalive.py:66-109 | seen from any moment, the last kick of a channel in every sweep is at most two sweeps and a pause old |
| Keepalive.NoFalseTrip | services/cycler/src/cycler/channel.py:156-166 | for a channel that joins in the middle of a sweep, within `delay` of its last own kick, the timer those sweeps leave never expires if delay + 2 n l + pause <= threshold |
| KeepaliveRuns.NoFalseTripInRun | services/cycler/src/cycler/safety.py:73-75 | on the chassis: in any run that receives those kicks, whatever else it consists of, no safety body finds the channel's dead-man expired or halts it with a watchdog timeout |
| KeepaliveRuns.KickCounts | services/cycler/src/cycler/modbus_server.py:131-133 | a kick in a run counts from its time on, whatever follows |
| KeepaliveBounds.AnySmallerThresholdTrips | services/orchestrator/src/orchestrator/channel_keepalive.py:66-109 | the bound is sharp on a live chassis: for every chassis that boots with at least n channels and a threshold below 2 n l + pause there are two sweeps of n running channels a chassis, no kick longer than l and no pause longer than `pause`, and a run that receives exactly their kicks on every channel, whose last safety body halts channel 0 with a watchdog timeout |
| Keepalive.KickComesLate | services/orchestrator/src/orchestrator/channel_keepalive.py:66-109 | those sweeps are ones that sweep_once can make within n, l and `pause`, and kick one channel at 0 and next at 2 n l + pause |
| Ingester.LedgerOverRuns | services/ingester/src/ingester/main.py:165-216 | over any sequence of messages, failed flushes and broken connections from the start of the process: parsed rows = table + buffer + lost, at most 5000 lost per reconnect; table then buffer is an in-order subsequence of the parsed rows, and all of them if nothing fails; the buffer stays below 5000 between messages and the hard-cap branch is never taken |
| Ingester.HandleKeepsSound | services/ingester/src/ingester/main.py:182-216 | one message or failure keeps the ledger, and the dict equal to the latest valid context message of each key in the whole history |
| Ingester.FlushedInOrder | services/ingester/src/ingester/main.py:182-213 | whatever was flushed and lost, the flushed rows are in order and the counts add up |
| Ingester.Ingester.HearContextMessage | services/ingester/src/ingester/main.py:188-196 | for every key: set to the decoded context by a message on that chassis and channel, cleared by an empty payload on it, untouched by anything else |
| Ingester.Ingester.HearTelemetryMessage | services/ingester/src/ingester/main.py:198-213 | a message with a sample adds one row, with the chassis and channel of its topic; the batch is flushed exactly when it is full or old enough; a failed flush loses exactly the batch |
| Ingester.Ingester.Push | services/ingester/src/ingester/main.py:199-205 | at the hard cap the oldest row makes room |
| Ingester.Ingester.Flush | services/ingester/src/ingester/main.py:126-135 | the table gains the whole batch or nothing |
| Ingester.Ingester.Reconnect | services/ingester/src/ingester/main.py:167-216 | a broken connection loses exactly the buffer and keeps the context |
| IngesterRows.RowIs | services/ingester/src/ingester/main.py:82-109 | told from topics and payloads alone: every message whose topic names a chassis and a channel and whose payload decodes yields exactly one row, in order, with that chassis, that channel, its own sample, and the context last set for that channel before it, empty strings if it was cleared since or never set |
| IngesterRows.StoredRowsAreTold | services/ingester/src/ingester/main.py:165-216 | over any events, every row in the table comes from such a message |
| Alerts.LedgerHolds | services/watchdog/src/watchdog/alerts.py:51-83 | over any sequence of calls and any failures every emitted alert is in exactly one of table, queue, evicted or lost, and the queue is in emission order with at most 1000 entries |
| Alerts.NothingTwice | services/watchdog/src/watchdog/alerts.py:63-72 | no alert is inserted twice, and the four places add up to the number of calls |
| Alerts.BacklogFirst | services/watchdog/src/watchdog/alerts.py:63-72 | the queue is empty and the backlog inserted before the new alert, in order, if and only if every insert of the call succeeds |
| Alerts.LostOnlyByRaising | services/watchdog/src/watchdog/alerts.py:63-104 | a call loses its alert if and only if one of the inserts it makes - up to the first failure of the drain, and then its own if that was a Postgres error - raises anything else; it never loses another alert |
| Alerts.PublishedExactly | services/watchdog/src/watchdog/alerts.py:74-83 | over any calls: call k is published if and only if it was critical, its publish succeeded and none of its inserts raised, be it stored or queued; once, and in order of emission |
| Alerts.NewAlertGoes | services/watchdog/src/watchdog/alerts.py:70-72 | the new alert is stored, queued or lost exactly as the last insert of its call succeeds, is refused or raises |
| Alerts.WaitingAlertGoes | services/watchdog/src/watchdog/alerts.py:64-72 | a waiting alert is stored exactly when its insert and all before it succeed, drops out exactly as the oldest of a full queue when both inserts of the call are refused, and waits on otherwise |
| Alerts.OrderKeptExactly | services/watchdog/src/watchdog/alerts.py:63-72 | table then queue stays in emission order if and only if the call's own insert does not succeed while older alerts still wait |
| Alerts.AlertSink.Drain | services/watchdog/src/watchdog/alerts.py:64-68 | the loop ends; it inserts and pops exactly the run of successes at the head of the queue |
| Alerts.AlertSink.Emit | services/watchdog/src/watchdog/alerts.py:56-83 | a whole call, with eviction at the bound and publication of critical alerts whether or not the insert was refused |

## Left out

- Orchestrator.Step: a database statement takes effect wholly or not at all; one that commits and then reports an error is not modelled, nor are edits of the tables by other programs.
- OrchestratorProofs.CleanRun: covers runs without crash, halt or full event queue; with them `RunKeepsExactly` and `CompletedMeansAllRows` still apply.
- Executor.Orchestration.ResumeInflight: runs whenever no copy is registered, which is more often than once per process; Modbus traffic of a tick, a kick-off or a recovery enters only through its outcome, and the escalation of repeated drift is left out because it is not reached.
- Exporter.Exporter.WriteBatches: an object is the set of its rows; row order, encoding and size are not modelled.
- ExportBoundary.StepHarmlessExactly: supposes at least one exporter and objects that hold only ingested rows, which `RunStaysWithin` proves along runs from the empty store on.
- ExportProofs.RunConserves: rows that arrive below a cutoff already used are outside the hypothesis; `LateRowIsLost` shows why.
- ExportProofs.DropKeeps: a chunk is one hour of rows.
- CellBand.MildHistory: leaves out the faults "swelling" and "internal_short", which change the series resistance without bound or below the table; the account of cycles covers them.
- EcmCell.ECMCell.Step: exact reals; floating-point rounding, NaN and infinities are not modelled, and neither are non-finite setpoints on the wire.
- Chemistry.KnownAreSound: the charge-rate ceiling and the anode label play no part in the cell's step and are left out.
- ChassisProofs.LatchHolds: a process restart or a direct call of `reset` also clears a latch; neither is a step of the running chassis.
- SendCommand.SendRefinesCommand: words that do not fit a register are refused by the client library before they are sent, which is not part of this model; the channel is assumed unlatched at the end, and at most 200 channels fit below the chassis registers.
- DeadMan.DeadManBound: that the bodies run at least every p and q seconds is a hypothesis about the event loop.
- KeepaliveRuns.NoFalseTripInRun: supposes that the kicks of the channel's chassis succeed and that its experiment stays in the dict; `delay` is the time between the channel's last kick on joining and its entry in the dict, at most one kick's latency in the code.
- Cycler.Channel.Apply: log lines and the telemetry publisher are left out.
- Ingester.Ingester.HearTelemetryMessage: decoding of numbers and JSON is an argument that succeeds or fails; an exception outside the three caught kinds ends the process and is not modelled.
- Alerts.AlertSink.Emit: calls do not overlap; two overlapping ones can insert the head twice and pop another entry.
- MQTT, Postgres, TimescaleDB, the object store, pymodbus and asyncio: only their effects, as atomic steps with the outcomes listed above.
- Analytics, dashboards, schedule parsing, edge triggers, the chamber's breach timer, health checks and environment parsing: plumbing, or small members that would add easy claims only.
