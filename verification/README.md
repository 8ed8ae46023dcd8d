# Verification model of the master process and the system monitor

The project models two independent parts of the trading platform and proves properties of the
models.

**The master process** (`apps/master`). The supervisor starts, watches, restarts and stops the
child processes; the shared-memory manager owns the market-data channels strategies are bound
to. Requests, frames, child exits and timer callbacks interleave freely. The model is a step
system: `MasterTypes` is the state, `MasterSteps` says what every handler does to it, and the
theorems are about every run of steps from start-up. Timers are modelled adversarially, as
boost::asio documents them: cancelling a timer does nothing to a handler that has already
expired and is queued, which later runs as if it had succeeded. The theorems are about shutdown
(`ShutdownBatches`, `ShutdownOrder`, `ShutdownSends`), identities (`MasterInvariants`), single
steps (`HandlerEffects`) and who is launched (`LaunchConditions`), restarts (`RestartBudget`,
`ManualLaunch`, `LaunchByHand`), stop requests (`StopGuard`), the ready gate (`RegistryNames`,
`ReadyGate`), page layouts and reader tables (`PageLayout`, `ReaderTables`); `RestartRuns` and
`ReaderRuns` hold concrete runs. `MarketChannels` and `Supervisor` are the same handlers as classes
that update fields in place with the loops of the C++ classes, each method proved to do what
`MasterSteps` says; `StartUp` is start-up, proved to be a run of the step system.

**The system monitor** (`apps/sysmon`). An NTPv4 client in integer fixed point (`NtpCodec`,
`NtpPacket`; RFC 5905, sections 6, 7.3, 7.4 and 8); a prober that runs rounds of exchanges over
an asynchronous transport it does not trust (`ProbeRounds`, `ProbeInvariants`, `ClockProbe`,
`KissHistory`, `ProbeAccuracy`, and the class in `ClockProber`); and three streaming machines,
each proved to refine a simple function of its whole input history: thresholds (`Thresholds`,
`ThresholdHistory`, `ThresholdMeaning`, and the class in `ThresholdEvaluator`), recording windows
(`HistoryAggregates`, `HistoryWindows`, and the class in `HistoryRecorder`) and saturated cores
(`CpuSaturation`). `Accounts` is the master's mirror of trading accounts, modelled on its own.

In each part a pure function is the specification of a handler, a class method is proved equal
to it, and the lemmas are about the function over whole runs.

## Where the code does less than its comments say

Each of these has a lemma with the exact condition and one with a concrete input.

- A user's stop or remove of a process that is backing off does not always end its restarts: it
  comes back exactly when the restart timer had already expired and its handler was queued
  (`RestartBudget.CancelEndsRestartsExactly`; the run is `RestartRuns.StoppedAndBack`).
- A launch by hand forgets the crash count and cancels the pending restart, but not a handler
  that is already queued. The restart limit holds from then on exactly when there was none; else
  a process can be restarted once more than its policy allows
  (`LaunchByHand.BudgetAfterLaunchExactly`; the run is `RestartRuns.OneAllowedTwoRestarts`).
- A second stop of the same child cancels the timer of the first, whose aborted handler, said to
  have no side effect, drops the second timer as well: a child that hangs is then never killed.
  This is possible exactly when a handler of an earlier stop timer of that name has still to run
  and none of the child's own has expired (`StopGuard.StopGuardedExactly`; the run is
  `StopGuard.StoppedTwiceUnguarded`).
- The page size of a live strategy's channel is protected only while the strategy is
  registered. Removing a strategy takes its entry off the registry before its process stops,
  and until then a start of its source can reset the channel under it, exactly when the source is
  down and no other live strategy is registered for it (`PageLayout.RemovedStrategyLosesLayout`;
  the run is `ReaderRuns.RemovedLosesPageSize`).
- An automatic restart launches without pre-registering the reader: the strategy is in no reader
  table when it runs again, and enters one exactly by its own request or by a late STARTED of a
  source it still waits for (`ReaderTables.RestartedInTableExactly`; the run is
  `ReaderRuns.RestartedUnregistered`).
- The ready gate needs the registry to find, under a strategy's name, no strategy bound to
  another source; loading the configuration does not check this. The gate holds in every run
  exactly for such registries, up to one corner (`ReadyGate.GateExactly`; a registry and a run are
  in `ReadyGate.ClashingRegistryFails`).
- A new recording interval is documented to count from the next window. It counts from the next
  observation and can cut the open window, whose row then still names the old width
  (`HistoryWindows.ReconfigureCutsExactly`; the run is `HistoryWindows.HalvingCutsTheMinute`).
- The header says a gap mark carries the number of missing samples; the code writes the number
  of samples present and of ticks reported missed, which agree exactly when half of the samples
  are there (`HistoryWindows.GapNamesMissingExactly`; the run is `HistoryWindows.OneOfSixty`).
- Raising the required number of samples at run time can delay a mark: a core whose last readings
  are all high is not marked exactly when its run of high readings does not climb to the new
  count, the j-th of the counted readings taken while at least j were required
  (`CpuSaturation.MarkedForAnyCounts`; the history is `CpuSaturation.RaisedCountForgets`).
- A stopped trading gateway stays in the account mirror exactly for accounts it was not yet
  listed with and whose status was still unread (`Accounts.StoppedGatewayLingersExactly`; the run
  is `Accounts.LingeringExample`).
- The reported clock offset can miss the true one by one nanosecond more than its bound, exactly
  when nothing was dispersed and one way took no time (`NtpCodec.ErrorBoundMissesExactly`; the
  exchange is `NtpCodec.ErrorBoundIsTight`).

## Model

| member | source | states |
|---|---|---|
| ShutdownBatches.BatchesPartition | apps/master/process_supervisor.cpp:34-53 | for every list of running processes, the batches hold each of them exactly once, none is empty, and they follow the category order |
| ShutdownOrder.ShutdownIsOrderly | apps/master/process_supervisor.cpp:336-464 | over every run, once shutdown has begun nothing is launched, SHUTDOWN frames and batch kills go to a member of batch k only after every member of all earlier batches has exited, a batch timer kills only members of the batch it was armed for, and completion comes last |
| ShutdownOrder.ShutdownNeverStalls | apps/master/process_supervisor.cpp:378-464 | at every moment of a shutdown it is complete with no child left, or the current batch has a live member and a timer that will still fire for this batch, or all its live members have already been told to terminate; completion is announced at most once |
| ShutdownOrder.ShutdownEndsWithLastExit | apps/master/process_supervisor.cpp:1168-1205 | from any reachable state of a shutdown, children and exits handled add up to a constant, and completion is announced exactly with the last exit |
| ShutdownSends.ShutdownAsksEveryone | apps/master/process_supervisor.cpp:378-398 | over every run of a shutdown, every live member of the current batch, and every live child whose category stops first among those left, was sent a SHUTDOWN frame, and no name was sent two |
| ShutdownSends.DependentsStopFirst | apps/master/process_supervisor.cpp:34-53 | whenever a step of a shutdown asks a child to stop or kills it for its batch, no child is left whose category stops earlier |
| HandlerEffects.ShutdownClears | apps/master/process_supervisor.cpp:336-368 | when shutdown begins nothing waits, no crash is counted, and only a batch timer can still expire |
| MasterInvariants.SingleInstance | apps/master/process_supervisor.cpp:779-895 | over every run, at most one live child per name, and no restart timer tracked for a live name |
| RestartBudget.RestartBudgetHolds | apps/master/process_supervisor.cpp:1087-1166 | from the start of a crash chain, with no crash counted and no restart armed or queued, a process that is not launched by hand is restarted automatically at most as often as the policies in force allow, although each launch resets the counter |
| ManualLaunch.ManualBudgetExactly | apps/master/process_supervisor.cpp:855-863 | right after a launch by hand, every run without another one keeps the number of automatic restarts within what the policy allows if and only if no expired restart of that name was queued |
| LaunchByHand.BudgetAfterLaunchExactly | apps/master/process_supervisor.cpp:855-863 | the same after any launch by hand, by start request, start-up or a late STARTED, in any run from start-up, in terms of the queue before the launch |
| LaunchByHand.ByHandStartsChain | apps/master/process_supervisor.cpp:855-863 | a launch by hand starts a crash chain exactly when no expired restart of that name was queued |
| RestartRuns.OneAllowedTwoRestarts | apps/master/process_supervisor.cpp:855-863 | a run in which one restart is allowed and two follow the launch by hand |
| RestartBudget.CancelEndsRestartsExactly | apps/master/process_supervisor.cpp:569-578 | after a stop or remove of a process that is backing off, exits and timers alone revive it exactly when its expired restart handler was already queued |
| RestartRuns.StoppedAndBack | apps/master/process_supervisor.cpp:569-578 | a run in which a process stopped while backing off comes back |
| StopGuard.StopGuardedExactly | apps/master/process_supervisor.cpp:580-640 | outside a shutdown, exits and timers alone can leave a stopped child running with no stop timer that can still fire exactly when it had not been told to terminate, a handler of an earlier stop timer of that name had still to run, and none of its own had expired |
| StopGuard.StoppedTwiceUnguarded | apps/master/process_supervisor.cpp:599-624 | a run in which a child stopped twice keeps running with no timer left that could kill it |
| ReadyGate.ReadyGateHolds | apps/master/process_supervisor.cpp:172-324 | over every run from a registry that is safe for the gate, strategies wait on a source only while it is not ready and once each; every launch of a strategy with a source, automatic restarts apart, finds its channel running and ready with its reader registered |
| ReadyGate.GateExactly | apps/master/process_supervisor.cpp:172-324 | every launch is so gated in every run if and only if the registry finds, under the name of a strategy with a source, no strategy of another source, except under a strategy named like its own source when no market-data process has that name |
| ReadyGate.GateNeedsAgreement | apps/master/process_supervisor.cpp:279-296 | whenever the registry finds under a strategy's name a strategy bound to another source, and the name is not the source, the run given launches it before its own source has a channel |
| ReadyGate.GateNeedsOwnName | apps/master/process_supervisor.cpp:279-296 | the same for a strategy named like its own source, when a market-data process of that name is registered |
| ReadyGate.ClashingRegistryFails | apps/master/process_supervisor.cpp:279-296 | a registry of two strategies and a run in which the gate fails |
| ReaderTables.RegisteredExactly | apps/master/shm_manager_subscribers.cpp:22-37 | a reader is accepted under a prefixed name exactly for a registered strategy of that name, and otherwise exactly for a registered process that is no strategy |
| ReaderTables.TableStepExactly | apps/master/shm_manager_subscribers.cpp:146-262 | for every step, the reader of a strategy is in the table of a channel afterwards exactly when the step put it there or it was there and did not leave; both are named, step by step |
| ReaderTables.InTableExactly | apps/master/shm_manager_subscribers.cpp:146-262 | over every run, it is in the table exactly when some step put it there and none took it out since |
| ReaderTables.RestartedInTableExactly | apps/master/process_supervisor.cpp:1129-1160 | a strategy brought back by its restart timer is in no table; while it runs, does not unregister and its channel keeps its page size, it is in the table exactly when an accepted request of its own, or a STARTED of its source while it was on the waiting list, registered it since |
| ReaderRuns.RestartedUnregistered | apps/master/process_supervisor.cpp:1129-1160 | a run after which a restarted strategy is live, its source ready, and no table has its reader |
| PageLayout.PageLayoutIsStable | apps/master/shm_manager.cpp:104-198 | over every run, the page size of the channel of a live, registered strategy is the one it had at the strategy's spawn |
| PageLayout.ResetExactly | apps/master/shm_manager.cpp:126-167 | a launch changes a channel's page size exactly when the channel is not open, the configured size differs, and no live strategy is registered as bound to it |
| PageLayout.StartResizesExactly | apps/master/shm_manager.cpp:126-167 | some start request for a source changes the page size of its channel exactly when no shutdown has begun, the source is not live, its channel is closed, its name is that of a gateway or free, and no live strategy is registered as bound to it |
| PageLayout.RemovedStrategyLosesLayout | apps/master/shm_manager_frame.cpp:441-491 | after a remove request for a live strategy, some start request for its source changes the page size under it exactly when the source is down and its channel closed, its name is that of a gateway or free, and no other live strategy is registered as bound to it |
| ReaderRuns.RemovedLosesPageSize | apps/master/shm_manager_frame.cpp:441-491 | a run after which a removed strategy still runs with page size 1 and its channel has page size 2 |
| LaunchConditions.StartedLaunchesExactly | apps/master/process_supervisor.cpp:298-324 | an accepted STARTED launches exactly the registered entries of those who waited for the source, do not run and can spawn; the waiting list and the watchdog are gone; a frame that is not accepted changes nothing |
| LaunchConditions.StartedInOrder | apps/master/process_supervisor.cpp:298-324 | they are launched in the order in which they wait |
| LaunchConditions.PromoteLaunchesExactly | apps/master/process_supervisor.cpp:279-296 | start-up, finding a source ready, launches exactly the strategies registered as bound to it that do not run and can spawn |
| LaunchConditions.PromotedInOrder | apps/master/process_supervisor.cpp:279-296 | they are launched in the order of the registry |
| LaunchConditions.StartupLaunchesExactly | apps/master/process_supervisor.cpp:69-109 | start-up launches an entry on its own exactly when it is registered, is no strategy with a source, does not run and can spawn |
| LaunchConditions.ParkedWait | apps/master/process_supervisor.cpp:255-277 | after start-up found a source not ready, every strategy registered as bound to it runs or waits for it |
| LaunchConditions.RequestLaunchesExactly | apps/master/shm_manager_frame.cpp:282-406 | a start request launches exactly the entry registered under the name, or the gateway the scan found, if it does not run, can spawn and its source, if it is a strategy with one, is ready |
| LaunchConditions.RequestWaits | apps/master/process_supervisor.cpp:519-548 | if the source is not ready the strategy waits for it, and who waited still waits |
| LaunchConditions.RestartLaunchesExactly | apps/master/process_supervisor.cpp:1129-1157 | a restart handler launches exactly the entry it was armed with, outside a shutdown, if it does not run and can spawn, and restores the count |
| HandlerEffects.LaunchLeaves | apps/master/process_supervisor.cpp:855-895 | a launch leaves no crash counted and no restart tracked; for a market-data process its readiness timer runs and its channel is open with the configured page size |
| HandlerEffects.LaunchFails | apps/master/process_supervisor.cpp:779-853 | what a launch that does not happen leaves, case by case; only a refused channel is an error |
| HandlerEffects.CrashRestartsExactly | apps/master/process_supervisor.cpp:1069-1120 | outside a shutdown an exit arms a restart exactly when it is no removal and not clean and the policy in force allows one more attempt, and counts it; otherwise the count is forgotten |
| HandlerEffects.ExitLeaves | apps/master/process_supervisor.cpp:918-1067 | an exit leaves no child of that identity, its reader in no table, and a market-data channel closed, for good exactly when it was being removed and is not registered |
| HandlerEffects.ReadyTimerKillsExactly | apps/master/process_supervisor.cpp:128-160 | the readiness timer kills the source exactly when it runs and a strategy registered as bound to it runs |
| HandlerEffects.StopTimerKillsExactly | apps/master/process_supervisor.cpp:616-642 | the stop timer kills exactly the child it was started for, if it is still there |
| HandlerEffects.BatchTimerKillsExactly | apps/master/process_supervisor.cpp:425-445 | a batch timer kills exactly the members left of its batch, if that is still the current one |
| HandlerEffects.ForceAllStopsAll | apps/master/process_supervisor.cpp:466-481 | after a forced termination every child was told and is stopping |
| HandlerEffects.StopRequestExactly | apps/master/shm_manager_frame.cpp:408-439 | a stop request asks a running process to stop and starts its timer, or ends the pending restart of one that does not run |
| HandlerEffects.RemoveRequestExactly | apps/master/shm_manager_frame.cpp:441-491 | a remove request takes the name off the registry and stops the process, or finishes the removal |
| HandlerEffects.PolicyTakesEffect | apps/master/process_registry.cpp:94-108 | the lookup under the name finds the new policy, and every other lookup is as before |
| PageLayout.WhoLeavesTheTable | apps/master/shm_manager_subscribers.cpp:212-262 | for every step, a reader leaves a table only because its process exited, it asked to, or the page size was reset |
| MarketChannels.ShmManager.CreateMdChannel | apps/master/shm_manager.cpp:104-198 | opens, reuses or resets the channel; throws exactly when a reset meets a live bound strategy |
| MarketChannels.ShmManager.CloseMdChannel | apps/master/shm_manager.cpp:200-212 | marks the channel stopped and not ready and keeps its metadata, readers and page size |
| MarketChannels.ShmManager.TombstoneMdChannel | apps/master/shm_manager.cpp:214-225 | marks the channel a tombstone and not ready and keeps the rest |
| MarketChannels.ShmManager.MarkReady | apps/master/shm_manager.cpp:266-288 | a STARTED frame is accepted exactly for a running channel with metadata, so a stale one revives nothing |
| MarketChannels.ShmManager.PreRegister | apps/master/process_supervisor.cpp:172-189 | adds the strategy's reader to a ready channel and does nothing otherwise |
| MarketChannels.ShmManager.HandleReaderRegister | apps/master/shm_manager_subscribers.cpp:146-210 | succeeds exactly for a registered process and a ready channel, and then adds the reader |
| MarketChannels.ShmManager.HandleReaderUnregister | apps/master/shm_manager_subscribers.cpp:212-252 | succeeds exactly for a registered process; a channel that is gone is left alone |
| MarketChannels.ShmManager.RemoveReaderFromAll | apps/master/shm_manager_subscribers.cpp:254-262 | takes the reader out of every table whose metadata is held and changes nothing else |
| Supervisor.ProcessSupervisor.LaunchChild | apps/master/process_supervisor.cpp:779-895 | refuses a live name, drops the counter when nothing can be spawned, opens the channel of a gateway first, and on success cancels the pending restart and starts the readiness timer |
| Supervisor.ProcessSupervisor.OnMdChannelReady | apps/master/process_supervisor.cpp:298-324 | cancels the readiness timer and launches every waiting strategy of the source with its reader |
| Supervisor.ProcessSupervisor.StartStrategiesForSource | apps/master/process_supervisor.cpp:279-296 | launches the strategies bound to the source that are not running |
| Supervisor.ProcessSupervisor.LaunchWithReader | apps/master/process_supervisor.cpp:311-323 | registers the strategy's reader, then launches its registry entry, if it still has one |
| Supervisor.ProcessSupervisor.HandleMdStarted | apps/master/shm_manager.cpp:266-288 | an accepted STARTED frame makes the channel ready and launches the waiting strategies; any other changes nothing |
| Supervisor.ProcessSupervisor.StrategiesBoundTo | apps/master/process_supervisor.cpp:162-170 | the loop finds exactly the registered strategies bound to the source, in order |
| Supervisor.ProcessSupervisor.FindEntry | apps/master/process_registry.cpp:48-55 | the loop finds the first registered entry of the name, if there is one |
| Supervisor.ProcessSupervisor.FindChild | apps/master/process_supervisor.cpp:644-651 | the loop finds the first child of the name, if there is one |
| Supervisor.ProcessSupervisor.ParkStrategy | apps/master/process_supervisor.cpp:527-531 | appends the strategy to the source's waiting list unless it is on it |
| Supervisor.ProcessSupervisor.CancelPendingRestart | apps/master/process_supervisor.cpp:569-578 | cancels and forgets the restart timer of the name and its count |
| Supervisor.ProcessSupervisor.LaunchRegisteredProcess | apps/master/process_supervisor.cpp:519-548 | parks a strategy whose source is not ready, otherwise registers its reader and launches |
| Supervisor.ProcessSupervisor.HandleStart | apps/master/shm_manager_frame.cpp:282-406 | rejected during shutdown; registers an unknown gateway that was found; launches what is not running |
| Supervisor.ProcessSupervisor.HandleStop | apps/master/shm_manager_frame.cpp:408-439 | stops a running process, or cancels the pending restart of one that is not |
| Supervisor.ProcessSupervisor.HandleRemove | apps/master/shm_manager_frame.cpp:441-491 | unregisters, then stops a running process or finishes the removal of one that is not |
| Supervisor.ProcessSupervisor.StopProcess | apps/master/process_supervisor.cpp:550-614 | asks a live child to stop and arms its stop timer, except during shutdown |
| Supervisor.ProcessSupervisor.UnregisterEntry | apps/master/process_registry.cpp:124-130 | takes every entry of the name off the registry and keeps the others in order |
| Supervisor.ProcessSupervisor.UpdateEntryPolicy | apps/master/process_registry.cpp:94-108 | changes the policy of the first entry of the name and nothing else |
| Supervisor.ProcessSupervisor.HandleReaderRegister | apps/master/shm_manager_subscribers.cpp:146-210 | accepts exactly a registered process on a ready channel |
| Supervisor.ProcessSupervisor.HandleReaderUnregister | apps/master/shm_manager_subscribers.cpp:212-252 | takes the reader of a registered process off a channel that is there |
| Supervisor.ProcessSupervisor.NotifyRemovedForInactive | apps/master/process_supervisor.cpp:721-773 | cancels the pending restart and tombstones the channel of a removed source |
| Supervisor.ProcessSupervisor.Terminate | apps/master/process_supervisor.cpp:636-637 | marks exactly the child of that identity as stopping |
| Supervisor.ProcessSupervisor.ForceKill | apps/master/process_supervisor.cpp:433-441 | notes the name as force-killed and tells the child to terminate |
| Supervisor.ProcessSupervisor.BuildShutdownBatches | apps/master/process_supervisor.cpp:34-53 | the nested loops build the batches that BatchesPartition is about |
| Supervisor.ProcessSupervisor.SendCurrentShutdownBatch | apps/master/process_supervisor.cpp:378-423 | skips batches that are gone, asks the live members of the first other one to stop and arms its timer, or completes |
| Supervisor.ProcessSupervisor.SendShutdowns | apps/master/process_supervisor.cpp:381-398 | one SHUTDOWN frame for each live member of the batch, and tells whether there was one |
| Supervisor.ProcessSupervisor.CheckShutdownComplete | apps/master/process_supervisor.cpp:1182-1205 | announces completion exactly when shutting down with no child left |
| Supervisor.ProcessSupervisor.AdvanceShutdownBatch | apps/master/process_supervisor.cpp:447-464 | moves on exactly when the current batch has no live member |
| Supervisor.ProcessSupervisor.ForceTerminateBatch | apps/master/process_supervisor.cpp:425-445 | kills the live members of the armed batch, and nothing when the batch has moved on |
| Supervisor.ProcessSupervisor.ForceTerminateAll | apps/master/process_supervisor.cpp:466-481 | tells every child to terminate |
| Supervisor.ProcessSupervisor.DropNamedTimers | apps/master/process_supervisor.cpp:343-359 | cancels and forgets every stop, restart and readiness timer and keeps the shutdown timer |
| Supervisor.ProcessSupervisor.Shutdown | apps/master/process_supervisor.cpp:336-376 | cancels what is pending, freezes the batches of the running children and sends the first, once |
| Supervisor.ProcessSupervisor.BeginShutdown | apps/master/process_supervisor.cpp:340-368 | cancels the named timers, forgets counters and waiting strategies, and freezes the batches of the live children |
| Supervisor.ProcessSupervisor.OnChildExit | apps/master/process_supervisor.cpp:897-1110 | cleans up after the child, then advances the shutdown, ends the chain, or schedules the restart |
| Supervisor.ProcessSupervisor.CleanUpAfter | apps/master/process_supervisor.cpp:918-1067 | takes the child off the list and out of every reader table, drops its stop timer, and closes or tombstones its channel |
| Supervisor.ProcessSupervisor.DropChild | apps/master/process_supervisor.cpp:1168-1173 | removes exactly the child of that identity |
| Supervisor.ProcessSupervisor.RestartAfterCrash | apps/master/process_supervisor.cpp:1087-1106 | counts the crash against the latest policy and arms the restart within the limit |
| Supervisor.ProcessSupervisor.OnRestartTimer | apps/master/process_supervisor.cpp:1129-1157 | launches unless shutting down and restores the crash count a launch resets |
| Supervisor.ProcessSupervisor.OnStopTimer | apps/master/process_supervisor.cpp:616-642 | kills the child the stop was for if it is still there |
| Supervisor.ProcessSupervisor.OnReadyTimer | apps/master/process_supervisor.cpp:128-160 | kills the unready source exactly when a strategy bound to it is live |
| Supervisor.ProcessSupervisor.RunTimer | apps/master/process_supervisor.cpp:112-126 | runs the handler of an expired or cancelled timer once |
| StartUp.StartAll | apps/master/process_supervisor.cpp:69-110 | start-up is a run of the step system that begins with the gateways and goes on with all other processes that are no strategies |
| StartUp.WaitForSources | apps/master/process_supervisor.cpp:191-277 | waiting for sources is a run of readiness frames, promotions and, for sources still not ready, parkings |
| NtpCodec.NanosRoundTrip | apps/sysmon/ntp_codec.cpp:70-83 | nanoseconds survive the fraction field exactly |
| NtpCodec.CutToOneSecond | apps/sysmon/ntp_codec.cpp:70-83 | nanoseconds outside one second are cut to its ends |
| NtpCodec.FractionRoundTrip | apps/sysmon/ntp_codec.cpp:70-83 | the fraction field survives nanoseconds within three units |
| NtpCodec.FractionRoundTripIsTight | apps/sysmon/ntp_codec.cpp:70-83 | three units are needed |
| NtpCodec.FixedScale | apps/sysmon/ntp_codec.cpp:85-93 | 16.16 seconds become nanoseconds within half a nanosecond |
| NtpCodec.Calendar | apps/sysmon/ntp_codec.cpp:54-68 | the seconds field counts from 1900 and rolls over in 2036; a time before 1970 becomes the origin |
| NtpCodec.DifferenceExact | apps/sysmon/ntp_codec.cpp:54-106 | for non-negative Unix times the difference of two timestamps is exact, across the roll-over of 2036, precisely when they are less than half an era apart or half an era without a roll-over |
| NtpCodec.DifferenceAntisymmetric | apps/sysmon/ntp_codec.cpp:95-106 | swapping the timestamps negates the difference |
| NtpCodec.DifferenceAccurate | apps/sysmon/ntp_codec.cpp:95-106 | for any two timestamps the difference is within two nanoseconds of the folded true one |
| NtpCodec.DeriveSampleFits | apps/sysmon/ntp_codec.cpp:199-223 | no intermediate overflows 64 bits |
| NtpCodec.ErrorBoundIsSound | apps/sysmon/ntp_codec.cpp:199-223 | section 8 of RFC 5905: an ideal exchange in whole nanoseconds is accepted, its round trip is the two delays, and its offset is within its bound plus one nanosecond of the true one |
| NtpCodec.ErrorBoundForAnyServer | apps/sysmon/ntp_codec.cpp:199-223 | the same for any timestamps of the server: an exchange whose delays make a nanosecond is accepted, and the offset of an accepted one is within its bound plus two nanoseconds of the true one |
| NtpCodec.ErrorBoundMissesExactly | apps/sysmon/ntp_codec.cpp:199-223 | the offset of an ideal exchange misses its bound exactly when nothing was dispersed, one way took no time, the other an odd number of nanoseconds, and the halved sum rounds away from the true offset |
| NtpCodec.ErrorBoundIsTight | apps/sysmon/ntp_codec.cpp:199-223 | an exchange whose offset misses its bound |
| NtpCodec.RefusedExactly | apps/sysmon/ntp_codec.cpp:199-223 | a sample is refused exactly when the server's times run backwards or its work exceeds the round trip |
| NtpPacket.BuildRequest | apps/sysmon/ntp_codec.cpp:108-123 | the request is its first byte, zeros, and the transmit timestamp in big-endian order at byte 40 |
| NtpPacket.RequestLayout | apps/sysmon/ntp_codec.cpp:108-123 | the request is 48 bytes of version 4 and mode 3, zero but for the transmit timestamp in the last eight |
| NtpPacket.Put32 | apps/sysmon/ntp_codec.cpp:115-121 | writes four bytes and leaves the others |
| NtpPacket.BigEndianRoundTrip | apps/sysmon/ntp_codec.cpp:32-45 | writing and reading a word undo each other |
| NtpPacket.UsableExactly | apps/sysmon/ntp_codec.cpp:125-177 | sections 7.3 and 8 of RFC 5905: a datagram of 48 bytes or more is usable exactly when version is 3 or 4, mode is server, stratum is 1 to 15, and its origin bytes are the request's transmit bytes |
| NtpPacket.KissExactly | apps/sysmon/ntp_codec.cpp:164-197 | section 7.4 of RFC 5905: a kiss-o'-death is recognised by stratum 0 and its code by exactly those four letters |
| NtpPacket.ReplyLayout | apps/sysmon/ntp_codec.cpp:125-162 | section 7.3 of RFC 5905: every field of a reply in terms of its bytes, root delay and dispersion within half a nanosecond |
| NtpPacket.ParsedExactly | apps/sysmon/ntp_codec.cpp:125-145 | a reply is refused exactly when it is shorter than 48 bytes or of another version or mode, with its reason |
| NtpPacket.ReadKissCode | apps/sysmon/ntp_codec.cpp:179-197 | the loop over the four characters finds that code |
| NtpPacket.DispersionRange | apps/sysmon/ntp_codec.cpp:85-93 | a parsed root dispersion is non-negative and below 65536 s |
| ClockProbe.RoundCompletesExactly | apps/sysmon/clock_probe.cpp:126-203 | for callbacks in any order and number, older rounds' among them, a waiting round hands over its outcome exactly when every open server has called back once |
| ClockProbe.ProbeDeliversExactly | apps/sysmon/clock_probe.cpp:58-114 | the same from the call of probe, with callbacks that come before the send returns |
| ClockProbe.ForeignIgnoredExactly | apps/sysmon/clock_probe.cpp:126-137 | a callback leaves the state alone exactly when no round is in flight, its token is another round's, or its slot is not open |
| ClockProbe.ContactedExactly | apps/sysmon/clock_probe.cpp:85-96 | the servers contacted are those neither blocked nor backing off |
| ClockProbe.DedupKeepsFirsts | apps/sysmon/clock_probe.cpp:71-79 | the list keeps each host once, in order of first appearance |
| ClockProbe.KodSafety | apps/sysmon/clock_probe.cpp:205-236 | over every run, no request follows a DENY or RSTR of its host, none follows a RATE within one hour when the steady clock is monotone, and a block is never overwritten |
| KissHistory.ContactedByLogExactly | apps/sysmon/clock_probe.cpp:205-236 | after any run, a probe contacts exactly those of its distinct hosts whose last kiss, if any, was a RATE at least 3 600 000 000 000 ns ago |
| KissHistory.SkippedByLog | apps/sysmon/clock_probe.cpp:226-236 | why a host is not contacted, by its last kiss |
| KissHistory.ProbeSendsExactly | apps/sysmon/clock_probe.cpp:98-114 | a probe sends requests to exactly the hosts it contacts |
| KissHistory.KissByBytes | apps/sysmon/clock_probe.cpp:152-166 | a result is a RATE, DENY or RSTR exactly by the bytes of a server's reply of stratum zero |
| KissHistory.FailureByBytes | apps/sysmon/clock_probe.cpp:139-172 | each failure reason by the bytes |
| ClockProbe.OutcomesSound | apps/sysmon/clock_probe.cpp:238-272 | over every run, at most one outcome per accepted probe, its details final and one to one with that probe's distinct hosts |
| ClockProbe.AggregateMeaning | apps/sysmon/clock_probe.cpp:244-263 | the aggregate is the first least (round trip, bound) of the measured servers, its fields all present or all absent |
| ClockProbe.MeasuredExactly | apps/sysmon/clock_probe.cpp:139-193 | a server is measured exactly when a usable datagram with consistent times arrived |
| ProbeAccuracy.MeasuredNumbers | apps/sysmon/clock_probe.cpp:174-193 | a measured server shows offset, bound and round trip of the sample of its own exchange, in milliseconds, and the stratum byte |
| ProbeAccuracy.BoundNumbers | apps/sysmon/ntp_codec.cpp:199-223 | the bound shown is half the round trip shown and the dispersion of bytes 8 to 11 |
| ProbeAccuracy.ReportedOffsetIsTrue | apps/sysmon/clock_probe.cpp:174-193 | the offset shown is within the bound shown of the true one, up to two nanoseconds |
| ProbeAccuracy.OutcomesAreExchanges | apps/sysmon/clock_probe.cpp:238-272 | over every run, every measured server of every outcome shows the numbers of one exchange, stamped at one reading of the clocks and answered at a later one |
| ProbeAccuracy.OutcomeIsDated | apps/sysmon/clock_probe.cpp:238-242 | over every run, an outcome handed over bears the wall time of the last reading taken, in whole milliseconds |
| ClockProbe.FailureExactly | apps/sysmon/clock_probe.cpp:139-172 | each failure reason is given exactly when it applies |
| ClockProber.Prober.Probe | apps/sysmon/clock_probe.cpp:58-114 | refuses while a round is in flight and otherwise runs the two phases |
| ClockProber.Prober.Sketch | apps/sysmon/clock_probe.cpp:83-96 | settles the servers that are not contacted and counts the others |
| ClockProber.Prober.Issue | apps/sysmon/clock_probe.cpp:98-109 | sends to each slot, with callbacks during the send |
| ClockProber.Prober.HandleExchange | apps/sysmon/clock_probe.cpp:126-203 | settles one slot, and finishes the round or asks the send loop to |
| ClockProber.Prober.Received | apps/sysmon/clock_probe.cpp:146-193 | a datagram turns the slot's detail into its verdict and its kiss code into the host's state |
| ClockProber.Prober.Unique | apps/sysmon/clock_probe.cpp:71-79 | the loop keeps the first of equal hosts |
| ClockProber.Prober.Begin | apps/sysmon/clock_probe.cpp:61-81 | a new token, blank details for the distinct hosts, and no slot open |
| ClockProber.Prober.NoteKiss | apps/sysmon/clock_probe.cpp:205-221 | blocks on DENY and RSTR, backs off on RATE, ignores the rest |
| ClockProber.Prober.FinishRound | apps/sysmon/clock_probe.cpp:238-272 | scans for the best server, resets the round and hands the outcome over once |
| ClockProber.JudgeManualTrigger | apps/sysmon/clock_probe.cpp:33-52 | allowed exactly when nothing is in flight and the interval since the last trigger has passed, if both are set |
| Thresholds.SubjectsAreIndependent | apps/sysmon/thresholds.cpp:159-309 | over every run, the records of a subject are those its own automaton gives for its own readings, whatever happens to the other subjects |
| ThresholdMeaning.UsageBreach | apps/sysmon/thresholds.cpp:234-259 | memory and swap breach exactly at or above their percentage; an absent ratio says nothing, a capability that is off ends the subject |
| ThresholdMeaning.CpuBreach | apps/sysmon/thresholds.cpp:174-188 | the processor breaches exactly when some core is saturated |
| ThresholdMeaning.VolumeBreach | apps/sysmon/thresholds.cpp:191-223 | a volume breaches exactly when less than the percentage of it is free |
| ThresholdMeaning.VolumeUnread | apps/sysmon/thresholds.cpp:197-203 | a volume that was not read says nothing, or that it is gone when it is not known any more |
| ThresholdMeaning.FrameRecords | apps/sysmon/thresholds.cpp:261-329 | what one frame logs of a subject, with level, value, limit and times, from any table |
| ThresholdMeaning.MemoryEntersExactly | apps/sysmon/thresholds.cpp:234-259 | from an empty table memory enters exactly then, as a warning with that ratio and limit |
| ThresholdMeaning.SwapEntersExactly | apps/sysmon/thresholds.cpp:234-259 | the same for swap |
| ThresholdMeaning.CpuEntersExactly | apps/sysmon/thresholds.cpp:174-188 | the same for the processor |
| ThresholdMeaning.VolumeEntersExactly | apps/sysmon/thresholds.cpp:191-223 | the same for a volume |
| ThresholdHistory.LogMeaning | apps/sysmon/thresholds.cpp:261-309 | Entered on the first breach after anything else, Recovered only on a good reading after a breach, Ongoing exactly at a milestone since the entry, nothing when the subject is gone |
| ThresholdHistory.RecordsAreHistory | apps/sysmon/thresholds.cpp:159-232 | a run's records of a subject are that history, tick by tick |
| ThresholdHistory.NewIntervalRealigns | apps/sysmon/thresholds.cpp:145-151 | the first breach with a new interval is silent and later milestones are multiples of the new one |
| ThresholdHistory.RepeatsNeverDrift | apps/sysmon/thresholds.cpp:137-157 | with one interval, at most as many repeats as whole intervals since the entry |
| ThresholdEvaluator.OutputOrdered | apps/sysmon/thresholds.cpp:225-231 | records come out in (kind, subject) order, at most one per subject when no mount is listed twice |
| ThresholdEvaluator.Evaluator.Evaluate | apps/sysmon/thresholds.cpp:159-232 | one evaluation of the table, as an object |
| ThresholdEvaluator.Evaluator.Transition | apps/sysmon/thresholds.cpp:261-309 | one subject advances by one reading and no other changes |
| ThresholdEvaluator.Evaluator.RepeatDue | apps/sysmon/thresholds.cpp:137-157 | due exactly at a milestone not yet recorded under an unchanged interval |
| ThresholdEvaluator.Evaluator.EraseKind | apps/sysmon/thresholds.cpp:331-333 | exactly the subjects of the kind are erased |
| ThresholdEvaluator.Evaluator.EvaluateUsage | apps/sysmon/thresholds.cpp:234-259 | a capability that is off clears the kind; an unreadable ratio changes nothing |
| ThresholdEvaluator.Evaluator.EvaluateCpu | apps/sysmon/thresholds.cpp:174-188 | no core readable changes nothing; an empty set of saturated cores is otherwise a good reading |
| ThresholdEvaluator.Evaluator.EvaluateVolumes | apps/sysmon/thresholds.cpp:191-223 | vanished volumes are cleared first, then each readable one advances |
| ThresholdEvaluator.Evaluator.EraseVanished | apps/sysmon/thresholds.cpp:197-203 | exactly the volumes not among the known mounts are erased |
| ThresholdEvaluator.MakeInputs | apps/sysmon/thresholds.cpp:71-135 | ratios are used shares in [0, 1] or absent; unreadable and zero-size volumes are known but not judged; the known mounts are those listed, sorted |
| ThresholdEvaluator.JudgedExactly | apps/sysmon/thresholds.cpp:108-130 | a volume is judged exactly when its capacity and free space are readable and the capacity is not zero |
| TextOrder.BinarySearch | apps/sysmon/thresholds.cpp:199-202 | on a sorted list the search finds exactly the members |
| TextOrder.LessIsDictionary | apps/sysmon/thresholds.cpp:225-231 | the order of names is dictionary order |
| TextOrder.SortIsStable | apps/sysmon/thresholds.cpp:227-230 | sorting by key leaves the records of one subject in their order |
| HistoryAggregates.FoldMeaning | libs/sysmonstore/src/records.cpp:8-24 | the incremental aggregate is the extremes, the mean, the last and the number of its values |
| HistoryAggregates.WindowAggregates | apps/sysmon/history_recorder.cpp:51-79 | every scalar and every slot folds exactly the values observed under it, slots have distinct keys, no observed key lacks one |
| HistoryWindows.BucketTiles | libs/sysmonstore/src/records.cpp:47-65 | for any time and phase, the bucket contains the time and starts on the grid of the phase |
| HistoryWindows.WindowsConserve | apps/sysmon/history_recorder.cpp:116-169 | closed windows and the open one together are the observed sequence, and each lies in one bucket |
| HistoryWindows.BatchesAreWindows | apps/sysmon/history_recorder.cpp:359-389 | the data handed out is one batch per closed window, in order, with that window's aggregates |
| HistoryWindows.RowsMean | apps/sysmon/history_recorder.cpp:359-389 | the rows of a window fold the values observed in it |
| HistoryWindows.MarksConserve | apps/sysmon/history_recorder.cpp:175-184 | every added mark is handed out exactly once and in order, or is still queued |
| HistoryWindows.MarksAreQueuedOrGaps | apps/sysmon/history_recorder.cpp:186-202 | all other marks handed out are gap marks of the windows that closed |
| HistoryWindows.GapExactly | apps/sysmon/history_recorder.cpp:94-105 | a window is marked exactly when its samples fall short under the configuration at its close, or ticks were reported missed |
| HistoryWindows.ExpectedIsWhatFits | apps/sysmon/history_recorder.cpp:94-105 | a full window holds as many measurements as fit into its interval, and at least one |
| HistoryWindows.GapNamesMissingExactly | apps/sysmon/history_recorder.h:69-70 | the number in a gap mark is the number of missing samples exactly when half of the expected ones were seen |
| HistoryWindows.OneOfSixty | apps/sysmon/history_recorder.h:69-70 | a run whose gap mark says one where 59 samples are missing |
| HistoryWindows.ReconfigureCutsExactly | apps/sysmon/history_recorder.cpp:107-114 | after a new configuration the open window goes on exactly when the next observation's bucket starts where it does |
| HistoryWindows.HalvingCutsTheMinute | apps/sysmon/history_recorder.cpp:107-142 | a run in which a new interval cuts the open window early |
| HistoryRecorder.Recorder.Observe | apps/sysmon/history_recorder.cpp:116-142 | closes the window when the bucket changes, then adds the snapshot |
| HistoryRecorder.Recorder.Flush | apps/sysmon/history_recorder.cpp:144-169 | closes the open window, or hands out the queued marks alone |
| HistoryRecorder.Recorder.ObserveDimension | apps/sysmon/history_recorder.cpp:60-79 | adds the value to the slot of its key, a new one if there is none |
| HistoryRecorder.Recorder.TakeBatch | apps/sysmon/history_recorder.cpp:359-389 | hands out the window and leaves everything empty |
| HistoryRecorder.Recorder.ObserveValues | apps/sysmon/history_recorder.cpp:204-357 | adds the snapshot's values one by one |
| HistoryRecorder.Recorder.MarkIfIncomplete | apps/sysmon/history_recorder.cpp:186-202 | adds the gap mark when it is due and nothing otherwise |
| HistoryRecorder.Recorder.DrainMarks | apps/sysmon/history_recorder.cpp:175-180 | hands out the queued marks and leaves the window alone |
| HistoryRecorder.Recorder.AddMark | apps/sysmon/history_recorder.cpp:182-184 | queues the mark behind the others |
| HistoryRecorder.Recorder.NoteMissedTicks | apps/sysmon/history_recorder.cpp:171-173 | adds to the ticks missed since the last window closed |
| HistoryRecorder.Recorder.Reconfigure | apps/sysmon/history_recorder.cpp:107-114 | replaces the configuration, an interval that is not positive by 60 seconds, and nothing else |
| CpuSaturation.MarkedExactly | apps/sysmon/cpu_saturation.cpp:28-53 | with one required count, a core is marked exactly when its last so many available readings since the last change of the core set are all high |
| CpuSaturation.CounterIsCappedStreak | apps/sysmon/cpu_saturation.cpp:28-53 | the counter is the run of high readings capped at the required count |
| CpuSaturation.MarksAreTrue | apps/sysmon/cpu_saturation.cpp:28-53 | whatever the counts along the way, a mark is never false |
| CpuSaturation.MarkedForAnyCounts | apps/sysmon/cpu_saturation.cpp:28-53 | for any counts and thresholds, a core is marked exactly when its run of high readings holds R readings, the j-th taken while at least j were required, R the count required last; its last R readings are all high exactly when the run holds R at all |
| CpuSaturation.OnTimeUnlessRaised | apps/sysmon/cpu_saturation.cpp:28-53 | if no reading of the run was taken while fewer were required than now, a core is marked exactly when its last R readings are all high |
| CpuSaturation.RaisedCountForgets | apps/sysmon/cpu_saturation.cpp:38-40 | a history whose last three readings are high, with three required, and whose core is not marked |
| CpuSaturation.Tracker.SyncStates | apps/sysmon/cpu_saturation.cpp:9-26 | keeps the counters exactly when the core set is unchanged |
| CpuSaturation.Tracker.Update | apps/sysmon/cpu_saturation.cpp:28-53 | advances every counter, marks every core in place and lists the marked ones |
| CpuSaturation.ListedAreMarked | apps/sysmon/cpu_saturation.cpp:46-52 | the list holds exactly the indices of the marked cores, in core order |
| CpuSaturation.Tracker.Reset | apps/sysmon/cpu_saturation.cpp:55-58 | forgets all counters and marks |
| Accounts.MirrorIsLatestWord | apps/master/shm_manager_frame.cpp:151-242 | after any frames and stops, an account is under a gateway exactly when the latest event concerning the two is a status other than Offline; no gateway has an empty set |
| Accounts.FallbackExactly | apps/master/shm_manager_frame.cpp:188-216 | a query naming an account is answered here exactly when no gateway's latest word about it is online |
| Accounts.StoppedGatewayLingersExactly | apps/master/shm_manager_frame.cpp:218-242 | once everything in the channel is read, a stopped gateway still holds an account exactly when the mirror did not list it at the stop and its last waiting frame was not Offline |
| Accounts.LingeringExample | apps/master/shm_manager_frame.cpp:218-242 | a run in which a stopped gateway keeps an account |
| Accounts.AccountMirror.HandleAccountStatus | apps/master/shm_manager_frame.cpp:151-186 | inserts or erases one account and never leaves an empty set |
| Accounts.AccountMirror.HandleQuery | apps/master/shm_manager_frame.cpp:188-216 | the search answers exactly when no gateway holds the account |
| Accounts.AccountMirror.NotifyTdStopped | apps/master/shm_manager_frame.cpp:218-236 | sends one Offline frame for each account of the gateway and forgets it |

## Left out

- Children are values in a list, not objects: terminating one replaces its entry, and what two handles on one child share is not captured.
- The supervisor's four timer maps are one map keyed by purpose and name; the moment a timer expires is a step of its own.
- A child on the list is running or stopping; the exit callback marks it stopped and takes it off in one step, so the checks for stopped children on the list have no counterpart.
- The configuration store is taken to hold what the registry holds; saving and loading files is not modelled.
- Finding the executable, the configured page size and the result of a spawn are answers of the environment, one per launch; opening channel metadata is assumed not to fail.
- The event channel's subscriber list, process-status frames, user notifications, log texts and the orphan guard.
- The hard timeout of ten seconds and releasing shared memory after a shutdown; forced termination of all children can happen at any step.
- Destroying a channel for good and replacing a reader table as a whole, which have no callers.
- Frames are given decoded; malformed payloads, which are dropped, do not appear, except frames too short for an account status or query.
- Account and gateway names are unbounded strings; fixed-size fields would truncate them.
- Notifying the account mirror of an exit belongs to `Accounts` and is not a step of the master model.
- Ratios, milliseconds and aggregates are exact reals: rounding of doubles is not captured, and a ratio that is not finite is an absent one.
- Which fields of a snapshot the recorder observes; a snapshot is the list of its available values, and the schema is a list of names.
- Merging aggregates, retention, clock-jump detection and the database behind the recorder.
- std::sort leaves the order of equal keys open; here it is stable, which shows only when a frame lists one mount twice.
- Log message texts of thresholds; the record's fields are modelled.
- The prober's completion handler may start a new probe, which is then the next step of the run; the timeout of an exchange is one of its results.
- CPU usage, disk, network and temperature arithmetic, snapshot building, the web interface and scripts.
- NtpCodec.DeriveSampleFits: the steady round trip is taken below 146 years either way, because the source does not bound it.
- NtpCodec.ErrorBoundIsSound: the three time differences are taken to be less than half an era, which is when they are exact, and the server's times to be whole nanoseconds; `NtpCodec.ErrorBoundForAnyServer` drops the latter.
- NtpCodec.ErrorBoundForAnyServer: the three differences of seconds are taken to be less than half an era.
- Supervisor.ProcessSupervisor.HandleStart: the configuration a start request may carry is applied first, which is a policy-change step of its own in the model; that the request then starts nothing when it cannot be applied is not captured.
- Supervisor.ProcessSupervisor.NotifyRemovedForInactive: the notice to the account mirror and the removal from the event channel are not part of the state.
- Supervisor.ProcessSupervisor.CleanUpAfter: account notices, configuration files, the event channel and the orphan guard are not part of the state.
- HistoryRecorder.Recorder.ObserveValues: which fields of the snapshot are observed is left to the caller.
- ReadyGate.ReadyGateHolds: automatic restarts are not gated in the source and are excluded; any frame may be read at any moment, so a STARTED may also be a stale one.
- RestartBudget.RestartBudgetHolds: it starts with no restart armed or queued, because it fails otherwise (`ManualLaunch.ManualBudgetExactly`); a launch by hand ends the chain the limit is about.
- CpuSaturation.MarkedExactly: the required count is the same throughout; `CpuSaturation.MarkedForAnyCounts` is the statement for counts that change.
