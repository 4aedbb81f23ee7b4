# Verified models of the cloud library's stateful parts

This project models four stateful components of the library and three small ones in Dafny, and proves what they are for.

- **Rolling instance refresh** (`InstanceRefresh*.dfy`). The persisted phase machine is a class whose methods are tied to value functions. It is studied twice: on *open* runs, where every poll may bring any cluster report and any instance list (`InstanceRefreshRuns.dfy`), and in a *closed loop* with the scale set it steers (`InstanceRefreshClosedLoop.dfy`), where runs may be infinite and progress is proved under fairness. `InstanceRefreshPolls.dfy` writes out what a single poll does in the numbers it is given, and `InstanceRefreshSchedules.dfy` shows that closed runs are open runs and that completion always stays possible.
- **Scale-down planner** (`ScaleDown*.dfy`). `ScaleDownHosts` derives a container's state and gives the sort order, `ScaleDownPlan` holds the counting argument, `ScaleDownGroups` has the loops over the host map, `ScaleDownCommands` specifies the commands a run may send, and `ScaleDown` has the response object, the two drivers and the termination gate. `ScaleDownEffects` and `ScaleDownOutcome` say what a finished run comes to for each container and machine of the host map. `ScaleDownRounds` and `ScaleDownReplan` are about one run after another, on lists and on host maps. Every loop over a Go map picks its next key nondeterministically, so its contract holds for every iteration order.
- **JSON-RPC 2.0 connection** (`JsonRpc*.dfy`). The request object is a class. Request goroutines (`JsonRpcServer`), callers (`JsonRpcClient`) and the reader (`JsonRpcConnection`) are interleaved as atomic steps, and the theorems are about every reachable state; `JsonRpcHistory` relates responses and outcomes to what was read and answered, `JsonRpcProgress` (requests) and `JsonRpcCallProgress` (calls, the reader) are about unending fair schedules, and `JsonRpcFairRuns` shows that every reachable state lies on one.
- **Header framing** (`HeaderStream.dfy`, `HeaderRoundTrip.dfy`, `HeaderErrors.dfy`, `Decimal.dfy`). The reader and writer methods, the functions they refine, their round trips, and the input behind each error.
- **Failover pool** (`JrpcPool.dfy`), **hash suffix** (`ElfHash.dfy`) and **password builder** (`Password.dfy`).

`GoMath.dfy` has Go's truncating division, `GoStrings.dfy` the substring tests and `Wrappers.dfy` the option type. The framing is the one of the Language Server Protocol (Base Protocol, Header Part), the reply rules are those of JSON-RPC 2.0 (sections 4.1 and 5), and the hash is the one of the System V ABI (section Hash Table).

Three promises turned out to hold only under a condition, and the condition is proved to be exact:

- The comment at `instance_refresh/instance_refresh.go:308` says that `stateChanged` means "the state was modified". That is right except when the originals are counted (phase Terminating, or waiting on the down side with the cluster healthy at the original size) and more of them are missing than the iteration may have replaced: then the call returns true and modifies nothing (`ChangedMeansModifiedUnlessTooManyReplaced`). Some run of a refresh gets there if and only if it has more originals than one iteration replaces (`CanReportFalseChangeIff`).
- Planning again, on the hosts with the chosen machines on their way out, picks the same machines in every sort order if and only if the plan is *covered*: every machine that is deactivating as a whole is chosen, and where a mixed machine is left out, each chosen machine has a container that the sort puts before its deactivating ones (`ReplanIsFixedIffCovered`). `PlanOfSampleChanges` is a concrete host map on which the plan changes. Without machines that mix deactivating and unhealthy containers a plan is always covered.
- The reader of a connection can block on a send under some schedule, and be stuck for good, if and only if the peer answers one id twice (`ReaderCanStickIffAnswerRepeats`). A reader that is blocked is stuck for good exactly when the call it serves is past receiving (`BlockedIsStuckIffCallIsDone`).

The comment at `scale_down/scale_down.go:153-162` gives the number of *new* deactivations. The code at lines 203-207 computes a *total* that is never below the number already deactivating, and the model follows the code.

Run `dafny verify dfyconfig.toml` to check the whole project.

## Model

| member | source | states |
|---|---|---|
| `InstanceRefresh.RefreshState.constructor` | instance_refresh/instance_refresh.go:132-148 | A new refresh is in its first iteration, provisioning, with the computed number of iterations |
| `InstanceRefresh.RefreshState.AdvanceStateMachine` | instance_refresh/instance_refresh.go:316-412 | The method that updates the record in place returns, and leaves behind, what the pure decision on phase, counts and health prescribes, errors included |
| `InstanceRefresh.RefreshState.CompleteIterationAndProceed` | instance_refresh/instance_refresh.go:275-287 | Either the next iteration starts with its scaled-up size, or the refresh is completed and asks for nothing |
| `InstanceRefresh.RefreshState.MarkIterationComplete` | instance_refresh/instance_refresh.go:206-213 | One duration is recorded when the iteration's start is known |
| `InstanceRefresh.RefreshState.StartNextIteration` | instance_refresh/instance_refresh.go:216-222 | The next iteration begins in provisioning with a fresh start time |
| `InstanceRefresh.RefreshState.MarkCompleted` | instance_refresh/instance_refresh.go:225-230 | The refresh is over, with its completion time |
| `InstanceRefresh.RefreshState.MarkCancelled` | instance_refresh/instance_refresh.go:233-238 | The refresh is cancelled, with its completion time |
| `InstanceRefresh.RefreshState.TransitionTo` | instance_refresh/instance_refresh.go:241-256 | Only the phase and the update time change |
| `InstanceRefreshPolls.HealthyIffAllUp` | instance_refresh/instance_refresh.go:20-43 | A report is healthy for a size if and only if IO is "STARTED", the status is "OK", and the active and the total containers and drives are the numbers that size, fleet and gateways ask for |
| `InstanceRefreshPolls.ErrorIsTrue` | instance_refresh/instance_refresh.go:24-42 | The error for an unhealthy report names the first thing that is wrong, with the number found and the number expected |
| `InstanceRefreshPolls.ScaledUpIs` | instance_refresh/instance_refresh.go:58-68 | The scaled-up size is the interval above the original, or in the last iteration what is left to replace if that is less |
| `InstanceRefreshPolls.ProvisioningEndsIff` | instance_refresh/instance_refresh.go:333-347 | Provisioning ends if and only if the list has reached the scaled-up size |
| `InstanceRefreshPolls.ScaleUpEndsIff` | instance_refresh/instance_refresh.go:325-359 | The wait after scaling up ends if and only if the list is full and every number in the report is right for the scaled-up size; it falls back to provisioning if and only if the list is too short |
| `InstanceRefreshPolls.ScaleDownEndsIff` | instance_refresh/instance_refresh.go:361-391 | The wait after scaling down ends if and only if every number in the report is right for the original size and not too many originals are gone, and it ends the iteration if and only if also all expected ones are gone and the list has the original size |
| `InstanceRefreshPolls.TerminatingEndsIff` | instance_refresh/instance_refresh.go:393-408 | Terminating ends if and only if exactly the expected originals are gone and the list has the original size; an error is given if and only if more are gone |
| `InstanceRefreshPolls.IterationEndsWith` | instance_refresh/instance_refresh.go:275-287 | An iteration that ends records the time it took and is followed by the next one, or completes the refresh when there is none |
| `InstanceRefreshPolls.DesiredFollowsPhase` | instance_refresh/instance_refresh.go:291-412 | The size a poll asks for is always the one that can be worked out from the state it leaves behind, and there is none if and only if the refresh is over |
| `InstanceRefresh.CountReplacedInstances` | instance_refresh/instance_refresh.go:178-191 | The two loops count the originals that are missing from the current list |
| `InstanceRefresh.ReplacedIsSetDifference` | instance_refresh/instance_refresh.go:178-191 | For distinct originals that count is the size of the set of originals that are gone |
| `InstanceRefresh.AllReplacedIffNoneLeft` | instance_refresh/instance_refresh.go:178-191 | All originals count as replaced if and only if none of them is in the list |
| `InstanceRefresh.TotalIterationsIsCeiling` | instance_refresh/instance_refresh.go:46-55 | The number of iterations is the least one whose steps cover the cluster, zero for an interval that is not positive, and for a negative size what truncating division gives |
| `InstanceRefresh.SurgeReplacesItsShare` | instance_refresh/instance_refresh.go:58-68 | Every surge is between 1 and k and takes the replaced count from min((i-1)k, n) to min(ik, n), short last iteration included |
| `InstanceRefresh.SurgesTelescope` | instance_refresh/instance_refresh.go:46-68 | The surges of the first i iterations add up to min(ik, n) |
| `InstanceRefresh.ExpectedReplacedIsTotalSurge` | instance_refresh/instance_refresh.go:264-270 | With n originals the expected count is exactly that sum, and the scaled-up size is in (n, n+k] |
| `InstanceRefresh.ChangedMeansModifiedUnlessTooManyReplaced` | instance_refresh/instance_refresh.go:308-397 | "Changed" tells whether the state was modified if and only if not too many originals are gone when they are counted; in that case, and only then, an error is returned |
| `InstanceRefreshRuns.FalseChangeIsReachable` | instance_refresh/instance_refresh.go:374-377 | For every plan with more originals than one iteration replaces, two polls with lists of distinct ids lead to a state in which a change is reported and none made |
| `InstanceRefreshRuns.CanReportFalseChangeIff` | instance_refresh/instance_refresh.go:374-397 | Some run, whatever is polled, reports a change and makes none if and only if there are more originals than one iteration replaces |
| `InstanceRefresh.HealthySizeIsUnique` | instance_refresh/instance_refresh.go:20-43 | One report cannot be healthy for two sizes unless a VM has neither containers nor drives |
| `InstanceRefreshRuns.RunKeepsPlan` | instance_refresh/instance_refresh.go:316-412 | No run changes the plan that was fixed when the refresh was triggered |
| `InstanceRefreshRuns.RunIsAccounted` | instance_refresh/instance_refresh.go:206-222 | On every run, whatever is polled, iteration bounds, the number of recorded durations and the number of changes agree |
| `InstanceRefreshRuns.CompletionCount` | instance_refresh/instance_refresh.go:325-408 | Reaching Completed took exactly 3T + s + 2f error-free changes and recorded T durations |
| `InstanceRefreshRuns.ProgressIsMonotone` | instance_refresh/instance_refresh.go:325-408 | The pair (iteration, up or down side) never moves backwards |
| `InstanceRefreshRuns.RunIsTimed` | instance_refresh/instance_refresh.go:206-238 | On every run the recorded durations add up to the time between the start and the start of the present iteration, of a completed refresh to its completion, and the update time is that of the last change |
| `InstanceRefreshRuns.CompletionSawExpectedReplacement` | instance_refresh/instance_refresh.go:362-408 | The step that completes saw a list of the original size and exactly the expected number of originals gone |
| `InstanceRefreshRuns.FullReplacementIffCovered` | instance_refresh/instance_refresh.go:362-408 | A completed refresh has replaced every original if and only if its iterations could cover all of them |
| `InstanceRefreshRuns.FullReplacement` | instance_refresh/instance_refresh.go:132-148 | With at most n originals, whatever was fed earlier, the list seen at completion has length n and no original |
| `InstanceRefreshRuns.RunIsWitnessed` | instance_refresh/instance_refresh.go:350-368 | Every run keeps a record of the healthy reports its iterations rest on |
| `InstanceRefreshRuns.CompletedIterationsWereHealthy` | instance_refresh/instance_refresh.go:350-368 | Every iteration that is behind, in a run in progress, completed or cancelled, saw a healthy report at the scaled-up size and later a different one at the original size |
| `InstanceRefreshRuns.WitnessesAreTwoReports` | instance_refresh/instance_refresh.go:20-43 | The two reports are different when VMs have containers or drives |
| `InstanceRefreshClosedLoop.ReachableInv` | instance_refresh/instance_refresh.go:316-412 | The invariant of the composed system holds after any legal sequence of launches, terminations, polls and cancels |
| `InstanceRefreshClosedLoop.ReachableIsSafe` | instance_refresh/instance_refresh.go:264-303 | Capacity stays between n and the scaled-up size, the lost originals within the iteration's bounds, and at Completed all n are gone |
| `InstanceRefreshClosedLoop.PollIsSafe` | instance_refresh/instance_refresh.go:291-412 | No poll of a reachable state errs; a returned size is the one expected for the new state; iteration i ends only with exactly min(ik, n) originals gone; there is no fallback to provisioning |
| `InstanceRefreshClosedLoop.StepHelpsOrIsQuiet` | instance_refresh/instance_refresh.go:325-408 | Every step lowers a rank or leaves all that matters alone; scaling steps and good polls of a settled system always lower it |
| `InstanceRefreshClosedLoop.FairRunCompletes` | instance_refresh/instance_refresh.go:305-412 | Every infinite run that is fair and sees healthy reports again and again reaches Completed, although desired-size writes may be lost |
| `InstanceRefreshSchedules.ClosedRunIsOpenRun` | instance_refresh/instance_refresh.go:316-412 | Every run of the closed loop is an open run of its state machine, so all theorems about open runs apply to it |
| `InstanceRefreshSchedules.CompletionStaysPossible` | instance_refresh/instance_refresh.go:305-412 | There are no dead ends: from every reachable state of a refresh that was not cancelled, some further actions complete it |
| `InstanceRefreshSchedules.CompletionIsReachable` | instance_refresh/instance_refresh.go:132-148 | For every plan and every n distinct originals some run of polls completes the refresh |
| `InstanceRefreshSchedules.ClosedCompletionCount` | instance_refresh/instance_refresh.go:325-408 | Without crashes a completed refresh took exactly 3T + s changes and no fallback |
| `ScaleDownHosts.HealthyHasNothingAgainstIt` | scale_down/scale_down.go:86-143 | A container is healthy if and only if it is a client, or not on its way out, all its drives stay, none failed after five minutes, and it is not down with a management node that has been down for two hours |
| `ScaleDownHosts.DeactivatingIffLeaving` | scale_down/scale_down.go:220-234 | A container that is no client is derived Deactivating if and only if the cluster is taking it out or it is a drive container with drives none of which is to stay |
| `ScaleDownHosts.UnhealthyIff` | scale_down/scale_down.go:220-244 | It is derived Unhealthy if and only if it is not leaving and some drive is going or failed, or it has been down for two hours |
| `ScaleDownHosts.DeactivatedIsDerived` | scale_down/scale_down.go:220-244 | A backend that is being deactivated, removed or inactive is derived Deactivating whatever its drives and nodes look like |
| `ScaleDownHosts.SortedByRank` | scale_down/scale_down.go:759-778 | Any result of the unstable sort is ordered by state |
| `ScaleDownHosts.SortedMeans` | scale_down/scale_down.go:759-778 | In a sorted list leaving hosts come before unhealthy ones and these before healthy ones; within a state those with more failed drives come first, then the older ones |
| `ScaleDownPlan.FirstIpsCount` | scale_down/scale_down.go:780-785 | The distinct IPs collected from the list are as many as the machines counted |
| `ScaleDownOutcome.FirstIpsInOrder` | scale_down/scale_down.go:780-785 | Machines are collected in the order of their first containers in the list |
| `ScaleDownPlan.MachinesArePartitioned` | scale_down/scale_down.go:169-196 | Every machine counts once: healthy, unhealthy or deactivating, however its containers mix |
| `ScaleDownPlan.SliceIsLegalIffDesiredNotNegative` | scale_down/scale_down.go:797-798 | Slicing the collected IPs at the target is legal if and only if the desired size is not negative |
| `ScaleDownPlan.TargetIsLeast` | scale_down/scale_down.go:203-207 | The target is at least the machines leaving, the excess over the desired size, and the unhealthy ones until two are on their way; beyond the first two it is never above the third, so never more than two are on their way for being unhealthy |
| `ScaleDownOutcome.RunTakesOutFewest` | scale_down/scale_down.go:729-801 | The machines a group run chooses are as many as these four rules ask for, over the healthy, unhealthy and leaving machines of the host map |
| `ScaleDownOutcome.AtMostTwoAtATime` | scale_down/scale_down.go:151-207 | When no container is leaving and the cluster is not above the desired size, a run chooses at most two machines, however many are unhealthy |
| `ScaleDownPlan.LowMachinesComeFirst` | scale_down/scale_down.go:759-785 | In a sorted list the machines with a container below a given state are exactly the first ones |
| `ScaleDownPlan.HealthyMachinesAreProtected` | scale_down/scale_down.go:170-207 | The chosen prefix has exactly max(0, H - T) of the H all-healthy machines, for any mix, any tie-breaking and any T >= 0 |
| `ScaleDownPlan.HealthyChosenOnlyInExcess` | scale_down/scale_down.go:797-801 | A healthy machine is chosen only if healthy ones alone exceed T, and then every other machine is chosen too |
| `ScaleDownRounds.MarkedMachines` | scale_down/scale_down.go:188-196 | What the marking of the chosen machines does to the three classes of machines in the next run |
| `ScaleDownRounds.ReplanCountIsFixedIffAllDeactivatingChosen` | scale_down/scale_down.go:203-207 | Planning again gives the same count if and only if every machine that was deactivating had been chosen |
| `ScaleDownRounds.CoveredPlanIsFixed` | scale_down/scale_down.go:759-801 | A covered plan comes out again in any sort order: same count, same machines, exactly those now deactivating |
| `ScaleDownRounds.UncoveredPlanMayChange` | scale_down/scale_down.go:759-801 | A plan that is not covered comes out differently for some result of the sort, by state, failed drives and time added |
| `ScaleDownReplan.RankingIsRemarked` | scale_down/scale_down.go:220-244 | The ranking of the host map in which the chosen machines are on their way out derives Deactivating for these and the same state as before for all others |
| `ScaleDownReplan.ReplanIsFixedIffCovered` | scale_down/scale_down.go:729-801 | The next run on that host map, which can be planned in its turn, picks the same machines in every sort order if and only if the present plan is covered |
| `ScaleDownReplan.ReplanIsFixedWithoutMixing` | scale_down/scale_down.go:797-801 | When no machine mixes deactivating and unhealthy containers the next run has the same count and picks exactly the machines now deactivating |
| `ScaleDownReplan.PlanOfSampleChanges` | scale_down/scale_down.go:759-801 | A concrete host map with three mixed machines and its ranking: two machines are chosen, and a ranking of the next host map picks others |
| `ScaleDownRounds.RoundProgress` | scale_down/scale_down.go:797-801 | A round of plan, mark and remove leaves min(H, T) healthy machines and removes at least as many machines as planned |
| `ScaleDownRounds.RoundsDrain` | scale_down/scale_down.go:797-801 | After at most one round per machine nothing unhealthy or deactivating is left, and exactly min(H, T) healthy machines are |
| `ScaleDownReplan.RunsDrain` | scale_down/scale_down.go:729-801 | The same for runs on host maps from which marked and deactivating machines have left, with H the healthy machines of the first map |
| `ScaleDownGroups.GetMachineToHostMap` | scale_down/scale_down.go:340-364 | Backends are grouped by IP, each once, in any map order; fatal if and only if a machine has more than three containers or two identities |
| `ScaleDownOutcome.BadMachineIff` | scale_down/scale_down.go:340-364 | A run is fatal if and only if some address has more than three backends, or two with different identifiers |
| `ScaleDownGroups.GroupIsExact` | scale_down/scale_down.go:344-348 | A machine's list has exactly its backend containers |
| `ScaleDownGroups.ClassifyGroup` | scale_down/scale_down.go:729-755 | With known modes the inactive machines and the remaining hosts do not depend on map order |
| `ScaleDownOutcome.InactiveIff` | scale_down/scale_down.go:366-373 | A machine counts as inactive if and only if it has backends and all of them are |
| `ScaleDownGroups.ClassifyLeftOver` | scale_down/scale_down.go:887-924 | With known modes the inactive machines, the set of down machines and the number of errors do not depend on map order; the down list has no duplicates and no inactive machine; hosts that stay are listed unless their machine is down |
| `ScaleDownOutcome.LeftOverMeans` | scale_down/scale_down.go:887-924 | A leftover machine is kicked out if and only if a backend on it has been down for longer than the timeout and none on it is up; the errors are the long-down backends on other machines; the hosts listed are those that are neither inactive nor down for too long |
| `ScaleDownGroups.CalculateHostsState` | scale_down/scale_down.go:246-251 | Every host gets its derived state |
| `ScaleDownGroups.CollectIps` | scale_down/scale_down.go:780-785 | The loop collects every IP once, at its first occurrence |
| `ScaleDownGroups.TallyMachines` | scale_down/scale_down.go:169-186 | The loop counts each machine's containers by state, clients left out |
| `ScaleDownGroups.GetNumToDeactivate` | scale_down/scale_down.go:151-201 | The result is the target formula applied to the numbers of healthy, unhealthy and deactivating machines, in any map order |
| `ScaleDown.ScaleResponse.DeactivateMachine` | scale_down/scale_down.go:384-452 | Each active drive is deactivated once, each NFS host's port deleted, and then one command names all containers; failures are noted; the machine's address leaves the pool if and only if that last command succeeds; an empty list panics |
| `ScaleDown.ScaleResponse.SelectInstanceByIp` | scale_down/scale_down.go:253-260 | An instance with the address, or none if there is none |
| `ScaleDown.ScaleResponse.RemoveContainers` | scale_down/scale_down.go:284-313 | The containers up to the first that is not inactive, which is fatal, are removed one by one, those that succeed with all their drives; exactly the instances of these are set to terminate |
| `ScaleDown.ScaleResponse.RemoveInactive` | scale_down/scale_down.go:275-318 | The same for every inactive machine, each once and dropped from the pool before its containers, in some order of the machines; fatal if and only if one has a container that is not inactive, and then the run has ended in front of that container, with the commands, terminations and drops up to there |
| `ScaleDownCommands.RunDeactivatesExactly` | scale_down/scale_down.go:795-801 | The commands of a run deactivate exactly the machines of its list, each once and with all its containers |
| `ScaleDownCommands.RunTouches` | scale_down/scale_down.go:275-452 | Every command of a run removes a container whose status is inactive, or one of its drives, on a machine that is removed, or deactivates an active drive, a port or all containers of a machine that is deactivated |
| `ScaleDownOutcome.InactiveContainerIsRemoved` | scale_down/scale_down.go:284-313 | Each container with status inactive on a removed machine is asked to go; if that succeeds its drives are removed after it, and if an instance has its address one with that address is set to terminate |
| `ScaleDownOutcome.ChosenMachineIsDeactivated` | scale_down/scale_down.go:384-452 | Each chosen machine is asked to deactivate with exactly its containers, after each of its active drives and ports, and leaves the pool if that succeeds |
| `ScaleDownOutcome.RemovalsComeFirst` | scale_down/scale_down.go:795-801 | A run sends all its removals before it deactivates anything |
| `ScaleDownOutcome.FailuresAreCounted` | scale_down/scale_down.go:262-318 | The errors noted for commands are as many as the commands that failed |
| `ScaleDownOutcome.GroupReportsPlanned` | scale_down/scale_down.go:803-811 | A group run reports exactly the hosts that are no clients and stand outside inactive machines, each once, with its id, instance, address, state and time |
| `ScaleDown.PlanGroup` | scale_down/scale_down.go:729-797 | The list planned with is a sorted ranking of exactly the hosts outside inactive machines, and every IP in it has containers |
| `ScaleDown.ActOnPlan` | scale_down/scale_down.go:795-811 | Removal is never fatal; the run panics if and only if the prefix does not exist or a chosen machine has no containers; otherwise the commands, the terminations, the addresses dropped from the pool and the reported hosts are exactly those of the plan |
| `ScaleDown.ScaleHgDown` | scale_down/scale_down.go:704-814 | With known modes the run is fatal only for a bad machine and panics if and only if the desired size is negative; otherwise it removes the inactive machines, deactivates exactly the target prefix, drops from the pool what was removed or successfully deactivated, and reports exactly the hosts it planned with |
| `ScaleDown.RunTouchesOnly` | scale_down/scale_down.go:795-811 | Such a run deactivates the chosen machines and no other, every command belongs to an inactive machine it removes or to a chosen one, only instances on inactive machines are set to terminate, and besides the inactive machines only chosen ones leave the pool |
| `ScaleDown.HandleLeftOverHosts` | scale_down/scale_down.go:879-946 | With known modes the run never panics, is fatal only for a bad machine, removes the inactive machines, deactivates exactly the machines down for too long, each once, notes the partly down hosts and reports the listed ones |
| `ScaleDownOutcome.ListIsReported` | scale_down/scale_down.go:937-945 | Each leftover host that stays is reported once, in order, with its id, instance, address, state and time |
| `ScaleDown.RankingCountsHealthyIps` | scale_down/scale_down.go:729-797 | The machines counted as healthy are the addresses none of whose containers is on its way out, failed or down for long |
| `ScaleDown.RunProtectsHealthyMachines` | scale_down/scale_down.go:704-801 | Of the H healthy machines of the host map a run chooses exactly max(0, H - T), whatever map order and sort did |
| `ScaleDown.DeltaIps` | scale_down/scale_down.go:836-856 | The addresses of instances that are missing from the response or set to terminate |
| `ScaleDown.ValidateDelta` | scale_down/scale_down.go:827-876 | The run aborts if and only if some container that is neither inactive, nor being removed, nor a down client about to go stands at an address of an instance that is to terminate or is not reported |
| `JsonRpcRequest.RequestObject.GoParallel` | lib/jsonrpc2/jsonrpc2.go:225-231 | The channel is closed on the first call only |
| `JsonRpcRequest.RequestObject.Reply` | lib/jsonrpc2/jsonrpc2.go:240-287 | A second reply and a reply to a notification are refused and change nothing; otherwise the request is parallel, replied, and the response carries its id and the answer |
| `JsonRpcRequest.ResponseCarriesAnswer` | lib/jsonrpc2/jsonrpc2.go:252-268 | A response carries its request's id and either the result or the error: an RPC error as it is, any other with its message and code 0 |
| `JsonRpcHistory.ResponseTellsWhatHappened` | lib/jsonrpc2/jsonrpc2.go:240-287 | Every response handed over carries the first answer that a handler of its request gave, or error -32603 if a handler took the request and none answered, or -32601 if none took it; an ended call has handed exactly one unless an answer could not be encoded |
| `JsonRpcHistory.EachHandlerOnce` | lib/jsonrpc2/jsonrpc2.go:376-381 | An ended request has been offered to each handler once, in turn |
| `JsonRpcHistory.EndedIsCancelled` | lib/jsonrpc2/jsonrpc2.go:366-375 | A request's context is cancelled at the latest when its goroutine ends |
| `JsonRpcHistory.RunKeepsIds` | lib/jsonrpc2/jsonrpc2.go:332-363 | Requests, calls and answers are exactly those read and made, in order and with their ids |
| `JsonRpcHistory.StopsIffStreamFails` | lib/jsonrpc2/jsonrpc2.go:323-330 | The reader has stopped if and only if the stream has failed |
| `JsonRpcServer.StepKeepsInv` | lib/jsonrpc2/jsonrpc2.go:321-383 | Every atomic step of a request goroutine keeps the server's invariant |
| `JsonRpcServer.StepKeepsHandling` | lib/jsonrpc2/jsonrpc2.go:289-300 | The handling table names exactly the registered requests as long as ids are not reused |
| `JsonRpcClient.StepKeepsInv` | lib/jsonrpc2/jsonrpc2.go:158-209 | Every atomic step of a caller keeps the client's invariant, also while the reader holds a looked-up channel |
| `JsonRpcConnection.RunInv` | lib/jsonrpc2/jsonrpc2.go:317-404 | The invariant holds after every legal interleaving of reader, goroutines and callers |
| `JsonRpcConnection.BatonOrder` | lib/jsonrpc2/jsonrpc2.go:321-383 | Requests start in arrival order, at most one is serial, a request starts only after all before it went parallel, each channel is closed at most once, and exactly once when its goroutine has ended |
| `JsonRpcConnection.ServerNeverStalls` | lib/jsonrpc2/jsonrpc2.go:363-383 | While a spawned goroutine has not ended, it or one before it can take a step |
| `JsonRpcProgress.EveryRequestEnds` | lib/jsonrpc2/jsonrpc2.go:363-383 | On every infinite schedule on which handlers return and writes end, every spawned request comes to its end, a call answered exactly once |
| `JsonRpcCallProgress.EveryCallReturns` | lib/jsonrpc2/jsonrpc2.go:158-209 | On every infinite schedule on which writes end, ready calls go on and the reader passes on what it has, an inserted call whose context ends or whose answer is read returns, and has no pending entry from then on |
| `JsonRpcCallProgress.ReaderComesBack` | lib/jsonrpc2/jsonrpc2.go:323-404 | On such a schedule, if the peer answers each id at most once, the reader always gets back to the stream |
| `JsonRpcFairRuns.FairRunExtends` | lib/jsonrpc2/jsonrpc2.go:317-404 | Whatever has happened on a connection, some infinite schedule that is fair to all requests, all calls and the reader begins with it |
| `JsonRpcFairRuns.ReachableOnFairRun` | lib/jsonrpc2/jsonrpc2.go:317-404 | Every reachable state lies on such a schedule, so fairness excludes nothing that can happen |
| `JsonRpcFairRuns.SpawnedOnFairRun` | lib/jsonrpc2/jsonrpc2.go:332-363 | For instance, a fair schedule on which a request with any id, or a notification, is read and spawned |
| `JsonRpcConnection.RepliesExactlyOnce` | lib/jsonrpc2/jsonrpc2.go:363-383 | A finished call has handed the stream exactly one response, with its id and the first answer given or the default error; a notification none |
| `JsonRpcConnection.NeverTwoResponses` | lib/jsonrpc2/jsonrpc2.go:240-287 | At no time have two responses been handed over for one request, or one before it went parallel |
| `JsonRpcConnection.RefusedReplyChangesNothing` | lib/jsonrpc2/jsonrpc2.go:241-246 | A reply leaves the whole connection unchanged if and only if it is refused |
| `JsonRpcConnection.CancelHitsExactly` | lib/jsonrpc2/jsonrpc2.go:89-96 | Cancelling an id reaches exactly the registered request with that id |
| `JsonRpcConnection.PendingIsExact` | lib/jsonrpc2/jsonrpc2.go:162-173 | The keys of the pending table are exactly the calls between insert and delete |
| `JsonRpcConnection.ResponseIsForItsCall` | lib/jsonrpc2/jsonrpc2.go:184-199 | A call that returns a response got the one with its own id |
| `JsonRpcHistory.OutcomeTellsWhatHappened` | lib/jsonrpc2/jsonrpc2.go:175-208 | A call returns a write error if and only if its write failed, the context's error if and only if its context ended while it waited, and otherwise a response with its id that was read from the stream as it is |
| `JsonRpcConnection.ReaderNeverBlocks` | lib/jsonrpc2/jsonrpc2.go:384-397 | If the peer answers each id at most once the reader never blocks on the send, even for a call cancelled after the lookup |
| `JsonRpcConnection.BlockedIsStuckIffCallIsDone` | lib/jsonrpc2/jsonrpc2.go:387-397 | No continuation gets a blocked reader back to the stream if and only if its call is past receiving |
| `JsonRpcConnection.Unblocks` | lib/jsonrpc2/jsonrpc2.go:175-185 | Otherwise, also when the call is still writing its request, a continuation that does is built |
| `JsonRpcConnection.ReaderCanStickIffAnswerRepeats` | lib/jsonrpc2/jsonrpc2.go:387-397 | A sequence of answers can block the reader under some schedule, and stick it for good, if and only if an id occurs in it twice |
| `HeaderStream.Stream.ReadString` | lib/jsonrpc2/stream.go:97 | Takes the first line with its newline off the input, or all of it when there is none |
| `HeaderStream.Stream.ScanHeader` | lib/jsonrpc2/stream.go:94-123 | The header loop computes what the recursive reading of the input line by line says |
| `HeaderStream.Stream.Read` | lib/jsonrpc2/stream.go:88-133 | One read returns, counts and consumes what the frame reader prescribes, for any input and every error |
| `HeaderStream.Stream.Write` | lib/jsonrpc2/stream.go:135-150 | One write emits the frame, or the part of it the underlying writer takes, and returns the number of bytes emitted |
| `HeaderStream.HeaderStep` | lib/jsonrpc2/stream.go:96-123 | What a header line does depends on the line alone, not on what follows |
| `HeaderErrors.FrameBytes` | lib/jsonrpc2/stream.go:143 | A frame is "Content-Length: ", the length in decimal, an empty line and the message |
| `HeaderErrors.SpacesAreUnicode` | lib/jsonrpc2/stream.go:101-109 | The bytes that are trimmed are the encodings of the characters that Unicode counts as white space |
| `HeaderErrors.TrimSpaceStrips` | lib/jsonrpc2/stream.go:101-109 | Trimming takes white space off both ends, nothing else, and leaves none there |
| `HeaderErrors.CutHeaderFails` | lib/jsonrpc2/stream.go:97-100 | Input that ends inside the header is an error and is used up |
| `HeaderErrors.LineWithoutColonFails` | lib/jsonrpc2/stream.go:105-108 | After any valid fields, a line that is not blank and has no colon is an error |
| `HeaderErrors.BadLengthFails` | lib/jsonrpc2/stream.go:111-119 | After any valid fields, a length that is no 32-bit number, or not positive, is an error |
| `HeaderErrors.NoLengthFails` | lib/jsonrpc2/stream.go:125-127 | A header without a length is an error |
| `HeaderErrors.ShortBodyFails` | lib/jsonrpc2/stream.go:128-131 | A body that is cut short is an error; it is consumed and not counted |
| `Decimal.ParseItoa` | lib/jsonrpc2/stream.go:114 | Parsing printed decimals gives the number back if and only if it fits in 32 bits |
| `Decimal.ParsesNumbers` | lib/jsonrpc2/stream.go:114 | Digits with or without a sign are parsed if and only if the number fits in 32 bits |
| `Decimal.ParsesNothingElse` | lib/jsonrpc2/stream.go:114 | Nothing else is parsed |
| `Decimal.LeadingZero` | lib/jsonrpc2/stream.go:114 | Zeros in front do not change the number |
| `HeaderRoundTrip.ClassifyField` | lib/jsonrpc2/stream.go:102-122 | A line splits at its first colon; only the exact name carries the length |
| `HeaderRoundTrip.FieldsAreRead` | lib/jsonrpc2/stream.go:94-123 | A run of valid fields is consumed in full and only its last length matters |
| `HeaderRoundTrip.HeaderIsTransparent` | lib/jsonrpc2/stream.go:88-133 | Extra well-formed fields before and after the length change nothing but the byte count |
| `HeaderRoundTrip.RoundTrip` | lib/jsonrpc2/stream.go:88-150 | For every message, reading what was written gives it back with the count written and the rest untouched; exactly the empty and the over-long ones are refused |
| `HeaderRoundTrip.StreamRoundTrip` | lib/jsonrpc2/stream.go:88-150 | Every sequence of messages of legal length comes back from the concatenated frames |
| `HeaderRoundTrip.ReadIsAccounted` | lib/jsonrpc2/stream.go:88-133 | For any bytes the count says how far the reader went, and a message is the legal-length slice just before the rest |
| `GoStrings.AnyOfSubstr` | lib/strings/strings.go:19-26 | Whether any of the variants occurs in the string |
| `GoStrings.ContainsIff` | lib/strings/strings.go:21 | A variant occurs in a string if and only if the string is the variant with something before and after it |
| `JrpcPool.RetryableIff` | lib/jrpc/pool.go:52 | A failure is worth a retry if and only if its message has one of the four phrases |
| `JrpcPool.Pool.Drop` | lib/jrpc/pool.go:22-37 | The last endpoint takes the place of the first match; the active endpoint is cleared if it is the one dropped |
| `JrpcPool.Pool.Call` | lib/jrpc/pool.go:39-60 | The recursive method makes the client calls, and leaves the pool, that the retry function prescribes |
| `JrpcPool.WithoutDropsOne` | lib/jrpc/pool.go:30-36 | Dropping removes one occurrence and keeps all others |
| `JrpcPool.WithoutAt` | lib/jrpc/pool.go:30-36 | The last endpoint takes the place of the first match and every other endpoint keeps its own |
| `JrpcPool.CallStartsAt` | lib/jrpc/pool.go:40-58 | The first endpoint called is the active one, or else the first of the pool, which stays active unless its failure is worth a retry |
| `JrpcPool.CallEndsWell` | lib/jrpc/pool.go:39-60 | At most one call per endpoint (one more for a stale active one); nil only after a success or with no endpoint left and all tried; an error only for a failure not worth a retry, its endpoint kept; every endpoint given up had failed retryably |
| `JrpcPool.CallConservesEndpoints` | lib/jrpc/pool.go:39-60 | As multisets, the old endpoints are the new ones plus those given up |
| `ElfHash.Accumulate` | lib/strings/strings.go:53-62 | The loop computes the hash as the System V ABI words it |
| `ElfHash.FoldAndClear` | lib/strings/strings.go:57-60 | Masking to 28 bits equals clearing the bits that were folded, for every 32-bit value |
| `ElfHash.ByteIsWhole` | lib/strings/strings.go:56 | All eight bits of each byte count |
| `ElfHash.HashIs28Bits` | lib/strings/strings.go:53-63 | The hash is below 2^28 for every string, despite wraparound |
| `ElfHash.HashTextIsShort` | lib/strings/strings.go:62 | Its decimal form has one to nine digits |
| `ElfHash.ElfHashSuffixed` | lib/strings/strings.go:65-71 | The method returns the name, or its prefix with the hash, or nothing where the slice panics |
| `ElfHash.SuffixedFits` | lib/strings/strings.go:65-71 | From a limit of ten on, a long name becomes exactly maxLength characters: a prefix of it, a dash and the hash |
| `ElfHash.NeverFailsIffTen` | lib/strings/strings.go:70 | The slice is safe for all names if and only if the limit is at least ten |
| `Password.GeneratePassword` | utils/password.go:8-54 | It panics if and only if an index runs out of range; otherwise the length is right, every character is a letter or digit, and with non-negative minimums each kind occurs often enough, for all random choices |
| `Password.Compose` | utils/password.go:17-48 | Before the shuffle no byte is left unset and the minimums are met |
| `Password.Shuffle` | utils/password.go:51-53 | Whatever is swapped, the characters stay the same |
| `Password.CountPermuted` | utils/password.go:51-53 | Counts by kind do not depend on order |
| `Password.AlphabetIsComplete` | utils/password.go:9-11 | Each alphabet has exactly the characters of its kind |

## Left out

- Integer width: `int` is unbounded, so overflow of Go's 64-bit `int` is not modelled. The 32-bit arithmetic of the hash and of `ParseInt` is.
- Clock: every step of the refresh and every planning run reads the clock once, as a parameter.
- `CalculateProgress`, `FormatDuration`, `UpdateReport`, `calculateAverageDuration` and `CanTrigger`: display or one-line bookkeeping. `LastError` is not part of the refresh state.
- RefreshState: a returned desired size is a value, not a reference into the record.
- FairRunCompletes: the scale set neither loses instances on its own nor launches an id twice, and the fleet's container and drive numbers stay fixed during a run. An instance that crashes during scale-down can stall the real refresh.
- JsonRpcConnection: the connection is a set of states with atomic steps and not a class, because its methods run concurrently on many goroutines; the request object, which only its own goroutine updates, is the class. Looking up a request and cancelling it is one step. Contexts are a flag, JSON is opaque (a result either encodes or does not), the messages of the two default errors leave out the method name, and handler hooks other than `Deliver` are skipped.
- EveryCallReturns: whether a context is over is a parameter of the schedule, and fairness between a response and an ended context is not decided.
- RepliesExactlyOnce: handlers reply on their own goroutine, as the source demands, and a response counts once it is handed to the stream, whether or not the write then fails.
- `plainStream`, `Notify` and the JSON encoding of ids, versions and errors: they rest on `encoding/json`.
- HeaderStream: bytes are chars, the buffered reader is the bytes still to come, a failing writer is one that takes only so many more bytes, and the write lock is not modelled.
- The top level of `ScaleDown`, host-group membership, the removal of old drives and the emission of events: I/O around the planner.
- ScaleHgDown: RPCs are recorded as commands with outcomes chosen from outside, and drops from the pool as a list of addresses that is not applied to the `Pool` class. A slice beyond the length but within the capacity panics here and not in Go; `SliceIsLegalIffDesiredNotNegative` shows that it does not come up with known modes.
- ScaleHgDown: what is planned, sent and reported is stated for containers that are clients or backends; for other modes only the grouping and the fatal condition are.
- ClassifyLeftOver: whether a host on a down machine is listed among those that stay depends on the order in which the map is visited, and nothing is said about it.
- ReplanIsFixedIffCovered: both runs read the same clock, and between them nothing changes but the chosen machines.
- SortHosts: it stands for the library's sort, and only its being a sorted permutation is used.
- RemoveContainers: an instance is set to terminate for each container that was removed, as in the source; that all containers of the machine were removed is not claimed.
- Pool: concurrent callers, the builder, and sharing of the array behind `Ips` with the caller are not modelled. The k-th client call of a `Call` gets an arbitrary answer.
- GeneratePassword: random choices are arbitrary, so nothing is said about their distribution.
- Shell script generators, HTTP transport, tokens, connectors, Weka id parsing and the netmask table: templates, network plumbing or easy tables.
