# Application Health Extension: a verified model

The Application Health Extension is a daemon that Azure runs on a VM. Its `enable` command probes an
application, debounces what the probe says, holds back during a grace period, and writes the result
to a status file. It also starts and restarts a second program, VMWatch, and when a new configuration
arrives a new process takes over from the old one.

This project models the state machines behind that and proves what they keep, over every input, every
run and every interleaving. Verify it with `dafny verify dfyconfig.toml`.

| part | modules | main results |
|---|---|---|
| Health commit machine | `Health`, `Debounce`, `GraceSpec`, `CommitMachine` | the loop's counter, previous state, committed state and grace flag are, after every pass, functions of the whole history given in closed form (`CommitMachine.Machine.Step`) |
| Hysteresis | `Hysteresis` | changes are N probes apart and each follows N probes of the new state; T probes bring at most T / N changes |
| Settings, probes and time | `Settings`, `Probe`, `Timeline` | which settings are accepted, what each probe makes of the network; a short grace period always expires, a default one is bypassed by N good probes, a new state is committed within four minutes |
| The enable process | `VMWatch`, `EnableLoop` | the sequence of status writes of a whole process, contents included, and what the settings make of them |
| Takeover | `Takeover`, `TakeoverSafety`, `TakeoverExclusion`, `TakeoverRuns`, `TakeoverStop`, `TakeoverPaths`, `TakeoverOverlap`, `TakeoverProgress`, `Discovery`, `EnablePre`, `EnableCommand`, `TakeoverLink` | any number of processes, crashes anywhere: one server at a time, status files owned, superseded processes leave, a process told to stop stops; a starter is never stuck; with one starter at a time the recorded number never goes down; the enable process is a process of the protocol |
| VMWatch retries | `RetryTrace`, `RetryScheduler`, `Rendezvous`, `VMWatchStatusLink` | attempt budget, waits, counters, shutdown, the order of sends, and the status the loop shows, and reports, in every interleaving |
| Bounded monitors | `KillProcess`, `HeartbeatMonitor`, `LogFreshness` | the only traces killing can leave, when a hung VMWatch is killed, when a live process can be mistaken for a stale one |
| Redaction | `Rewriter`, `Redact` | every query of every URL is replaced, nothing else is, none is left in the output, and what is logged does not depend on it |

Conventions. Durations are integers in nanoseconds, as in Go; where the rounding of a time matters, in
`LogFreshness`, times are real numbers of seconds and the rounding is part of the model. Clocks, probe
results, signals, the process table, reads of the register and answers on the channel are parameters
that range over everything they can be. The enable loop runs for ever in the source; here it runs over
an arbitrary finite sequence of passes and says so when it is still going at the end.

Notes on the source.

- The comment at main/cmds.go:275-278 says that the first commit needs a Healthy status. The code at
  main/cmds.go:371 commits the first state whatever it is, and the model follows the code.
- The read of the recorded number (main/cmds.go:96) and its write (main/cmds.go:136) are not locked.
  Mutual exclusion, the ownership of status files and the departure of superseded processes do not
  depend on that. What does is that the recorded number never goes down and that a process signals
  others only when the recorded number is its own: these hold with one starter at a time, which is
  the parameter `oneStarter` of `Takeover.Enabled`, and without that rule the number can go down from
  every state (`TakeoverOverlap.OverlappingStartersLowerTheRecord`).
- "Without loss" in the takeover results means: no discovery missed a live process, and no kill gave
  up on one. `Takeover.World` remembers a loss for ever in `lossy`; a kill that returns nil is none
  (`TakeoverLink.NilLosesNothing`).
- The thresholds of main/constants.go:15-21 leave exactly 59 s for the time between loop heads and the
  start-up of a second process together. Up to that a live process always looks fresh; beyond it, it
  can look stale, and is then killed (`LogFreshness.TheMarginIsExact`).

## Model

| member | source | states |
|---|---|---|
| `CommitMachine.Machine.Step` | main/cmds.go:340-380 | for every probe state and elapsed time, the counter, previous state, committed state and grace flag after the pass equal their closed forms over the history extended by that observation |
| `CommitMachine.Advance` | main/cmds.go:340-380 | the same of the four variables of the loop by themselves |
| `Debounce.DebouncedIsMostRecentWindow` | main/cmds.go:275-280 | the debounced value is that of the most recent window of N equal consecutive states |
| `Debounce.DebouncedWithoutWindow` | main/cmds.go:275-278 | without any such window it is the first state |
| `Debounce.WrapIsRemainder` | main/cmds.go:377-379 | the wrapping counter is the remainder of the run length by N |
| `GraceSpec.GraceEndIsFirst` | main/cmds.go:282-284 | grace ends at the first observation that is late or completes N equal valid ones |
| `GraceSpec.CommittedIsReportable` | main/health.go:38-64 | after every pass the committed state is not empty, is Initializing exactly during grace, and is reported as an error exactly if Unhealthy or Unknown, so never during grace |
| `GraceSpec.GraceNeverReturns` | main/cmds.go:350-369 | once over, grace is over in every longer history, at the same observation |
| `GraceSpec.CommittedWasObserved` | main/cmds.go:355-380 | a committed state was observed, or is the after-grace state of a grace period that expired |
| `GraceSpec.UnknownNeedsHttp` | main/health.go:102-121 | with a TCP or the default probe Unknown is never committed |
| `Hysteresis.ChangesAreNApart` | main/cmds.go:340-380 | any two changes are at least N observations apart and the later one follows N consecutive real probes of the state it commits |
| `Hysteresis.NEqualProbesCommit` | main/cmds.go:371-380 | any N consecutive probes of one state after grace end with it committed |
| `Hysteresis.AtMostOneChangePerNProbes` | main/cmds.go:340-380 | T probes after the one that ends grace bring at most T / N changes |
| `Settings.WhichAreAccepted` | main/handlersettings.go:78-95 | settings are accepted if and only if their numbers are in the schema's ranges, TCP has a port and no path, and interval times probes, 5 s and 1 where not set, is at most 240 |
| `Settings.AcceptedSettings` | main/handlersettings.go:47-95 | settings that pass the schema ranges and validation have 5 <= interval * probes <= 240 and a positive grace period |
| `Probe.NetworkDecides` | main/health.go:102-256 | TCP says Healthy exactly if it connects, HTTP and HTTPS say Healthy or Unhealthy exactly if a response from 200 to 299 says so in its body, else Unknown; no protocol means Healthy |
| `Probe.WhatProbesReturn` | main/health.go:81-100 | what the probe of a protocol can return is exactly what it makes of some network |
| `Probe.ReportedStateFitsTheProbe` | main/health.go:127-264 | in the status file, Unknown occurs only with HTTP and HTTPS, and without a protocol Unhealthy only once grace has expired |
| `Timeline.LooksArePaced` | main/cmds.go:419-423 | the k-th look at the grace period, from 0, is no earlier than k intervals in, however long anything takes |
| `Timeline.ShortGraceAlwaysExpires` | main/cmds.go:350-369 | a grace period of at most N - 1 intervals is never bypassed: it is over by the N-th pass and ends in the after-grace state |
| `Timeline.IdenticalStartBypasses` | main/cmds.go:353-363 | N identical valid probes from the start bypass grace if and only if the last is looked at in time |
| `Timeline.DefaultGraceIsBypassed` | main/handlersettings.go:65-72 | with the default grace period and a prompt loop they always do, and are committed |
| `Timeline.NewStateIsCommitted` | main/cmds.go:340-423 | a state taken at time t after grace and kept is committed by the N-th probe from then, however long probes, reports and sleeps take |
| `Timeline.PassLengthIs` | main/cmds.go:419-423 | a pass takes the interval or its own work, whichever is longer, plus what the sleep and the next loop head add |
| `Timeline.NewStateIsCommittedInTime` | main/cmds.go:340-423 | that probe starts less than N times the longest pass after t |
| `Timeline.NewStateIsCommittedWithinFourMinutes` | main/handlersettings.go:89-92 | for validated settings the N-th probe always commits the new state, and if no pass exceeds the interval it starts less than 240 s after t |
| `Timeline.PromptLoopCommitsInTime` | main/cmds.go:419-423 | in a loop without overhead and with probes shorter than the interval it always does |
| `EnableLoop.Pass` | main/cmds.go:286-427 | one pass, from the look at the recorded number to the end of the sleep, keeps all variables of the loop equal to their closed forms and adds exactly their report, or leaves for one of the three reasons |
| `EnableLoop.Loop` | main/cmds.go:285-428 | the reports are, one by one, those of the closed form, and the loop leaves exactly when superseded or told to stop |
| `EnableLoop.Enable` | main/cmds.go:225-273 | bad settings end the command before any report; otherwise the loop decides; and every report shows of VMWatch what its settings and what was heard say: nothing without settings, a warning while disabled, success while enabled and nothing was heard, else what was heard last |
| `EnableLoop.VMWatchIsShown` | main/cmds.go:403-406 | the same of the report after any passes |
| `EnableLoop.SettingsDecideGrace` | main/handlersettings.go:47-72 | from interval, probes, grace period and protocol as configured, with their defaults: a report says Initializing exactly if no pass so far was late or completed the probes, the first late one reports Unknown for HTTP and HTTPS and Unhealthy otherwise, and the first that completed them in time the probed state |
| `EnableLoop.ReportsAreLoopWrites` | main/cmds.go:382-408 | every report is a success with substatuses that agree with one another, to the file of the process's own number |
| `EnableLoop.ReportedIsCommitted` | main/cmds.go:382-388 | pass i reports the committed state of the first i + 1 observations |
| `EnableLoop.ReportedChangesAreNApart` | main/cmds.go:340-408 | in the status file itself, two changes of the reported state are at least N passes apart and the later one follows N probes of it |
| `EnableLoop.RunEnableProcess` | main/main.go:75-105 | a process writes nothing if the pre-check fails, else Transitioning, then reports, then Error exactly if it fails; all to its own file; the final success write never happens |
| `TakeoverSafety.ServersLeaveForAReason` | main/cmds.go:286-428 | a process past enablePre leaves only when a newer number is recorded, when it was asked to stop or has bad settings, or when it is killed or crashes |
| `TakeoverStop.TermStopsItsTarget` | main/main.go:40-51 | a process past enablePre that gets SIGTERM is out of the loop after its next probe or sleep, makes no report from then on and at most the one Error write (and Transitioning, if it has yet to begin), and is gone within four steps, in every run |
| `TakeoverStop.ToldProcessStops` | main/cmds.go:313-316 | the same of every process that was told to stop, also by others and also while still in enablePre |
| `TakeoverStop.KillEndsItsTarget` | main/process.go:134-139 | a process that gets SIGKILL is gone at once, wherever it was, and never writes again |
| `TakeoverStop.CrashEndsIt` | main/cmds.go:132-135 | every live process can crash at any time, and then never writes again |
| `TakeoverStop.GoneForGood` | main/main.go:75-105 | a process that is gone, for whatever reason, stays so and never writes again |
| `TakeoverSafety.EnteringIsAlone` | main/cmds.go:132-148 | with one starter at a time and without loss, a process passes enablePre only when no other is live |
| `TakeoverExclusion.EnteringFindsNoServer` | main/cmds.go:132-148 | with any number of starters and without loss, a process passes enablePre only when no other is past it |
| `TakeoverExclusion.ExclusiveStep` | main/cmds.go:92-298 | with any number of starters, every step keeps that of two processes past their discovery one has yet to see the other gone, that the last to enter owns the status, and that effects match their actors |
| `TakeoverSafety.InvStep` | main/cmds.go:92-298 | with one starter at a time, every step keeps what each process knows of the register, the order of the recorded numbers, and, without loss, every other live process among those a starter has yet to see gone |
| `TakeoverRuns.RunKeepsInv` | main/cmds.go:92-298 | and so does every run with one starter at a time |
| `TakeoverRuns.RunIsExclusive` | main/cmds.go:92-298 | what every step keeps with any number of starters, every run keeps |
| `TakeoverRuns.AtMostOneProcessServes` | main/process.go:98-101 | in every run without loss, with any number of processes starting at the same time, at most one process is past enablePre, whatever crashed and whenever |
| `TakeoverRuns.StatusFileBelongsToLastEntered` | main/cmds.go:132-148 | in every run without loss, with any number of starters, once a process has passed enablePre every later write to its number's file is its own, until another passes with that number |
| `TakeoverRuns.EffectsAreTheirActors` | main/cmds.go:121-138 | in every run, with any number of starters and with or without loss, writes go to the writer's own file, saves are of the saver's own number, signals go to processes the sender found, and a process turned away has recorded, signalled and written nothing |
| `TakeoverRuns.EffectsAreInOrder` | main/cmds.go:121-146 | with one starter at a time, with or without loss, signals go out only when the recorded number is the sender's own, and the same of writes and of processes turned away |
| `TakeoverRuns.RecordedNumberNeverDecreases` | main/cmds.go:125-138 | with one starter at a time, with or without loss, recorded numbers never go down and no process past enablePre has a number above the recorded one |
| `TakeoverRuns.RegisterIsLastSaved` | main/cmds.go:136-138 | in every run the register holds the number saved last: nothing else changes it and every save does |
| `TakeoverProgress.StarterCanFinish` | main/cmds.go:92-149 | from every state, with any number, discovery and log, a new process can run enablePre to its end: it ends where enablePre by itself ends, its number is recorded exactly if it passes, exactly the processes it is to kill are gone, and something is lost exactly if the discovery missed a live process |
| `TakeoverProgress.UnreadableRegister` | main/cmds.go:96-99 | a process that cannot read the register is gone and has done nothing |
| `TakeoverOverlap.OverlappingStartersLowerTheRecord` | main/cmds.go:96-136 | without the one-starter rule, from every state, two fresh processes with any numbers n < m not below the recorded one have a run that saves m and then n and ends with n recorded; loss is not the cause, since none occurs if the discoveries are complete |
| `TakeoverRuns.SettledUnlessNewer` | main/cmds.go:96-146 | with one starter at a time, the number to be recorded is settled exactly if no process inside enablePre has a number above the recorded one; the one that recorded it may still be killing |
| `TakeoverRuns.SettledStep` | main/cmds.go:286-298 | once settled, every step, starters and kills included, leaves the recorded number, makes no process stale, and a stale process that reads the register at the loop head is gone at once without a write |
| `TakeoverRuns.StaleProcessesLeave` | main/cmds.go:286-298 | once settled and whatever was lost, the number of stale processes bounds the successful looks they can still make, and each that makes one is gone |
| `TakeoverRuns.OnlyTheRecordedNumberRemains` | main/main.go:92-99 | once settled, whoever crashes or is killed, every live process holds the recorded number, apart from stale ones without a successful look since and starters that have not decided yet |
| `TakeoverLink.RunsAreLocal` | main/cmds.go:92-298 | in every run, what becomes of a process and what it writes depend only on the steps about it and the recorded number at those steps |
| `TakeoverLink.EnableFollowsTheProtocol` | main/main.go:89-105 | whatever an enable process does past the pre-check, told to stop before it or not, is a sequence of possible steps of a process of the protocol, with the same files written in the same order and the matching end |
| `TakeoverLink.StepsMakeARun` | main/cmds.go:286-428 | steps that a process can take, with anything the other processes do in between, make a run of the whole |
| `TakeoverLink.EnableIsPartOfARun` | main/main.go:89-105 | the enable process among any others: the whole is a run of the protocol in which it writes as often as it did, to its own file, and ends as its exit code says |
| `TakeoverLink.NilLosesNothing` | main/process.go:101-152 | if dead processes stay dead, a kill that returns nil is one that loses nothing in the protocol |
| `TakeoverLink.ErrorGoesOn` | main/process.go:88-96 | a kill that fails goes on to the next process, and loses one exactly if it is still live |
| `Discovery.FindExisting` | main/process.go:41-66 | the scan keeps, in order, the directories of other processes that run this program, and fails exactly if /proc cannot be read |
| `Discovery.WhoIsFound` | main/process.go:50-62 | a process is found exactly if it is another one, runs this program and has a directory |
| `Discovery.FullListingLosesNothing` | main/process.go:37-40 | a listing with every live process in it is a discovery that loses nothing in the protocol |
| `EnablePre.Host.CheckIdempotency` | main/cmds.go:155-223 | exits exactly on the protocol's idempotent verdict and kills exactly on its same-number takeover |
| `EnablePre.Host.Run` | main/cmds.go:92-149 | ends where the takeover protocol ends, with exactly its effects, and records the number exactly if it passes |
| `EnablePre.CourseEnds` | main/cmds.go:121-130 | exactly when the outcome is the idempotent exit, the rejection of an older number, and passing or failing to save |
| `EnablePre.CourseEffects` | main/cmds.go:132-148 | the exact kills and records of each outcome: none if turned away, record before kill for a newer number, kill before record for the same one |
| `EnableCommand.RunCommand` | main/main.go:75-105 | pre-check and command together: status is written exactly if enablePre passes, and then the number is recorded; a process turned away leaves register, processes and status file alone |
| `RetryTrace.SendsByPhase` | main/vmWatch.go:122-141 | in every phase of the goroutine, what was sent is determined by the attempts begun |
| `RetryTrace.CompleteRunSends` | main/vmWatch.go:164-173 | a complete run sends Running, Failed once per attempt, one final Failed, and closes once with nothing after it |
| `RetryTrace.TotalWait` | main/vmWatch.go:147-152 | the waits after cycles c to m - 1 sum to Base * (m - c) * (m + c - 1) / 2 |
| `RetryScheduler.BudgetIsProduct` | main/vmWatch.go:118-122 | cycles c to MaxCycles have room for (MaxCycles - c + 1) * AttemptsPerCycle attempts |
| `RetryScheduler.Cycle` | main/vmWatch.go:121-141 | at most AttemptsPerCycle attempts, exactly that many without success or stop, counted exactly, each after a look at the flag and each with the result and the reset that attempt has |
| `RetryScheduler.EndCycle` | main/vmWatch.go:143-153 | the counters are set to this cycle and the attempts so far, with a wait of Base * cycle after every cycle but the last, unless stopped |
| `RetryScheduler.ExecuteRetryLogic` | main/vmWatch.go:105-162 | from counters (c, t), whatever is reset meanwhile: at most the budget, returned total minus t is the attempts made, exact budget and waits if all fail without shutdown, counters updated with the right numbers, the cycle reported on success, and no attempt, wait or send after a shutdown read; the i-th look gets the i-th answer and attempt k ends and is reset in as it does, so that the call succeeds exactly if one of its attempts does, which is then the last, and a stop is seen exactly if a look finds the flag set |
| `RetryScheduler.ExecuteVMWatch` | main/vmWatch.go:164-196 | the whole goroutine: sends and close in order; from fresh counters at most 12 attempts, and exactly 12 with waits of 3, 6 and 9 hours if all fail; success exactly if an attempt succeeds |
| `Rendezvous.StaysInStep` | main/cmds.go:321-338 | in every interleaving the loop's status is the one that goes with how far the goroutine has come, and there were at least as many passes as messages |
| `Rendezvous.StatusFollowsExecution` | main/vmWatch.go:118-141 | an executing attempt implies status Running; Failed or NotRunning implies none executes; k attempts need 2k - 1 passes; Failed once finished |
| `Rendezvous.FailedForever` | main/vmWatch.go:171-172 | after the final Failed and after the close the status is Failed for ever |
| `Rendezvous.TheGoroutineCanFinish` | main/vmWatch.go:122-173 | neither side is ever stuck: from every state reached, the goroutine can finish with one pass of the loop per message left, and the loop can always make a pass |
| `VMWatchStatusLink.ReportShowsTheRendezvous` | main/cmds.go:268-408 | with settings that enable VMWatch, after any interleaving the VMWatch substatus in the report is an error exactly if the status of the rendezvous is Failed, else success: success while an attempt executes, an error once the goroutine has ended |
| `KillProcess.KillOne` | main/process.go:101-152 | for any target the trace is one of the listed escalations; only a revalidated process is signalled; SIGKILL is tried exactly if SIGTERM went out and ten polls found the target alive; nil exactly if it is no longer this program or was seen gone, which is exactly if one of the first ten polls finds it gone, or SIGKILL works and one of the next four does; at most 7 s |
| `KillProcess.KillAll` | main/process.go:88-96 | every listed pid is tried in order, whatever happened to the others, in at most 7 s each |
| `HeartbeatMonitor.Monitor` | main/vmWatch.go:301-346 | the counters are reset once exactly if the process ran for an hour, at the first tick that finds a heartbeat by then, else at its exit; kills are those of the hung ticks |
| `HeartbeatMonitor.KillsAreTheHungTicks` | main/vmWatch.go:311-334 | the kills are issued at exactly the ticks that find the heartbeat missing or at least 180 s old, one each, in order |
| `HeartbeatMonitor.SilentProcessIsKilled` | main/vmWatch.go:306-334 | with exact ticks a process that stops heartbeating has a kill issued less than 360 s after its last write |
| `HeartbeatMonitor.HealthyProcessIsNotKilled` | main/vmWatch.go:313-314 | a process that heartbeats in time is never killed |
| `LogFreshness.HeartbeatLogger.LogHeartBeat` | main/health.go:266-271 | with the two clock readings the source takes, the time of the last heartbeat is the closed form over all loop heads |
| `LogFreshness.HeartbeatIsRecent` | main/constants.go:15 | at every loop head the last heartbeat is less than five minutes old |
| `LogFreshness.AgeIsBounded` | main/process.go:74-84 | the age seen is below 301 s plus lag plus delay |
| `LogFreshness.LogDecides` | main/cmds.go:173-222 | a process found with the same number is taken over if there is no log time or the log is six minutes old, else left alone |
| `LogFreshness.LiveProcessIsLeftAlone` | main/cmds.go:190-212 | a live process of the same number is left alone if lag and delay together are at most 59 s |
| `LogFreshness.BeyondThatItCanLookStale` | main/cmds.go:190-220 | for every lag and delay above 59 s together there is a history of a live process that is taken over |
| `LogFreshness.TheMarginIsExact` | main/constants.go:15-21 | every live process looks fresh if and only if lag and delay together are at most 59 s |
| `Rewriter.ScanIsLeftmost` | pkg/redact/redact.go:59-61 | the scan makes leftmost, non-overlapping cuts |
| `Rewriter.LeftmostIsUnique` | pkg/redact/redact.go:59-61 | there is only one such sequence of cuts |
| `Rewriter.EveryMatchIsReplaced` | pkg/redact/redact.go:59-61 | for a covering matcher whatever matches anywhere is replaced, not only what the scan matched |
| `Redact.UrlQueryMatchesUrls` | pkg/redact/redact.go:32 | the matcher matches exactly at scheme, host characters and question mark, and takes the longest query |
| `Redact.UrlQueryIsCovering` | pkg/redact/redact.go:32 | a URL inside another has its query inside the other's |
| `Redact.EveryQueryIsReplaced` | pkg/redact/redact.go:54-61 | every query of every URL in the input is replaced |
| `Redact.OnlyQueriesAreReplaced` | pkg/redact/redact.go:59-61 | every replaced span is the query of a URL |
| `Redact.QueryOfUrlIsReplaced` | pkg/redact/redact.go:32 | in every text, what follows http:// or https://, a host and a question mark, up to the next white space, quote or angle bracket, is replaced, whatever comes before |
| `Redact.WhatIsReplacedIsAQuery` | pkg/redact/redact.go:32 | whatever is replaced follows such a head and is all of it up to such a character or the end |
| `Redact.QueryIsHidden` | pkg/redact/redact.go:54-61 | what is logged does not depend on the query of any URL: it is what would be logged without it |
| `Redact.FirstUrlOfText` | pkg/redact/redact.go:59-61 | the first URL of a text exactly: kept up to the question mark, then the placeholder, and the text goes on at the delimiter |
| `Rewriter.SpliceIsRewritten` | pkg/redact/redact.go:59-61 | cutting and splicing is the same as rewriting from left to right |
| `Redact.TextWithoutQueriesIsUnchanged` | pkg/redact/redact.go:59-61 | text without a URL query is unchanged |
| `Redact.OutputHasNoQueries` | pkg/redact/redact.go:59-61 | every URL with a question mark in the output has an empty query directly before the placeholder |
| `Redact.SensitiveValueIsHidden` | pkg/redact/redact.go:37-42 | what is logged for a sensitive key is the key and the placeholder, whatever its value; every other string, with or without an equals sign, is treated as text |
| `Redact.ValueOfSensitiveKeyIsHidden` | pkg/redact/redact.go:17-42 | for a key with one of the sensitive words in it, in letters of either case and whatever stands around it, the key and the placeholder are logged, whatever its value |
| `Redact.OtherKeysAreText` | pkg/redact/redact.go:38-41 | any other key is treated as text |
| `Redact.SensitiveWordsAre` | pkg/redact/redact.go:17 | the words, written out with their optional separators |
| `Redact.Slice` | pkg/redact/redact.go:46-52 | every element is redacted, in order |

## Left out

- HTTP, TCP and TLS themselves, time-outs, URL building and JSON decoding: what the network answers is an oracle; what a probe makes of the answer is in `Probe`.
- Custom metrics: passed through to the status file without state of their own.
- Telemetry, logging, messages and error texts, the handler environment and version strings.
- Failures to write a status file: the model records the attempt; the source logs the failure and goes on.
- A failed write of the recorded number is taken to leave the register unchanged.
- The contents of /proc: they are an oracle, and in the protocol discovery may fail or miss processes; it never lists the process itself.
- Reuse of pids in the takeover protocol: a pid there belongs to one process for the whole run. Revalidation before a signal is in `KillProcess`.
- Overlapping starters in `TakeoverSafety.InvStep`, `TakeoverSafety.EnteringIsAlone`, `TakeoverRuns.RunKeepsInv`, `TakeoverRuns.EffectsAreInOrder`, `TakeoverRuns.RecordedNumberNeverDecreases` and the past of `TakeoverRuns.OnlyTheRecordedNumberRemains`: these are for one starter at a time. All other takeover results hold with any number of starters.
- Commands other than enable, the shim's own kill loops and its placeholder status file.
- The JSON schema engine: only its ranges are modelled, and an absent number reads as 0.
- A negative number of attempts per cycle; the configuration in use is 4 cycles, 3 attempts, 3 hours.
- `RetryResult.CyclesRun` as a count of cycles: the source reports the maximum even after an early stop, and that is what the model states.
- Panics in the VMWatch goroutine, starting VMWatch itself, cgroups and its configuration.
- `redact.JSON`, text that is not valid UTF-8, and idempotence of the URL rewrite, which adds a second placeholder when run again.
