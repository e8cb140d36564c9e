# A Dafny model of the Pomodoro timer core

This project models the core of a terminal Pomodoro timer written in Rust. A
*run* is a Working phase followed by a Breaking phase. Each phase is counted
down by a *runner* on a background thread. The foreground steers the runner
through a *commander* handle over a channel pair: commands go one way,
remaining-time answers come back. The *orchestrator* (`PomodoroTimer`) owns the
handle and the shared state cell. When both phases run out, it persists the run
of the signed-in user and adds up per-user totals. Two terminal front ends turn
typed lines into calls on the orchestrator.

Modules, one per file:

- `Optional`: the `Option` type.
- `Commander`, `Runner`, `RunnerProperties`: the current commander and countdown
  runner (src/core/).
- `LegacyCommander`, `LegacyRunner`, `LegacyRunnerProperties`: the older commander
  and runner (src/timer_commander.rs, src/timer_runner.rs).
- `Pomodoro`, `PomodoroProperties`: the orchestrator (src/pomodoro_timer.rs) and
  its end-to-end properties.
- `Text`: `split_whitespace` and lowercasing.
- `App`: the newer front end (src/app/tui_app.rs): key dispatch, the command
  interpreter, command recall.
- `LegacyApp`: the older front end (src/tui_app.rs), driving `Pomodoro` directly.

Modelling choices:

- Time is a count of ticks. One tick is one poll of the runner: 10 ms for the
  current runner, hence `Pomodoro.TicksPerSecond = 100`; one second for the older
  runner.
- The environment is a trace of events: a clock tick, a command sent, or the
  commander end dropped.
- A channel is one value seen from outside both threads: pending commands,
  pending answers, and which ends are alive.
- Threads are interleaved at operation boundaries. A foreground call runs to
  completion, and so does the job's reaction to what it sent. The one place where
  the order shows is `get_remaining_time`: the foreground reads the answer
  receiver right after sending a query, and a paused job may or may not have
  answered by then. `Pomodoro.GetRemainingTime` takes that order as a parameter
  `jobFirst`.
- The orchestrator takes the persisted table of runs and today's date as part of
  its state. The database and the local clock are not modelled.
- src/pomodoro_timer.rs imports its runner and commander under the older module
  paths. It calls them with the current signatures, though: a two-argument runner
  constructor and `get_time_remaining`. So `Pomodoro` composes with the current
  `Runner` and `Commander`.
- The newer front end calls the orchestrator through an interface whose source is
  not part of this model (`is_user_signed_in`, and `sign_in` as answered by
  src/core/pomodoro_timer.rs). `App` therefore takes the timer's answers as a
  `TimerView` parameter and records the calls it makes as `TimerCall` values.
  Replies are `Reply` values rather than formatted strings.

## Model

| member | source | states |
|---|---|---|
| Commander.Push | src/core/timer_commander.rs:20-37 | a send succeeds exactly when the receiving end is alive, and then appends the command behind all earlier ones without touching anything else |
| Commander.CommandOf | src/core/timer_commander.rs:20-37 | each handle operation maps to its own directive, one to one (pause→Pause, stop→Stop, resume→Start, query→GetTimeRemaining) |
| Commander.PauseTimer | src/core/timer_commander.rs:20-22 | needs a live runner end (the send is unwrapped) and only appends `Pause` |
| Commander.StopTimer | src/core/timer_commander.rs:24-26 | needs a live runner end and only appends `Stop` |
| Commander.ResumeTimer | src/core/timer_commander.rs:28-30 | needs a live runner end and only appends `Start` |
| Commander.QueryTimeRemaining | src/core/timer_commander.rs:32-37 | never fails loudly: it reports success exactly when the runner end is alive, and only then is the query queued |
| Commander.Fresh | src/pomodoro_timer.rs:54-55 | a new channel pair has both ends alive and nothing queued in either direction |
| Commander.Issue | src/core/timer_commander.rs:20-37 | one handle operation queues its own command behind the earlier ones when the runner end is alive, and changes nothing when it is not |
| Commander.IssueAll | src/core/timer_commander.rs:20-37 | a sequence of handle operations changes only the queue, which grows by at most one command per operation and keeps the earlier commands in front |
| Commander.CommandsOf | src/core/timer_commander.rs:20-37 | a sequence of handle operations sends one command per operation, each operation's own, in call order |
| Commander.IssueAllAppends | src/core/timer_commander.rs:20-37 | any sequence of handle operations reaches the runner as its commands, in call order, behind the earlier queue; nothing else about the channel changes |
| Runner.SaturatingSub | src/core/timer_runner.rs:34 | the remaining time never goes negative: it is the difference when that is non-negative, else zero |
| Runner.Begin | src/core/timer_runner.rs:26-31 | a run starts on its duration with nothing elapsed and no pause credited; a zero duration ends `Ok` at once without receiving anything |
| Runner.Guard | src/core/timer_runner.rs:31 | the loop test changes nothing but the status, which says either that the phase goes on counting or that it ended `Ok`; `Runner.Resume` and `RunnerProperties.RunsOut` state when each happens |
| Runner.Resume | src/core/timer_runner.rs:44-47 | leaving a pause with `Start` keeps the clock and the active time, adds exactly the pause length to `time_in_pause`, and the phase goes on exactly when its active time is below the duration |
| Runner.Terminate | src/core/timer_runner.rs:44-49 | `Stop` ends the phase `Terminated` and changes nothing else about the run |
| Runner.Wait | src/core/timer_runner.rs:58-71 | the resume wait never changes the elapsed time, only consumes commands, and stays paused only if the queue is drained and the commander is alive |
| Runner.BeginValid | src/core/timer_runner.rs:26-31 | a fresh run satisfies the time-accounting invariant with no active time counted |
| Runner.WaitAccounting | src/core/timer_runner.rs:42-48 | the resume wait keeps the accounting: no active time passes while paused, resuming credits exactly the pause interval to `time_in_pause`, and `time_in_pause` never decreases |
| Runner.ResumeLeft | src/core/timer_runner.rs:31-47 | `Start` after a pause lets the phase go on counting exactly when time was left at the pause, and then with exactly that time left; otherwise the loop test fails and the phase ends `Ok` |
| Runner.WaitReplies | src/core/timer_runner.rs:58-71 | while paused, the wait keeps every earlier answer and answers every query with the value frozen at the pause |
| Runner.WaitConsumes | src/core/timer_runner.rs:58-71 | the blocking wait only takes commands from the front of the queue: what it leaves is a suffix of what it found |
| Runner.Poll | src/core/timer_runner.rs:32-52 | one active iteration keeps the duration, the clock and both ends' liveness; it takes at least one command from a non-empty queue and never removes an answer |
| Runner.Deliver | src/core/timer_runner.rs:58-71 | an active runner is left alone until its next poll; a paused runner takes what reaches its channel at once, so it is left paused only with nothing queued; the duration, the clock and the liveness of both ends never change |
| Runner.Step | src/core/timer_runner.rs:26-71 | the duration never changes; only a tick that finds the phase running advances the clock, by one; an ended phase ignores every event |
| Runner.Run | src/core/timer_runner.rs:26-56 | over a trace the duration never changes and the clock advances by at most one tick per event |
| Runner.PollValid | src/core/timer_runner.rs:32-52 | one active poll keeps the invariant and answers a query with exactly the active time left |
| Runner.StepValid | src/core/timer_runner.rs:26-71 | every event keeps a run valid; only a tick that finds it active counts down; an exited run stays exited; `time_in_pause` never decreases; answers report the active time left |
| RunnerProperties.RunValid | src/core/timer_runner.rs:26-56 | over any trace the run stays valid, its active time grows by exactly the ticks that found it active, and `time_in_pause` never decreases |
| RunnerProperties.PauseCredit | src/core/timer_runner.rs:29-31 | paused time never counts: a phase that ends `Ok` has been active for exactly its duration, however long it was paused; one still active has been active for less |
| RunnerProperties.ElapsedSplits | src/core/timer_runner.rs:29-47 | wall-clock time is active time plus credited pauses plus the pause in progress, and the active time lies within the duration |
| RunnerProperties.ResumeCreditsPause | src/core/timer_runner.rs:44-47 | `Start` while paused adds exactly the pause length to `time_in_pause`, and the active time then left equals the frozen remaining time |
| RunnerProperties.PausedStep | src/core/timer_runner.rs:58-66 | a tick, a repeated pause or a query keeps the run paused on the same frozen value; only a query adds an answer, and that answer is the frozen value |
| RunnerProperties.FrozenWhilePaused | src/core/timer_runner.rs:58-66 | over any trace of ticks, pauses and queries the run stays paused, and every query is answered, in order, with the frozen value |
| RunnerProperties.StopWhilePaused | src/core/timer_runner.rs:44-45 | `Stop` while paused ends the phase `Terminated` at once |
| RunnerProperties.CloseWhilePaused | src/core/timer_runner.rs:59-70 | a dropped commander while paused ends the phase `Terminated` at once |
| RunnerProperties.StopWhileActive | src/core/timer_runner.rs:49 | `Stop` taken by an active poll ends the phase `Terminated`, consuming only that command and answering nothing |
| RunnerProperties.StartWhileActive | src/core/timer_runner.rs:41 | `Start` taken by an active poll behaves exactly like an empty channel, apart from being consumed |
| RunnerProperties.OneCommandPerPoll | src/core/timer_runner.rs:37-51 | an active poll with an empty queue takes nothing; with a head other than `Pause` it takes exactly that head and nothing behind it, with one answer for a query. A `Pause` head enters the resume wait, which may take more |
| RunnerProperties.ExitIsFinal | src/core/timer_runner.rs:45-55 | once a phase has ended, no later event changes how it ended |
| RunnerProperties.ZeroDuration | src/core/timer_runner.rs:31 | a zero duration returns `Ok` with the channel untouched |
| RunnerProperties.RunsOut | src/core/timer_runner.rs:31-55 | an undisturbed active run ends `Ok` after exactly the active time it has left, whether or not its commander still exists |
| LegacyCommander.PauseTimer | src/timer_commander.rs:22-24 | needs a live runner end and only appends `Pause` |
| LegacyCommander.StopTimer | src/timer_commander.rs:26-28 | needs a live runner end and only appends `Stop` |
| LegacyCommander.ResumeTimer | src/timer_commander.rs:30-32 | needs a live runner end and only appends `Start` |
| LegacyCommander.Upgrade | src/timer_commander.rs:4-8 | the older directives map into the newer alphabet and never become a query |
| LegacyCommander.UpgradeAll | src/timer_commander.rs:4-8 | a queue maps element by element |
| LegacyCommander.AgreesWithCurrent | src/timer_commander.rs:22-32 | the older handle's three operations queue exactly what the newer handle's same-named operations queue, and no two older directives map to the same newer one |
| LegacyRunner.Begin | src/timer_runner.rs:24-27 | a run starts with nothing elapsed; a zero duration ends `Ok` at once |
| LegacyRunner.Guard | src/timer_runner.rs:27 | the phase goes on exactly while the elapsed time, paused time included, is below the duration, and otherwise ends `Ok`; nothing else changes |
| LegacyRunner.Poll | src/timer_runner.rs:34-45 | one active iteration keeps the duration and the clock, changes nothing on the channel but the queue, leaves an empty queue alone and takes at least one command from a non-empty one |
| LegacyRunner.Wait | src/timer_runner.rs:62-74 | the wait keeps the clock and changes nothing on the channel but the queue, which only shrinks; a paused run stays exactly as it was when, and only when, nothing but pauses is queued |
| LegacyRunner.Step | src/timer_runner.rs:24-74 | the duration never changes; a tick while running, paused or not, advances the clock by one, and nothing else does; an ended phase ignores every event |
| LegacyRunner.Run | src/timer_runner.rs:24-74 | over a trace the duration never changes and the clock advances by at most one tick per event |
| LegacyRunner.CheckForNewCommand | src/timer_runner.rs:51-60 | one non-blocking receive loses nothing: the command it returns, if any, followed by the queue it leaves, is the queue it found; nothing but the queue changes |
| LegacyRunner.FirstNonPause | src/timer_runner.rs:62-71 | the wait's receive loop finds nothing exactly when only pauses are queued; otherwise it finds the first `Start` or `Stop` behind a run of pauses, with the rest of the queue behind it |
| LegacyRunnerProperties.StepValid | src/timer_runner.rs:24-74 | every event keeps the older invariant; each tick while running, paused or not, advances the clock by one; an exited run stays exited |
| LegacyRunnerProperties.RunValid | src/timer_runner.rs:24-74 | over any trace, elapsed time grows by exactly the ticks that found the run running |
| LegacyRunnerProperties.NoPauseCredit | src/timer_runner.rs:27 | a phase that ends `Ok` has run for at least its duration counting paused ticks; one still active has run for less |
| LegacyRunnerProperties.PausedTickCounts | src/timer_runner.rs:62-73 | a tick while paused with only pauses queued advances the clock and keeps the run paused |
| LegacyRunnerProperties.WaitEndsOnlyOnStartOrStop | src/timer_runner.rs:62-74 | the wait stays paused exactly when only pauses are queued; it terminates exactly on a first `Stop`, and resumes exactly on a first `Start` |
| LegacyRunnerProperties.ClosedPauseWaitsForever | src/timer_runner.rs:62-74 | with the commander gone and no `Start` or `Stop` queued, the run stays paused under every trace while the clock keeps running |
| LegacyRunnerProperties.StopTerminates | src/timer_runner.rs:42-43 | `Stop` ends the phase `Terminated` on the next tick, whether active or paused behind repeated pauses |
| LegacyRunnerProperties.FirstNonPauseAt | src/timer_runner.rs:62-71 | the command found is exactly the first non-pause one, and the queue after it is what remains |
| LegacyRunnerProperties.IgnoredCommands | src/timer_runner.rs:39-67 | `Start` while active and `Pause` while paused change nothing but the queue |
| LegacyRunnerProperties.OneCommandPerPoll | src/timer_runner.rs:37 | an active poll with an empty queue takes nothing; with a head other than `Pause` it takes exactly that head and nothing behind it. A `Pause` head enters the resume wait, which may take more |
| LegacyRunnerProperties.ZeroDuration | src/timer_runner.rs:27 | a zero duration returns `Ok` with the channel untouched |
| LegacyRunnerProperties.PauseCreditDiffers | src/timer_runner.rs:27 | on the same trace (a 3-tick phase, paused for two ticks, then resumed), the older runner has already ended `Ok` while the current one is still active |
| Pomodoro.AsI32 | src/pomodoro_timer.rs:109 | `as i32` keeps the value modulo 2^32 within the i32 range, and is the identity on values that fit |
| Pomodoro.Secs | src/pomodoro_timer.rs:109 | `as_secs` is the floor of the duration in whole seconds |
| Pomodoro.Record | src/pomodoro_timer.rs:107-109 | a persisted run carries the user captured at the start and is dated the day it is written; each duration is stored as whole seconds, so when those fit in i32 the stored seconds are at most the captured duration and one second more exceeds it |
| Pomodoro.Finish | src/pomodoro_timer.rs:77-79 | an ended job leaves the timer `Idle` with its runner end dropped, and keeps settings and records |
| Pomodoro.Complete | src/pomodoro_timer.rs:103-110 | a completed run leaves `Idle` and appends exactly one record, and only if a user was captured at its start |
| Pomodoro.StartBreak | src/pomodoro_timer.rs:88-90 | after the work phase the state is `Breaking` and a break of the captured length runs on the same channel; a zero break completes the run at once |
| Pomodoro.Settle | src/pomodoro_timer.rs:74-110 | the job reacts to its runner: still running → nothing; terminated → `Idle`; work ran out → the break of the captured length starts on the same channel; break ran out → `Idle` and the record. Records change only on completion |
| Pomodoro.Stepped | src/pomodoro_timer.rs:71-113 | the job's runner takes an event in its phase, keeping the captured run and every pending answer |
| Pomodoro.Advance | src/pomodoro_timer.rs:71-113 | an event followed by the job's reaction keeps the timer invariant, and the only record it can add is its own run's |
| Pomodoro.Forward | src/pomodoro_timer.rs:138-168 | a queued command reaches the job: an active job only holds it on the channel until its next poll; a paused job given `Start` with time left counts on in the same state and phase, with exactly the frozen time left and the queue empty; only `Start` can complete a run, and a pause or query leaves the phase running |
| Pomodoro.SendWhileRunning | src/core/timer_runner.rs:37-71 | an active runner only queues what is sent; no command but `Start` ends a running phase `Ok`; a pause or a query leaves its status unchanged; `Start` to a pause with time left makes the runner active with exactly the frozen time left |
| Pomodoro.New | src/pomodoro_timer.rs:37-49 | a new timer is `Idle` with no user, no job and no channel, and its durations are exactly the given seconds |
| Pomodoro.StartRun | src/pomodoro_timer.rs:52-80 | a run gets a fresh empty channel pair and captures the durations and the user at its start; with a positive work duration it reports `Working` |
| Pomodoro.ResumeTimer | src/pomodoro_timer.rs:163-168 | with no channel nothing happens; an active job gets `Start` queued behind the earlier commands and nothing else changes; a paused job with time left counts on in the same state with exactly the time frozen at the pause; the only record it can add is the current run's |
| Pomodoro.StartTimer | src/pomodoro_timer.rs:127-136 | from `Idle` a new run starts; otherwise the run is resumed: `Start` is queued for an active job, and a paused job with time left counts on from its frozen time in the same state |
| Pomodoro.PauseTimer | src/pomodoro_timer.rs:138-147 | from `Idle` nothing happens; an active job gets `Pause` queued behind the earlier commands and nothing else changes; a paused job is left exactly as it was; the reported state, the records and whether a job runs never change |
| Pomodoro.StopTimer | src/pomodoro_timer.rs:149-161 | after a stop the timer reports `Idle` at once and no record is added; an active job gets `Stop` queued behind the earlier commands with nothing else changed; a paused job ends at once, the job gone and its receiving end dropped |
| Pomodoro.GetRemainingTime | src/pomodoro_timer.rs:186-204 | with no channel, the work duration; with a dead runner end, the channel is dropped and the work duration returned; otherwise the oldest pending answer, the fresh answer of a paused job queuing behind the rest. With none pending: if the paused job answers before the read, its frozen value; if the read comes first, the work duration, the frozen answer left waiting; an active job gives the work duration |
| Pomodoro.TakeReply | src/pomodoro_timer.rs:198-200 | one `try_recv` returns and removes the oldest waiting answer, and falls back to the work duration only when none waits; nothing else changes |
| Pomodoro.Answer | src/core/timer_runner.rs:58-65 | a paused job answers a query at once with exactly one value, the time frozen at its pause; an active job answers nothing until its next poll |
| Pomodoro.QueryAnswered | src/core/timer_runner.rs:50-65 | a paused runner answers a query at once with its frozen value; an active one leaves the answers as they were |
| Pomodoro.SetStateTimePeriod | src/pomodoro_timer.rs:206-215 | the timer is stopped first; then only the named phase's duration changes, and `Idle` changes none |
| Pomodoro.SignIn | src/pomodoro_timer.rs:246-252 | sign-in succeeds, and replaces the user, exactly when the timer is `Idle` |
| Pomodoro.Tick | src/pomodoro_timer.rs:71-113 | a clock tick keeps the invariant and the settings; without a job only the date changes |
| Pomodoro.GetTotalTime | src/pomodoro_timer.rs:217-243 | with no user (0, 0); otherwise the sums of the user's working and breaking seconds over the period's records |
| Pomodoro.Filter | src/pomodoro_timer.rs:232-236 | a filter is never longer than the table, and every record it keeps matches its key; `PomodoroProperties.FilterMembers` adds that every matching record is kept |
| Pomodoro.AccumulateSums | src/pomodoro_timer.rs:239-242 | the left fold equals the accumulator plus the reference sums |
| PomodoroProperties.QuietTick | src/pomodoro_timer.rs:74-110 | one undisturbed tick counts a phase down by one; the last work tick hands over to a break of the captured length; the last break tick completes the run with its record |
| PomodoroProperties.QuietTicks | src/core/timer_runner.rs:31-53 | ticks short of a phase's end only count it down, keeping the phase, the records and the pending answers |
| PomodoroProperties.TicksAdd | src/pomodoro_timer.rs:71-113 | ticking a then b times is ticking a + b times |
| PomodoroProperties.QuietPhase | src/pomodoro_timer.rs:74-110 | exactly the active time left takes a phase to its end: to the break, or to `Idle` with the record |
| PomodoroProperties.FullRun | src/pomodoro_timer.rs:52-110 | an undisturbed run reports `Working` for exactly the work duration, then `Breaking` for exactly the break duration, then `Idle`, adding exactly one record of the signed-in user |
| PomodoroProperties.StartCounts | src/pomodoro_timer.rs:52-75 | starting from `Idle` with work to do reports `Working` at once and counts down the whole work duration, capturing the durations and user of that moment |
| PomodoroProperties.WorkThenBreak | src/pomodoro_timer.rs:88-110 | after an undisturbed work phase, the break counts down exactly its captured length and then completes the run with its record |
| PomodoroProperties.ZeroDurations | tests/pomodoro_timer_tests.rs:17-28 | with both durations zero, starting returns to `Idle` at once |
| PomodoroProperties.StopEndsRun | src/pomodoro_timer.rs:149-161 | stopping reports `Idle` at once; the job ends by the next tick and no record is added |
| PomodoroProperties.PauseFreezes | src/core/timer_runner.rs:37-48 | a `Pause` sent to a counting phase is taken at the next poll: the job is paused on the active time then left, the queue is empty, and the run, its answers and the records are unchanged |
| PomodoroProperties.PauseThenQuery | src/pomodoro_timer.rs:138-204 | a pause taken at the next poll freezes the time left. However long the pause lasts, a query answers exactly that value if the job answers before the read; if the read comes first, it returns the work duration, and the next query returns the frozen value in either order |
| PomodoroProperties.PauseThenResume | src/pomodoro_timer.rs:127-168 | pausing a counting phase, waiting any number of ticks and calling `start_timer` resumes it in the same state and run, with exactly the active time it had left at the pause, and no record added |
| PomodoroProperties.PausedTicks | src/core/timer_runner.rs:58-71 | ticks during a pause change nothing but the clock |
| PomodoroProperties.FilterMembers | src/timer_database.rs:33-43 | a filter keeps exactly the table's records its key matches: the user's records for `get_timer_runs`, today's for the `Today` filter |
| PomodoroProperties.FilterAppend | src/pomodoro_timer.rs:232-236 | filtering, by user or by date, commutes with appending a record |
| PomodoroProperties.SumsAppend | src/pomodoro_timer.rs:239-242 | the totals of a concatenation are the sums of the parts' totals |
| PomodoroProperties.OwnRecordCounts | src/pomodoro_timer.rs:217-243 | a new record of the user adds its times to the user's all-time totals, and to today's totals exactly when it is dated today |
| PomodoroProperties.OtherRecordIgnored | src/timer_database.rs:33-43 | another user's record changes nobody else's totals |
| PomodoroProperties.TotalsAreSums | src/pomodoro_timer.rs:217-243 | `get_total_time` is the reference sum of the records the period covers |
| PomodoroProperties.SumsSplitByDate | src/pomodoro_timer.rs:232-242 | the totals of some records split into those of one date and those of every other date |
| PomodoroProperties.AllTimeIsTodayPlusRest | src/pomodoro_timer.rs:217-243 | the all-time totals are today's totals plus those of every other day |
| PomodoroProperties.FullRunCounts | src/pomodoro_timer.rs:104-243 | an undisturbed run adds exactly its captured durations, in whole seconds cast to i32, to the user's totals for the day it completed |
| Text.WordEnd | src/app/tui_app.rs:249 | the length of the maximal white-space-free prefix |
| Text.Words | src/app/tui_app.rs:249 | `split_whitespace` yields only non-empty, white-space-free words |
| Text.NoWords | src/app/tui_app.rs:249-251 | a line has no words exactly when it is all white space |
| Text.WordEndOfWord | src/app/tui_app.rs:249 | a word followed by white space or the end of the line ends exactly where the word does |
| Text.WordsUnwords | src/app/tui_app.rs:249 | joining words with single spaces and splitting the result gives back the words |
| Text.LeadingSpace | src/app/tui_app.rs:249 | white space in front of a line changes none of its words |
| Text.Lower | src/tui_app.rs:171 | lowercasing keeps the length and maps every ASCII capital letter to its small letter, character by character |
| Text.LowerMatches | src/tui_app.rs:171 | a line lowercases to a lowercase word exactly when it spells that word in any mix of cases |
| App.PhaseNamed | src/app/tui_app.rs:278-288 | exactly the words `working` and `breaking` name a phase |
| App.SetCommand | src/app/tui_app.rs:276-313 | `set` is invalid exactly when the phase is not `working`/`breaking` or the amount is missing; "Invalid time" exactly when the amount fails to parse; the duration changes exactly when both parts are good |
| App.StatsCommand | src/app/tui_app.rs:314-347 | `stats` is always valid and reports the user's totals for `today` or `all-time`, and (-1, -1) for any other range |
| App.LoginCommand | src/app/tui_app.rs:348-366 | `login` is always valid; with a name it signs in and the reply tells whether that succeeded; without one it asks for a name |
| App.Interpret | src/app/tui_app.rs:251-381 | a line makes at most one timer call, and none if invalid; an empty line or unknown first word is invalid; start needs a signed-in user; stop and pause always call the timer |
| App.SubmitCommand | src/app/tui_app.rs:246-393 | a submission logs the line with its validity and then the reply, makes the interpreter's calls, clears the input and resets recall |
| App.SubmitSeesWords | src/app/tui_app.rs:249-251 | a line of space-separated words is interpreted on exactly those words |
| App.ValidHistory | src/app/tui_app.rs:420-426 | the recall history is no longer than the log |
| App.ChoosePrevCommand | src/app/tui_app.rs:419-446 | Up moves one further back, saturating; Down one nearer, saturating at 0; position 0 clears the input; a position inside the history loads that command; one beyond it leaves the input |
| App.HistoryIsRecentValid | src/app/tui_app.rs:420-426 | the k-th recall entry is the k-th most recent line logged as a valid command |
| App.RecentValidIndex | src/app/tui_app.rs:420-426 | the k-th most recent valid command sits at a log position with exactly k-1 valid commands after it |
| App.Later | src/app/tui_app.rs:420-426 | appending a message moves no valid command, and adds one valid command after it exactly when the message is one |
| App.HistoryAppend | src/app/tui_app.rs:383-426 | logging a valid command puts it at the front of the history; other messages leave it unchanged |
| App.SubmitThenRecall | src/app/tui_app.rs:383-441 | right after submitting a valid command, Up recalls exactly that line |
| App.UpThenDown | src/app/tui_app.rs:429-430 | Up then Down, away from the saturation point, returns recall to where it was |
| App.KeyAction | src/app/tui_app.rs:77-100 | in normal mode only `e` (edit) and `q` (quit) act, whatever the event kind; in editing mode only presses act, with Enter submitting, Up/Down recalling and Esc leaving editing |
| App.HandleKey | src/app/tui_app.rs:77-100 | the loop ends exactly on `q` in normal mode; normal mode never changes the log, the input or the timer; only Enter pressed while editing calls the timer |
| LegacyApp.Parse | src/tui_app.rs:171-185 | a line names start, stop or pause exactly when the whole line spells that word in any mix of cases |
| LegacyApp.SubmitCommand | src/tui_app.rs:168-191 | a recognised line makes exactly its timer call and is logged valid (after stop the timer is `Idle`, after pause its state is unchanged); any other line leaves the timer alone and is logged invalid; the line is logged as typed and the input cleared |
| LegacyApp.KeyAction | src/tui_app.rs:45-65 | in normal mode only `e` and `q` act; in editing mode only presses act, with Enter submitting and Esc leaving; Up and Down do nothing |
| LegacyApp.SameDispatch | src/tui_app.rs:45-65 | apart from Up and Down, both front ends map every key event to the same submit, quit and mode-change actions |

## Left out

- Threads are interleaved at operation boundaries. Races inside an operation are not modelled, in particular:
  - a job still ending after `stop_timer` has already reported `Idle`, when `start_run` replaces the channel pair (the old job is abandoned with its pair);
  - the first `update_state(Working)` racing the spawning call;
  - an active job polling between the send and the read of `get_remaining_time`. The model lets an active job answer only at its next tick, so such a query returns the work duration and the answer waits for the next call. A paused job's answer can come on either side of the read; that order is the `jobFirst` parameter.
- Notifications, the `println!` in the older runner and the error `println!` of the handle leave no state and are not modelled.
- The database is a sequence of `TimerRun` rows held in the timer, and the local date is a field set by the clock tick. Connections, `.env` and SQL are not modelled.
- `get_users` and `get_username` only read the database and the user field. They appear as `TimerView` answers in `App`.
- The getters and setters of the durations are field reads and writes.
- `get_state` and `update_state` are reads and writes of the `state` field. The mutex has no visible effect once operations are interleaved.
- Floating point: the minute amount of `set` is parsed as `f32`, multiplied by 60, floored and cast. `App.SetCommand` takes this whole conversion as a parameter `secondsOf`.
- The minute/hour formatting of the `stats` reply is not modelled.
- Drawing, the input widget's cursor editing, and the tick and key-reader threads are not modelled. The edit actions of `App.HandleKey` are named but leave the model unchanged.
- src/main.rs, src/commands.rs and src/lib.rs are not part of this model.
- src/core/pomodoro_timer.rs, which the newer front end calls, is not part of this model. Its answers are the `TimerView` parameter.
- Text.Lower: lowercases ASCII letters only, while the source uses Unicode `to_lowercase`. For matching against `start`, `stop` and `pause` the two agree: the only non-ASCII characters whose lowercase contains an ASCII letter are the Kelvin sign (to `k`) and the dotted capital I (to `i` plus a combining dot), and neither `k` nor `i` occurs in those words.
- Pomodoro.GetTotalTime: the i32 fold may overflow in the source (a panic in debug builds, wrap-around in release). The model adds unbounded integers.
- Pomodoro.StopTimer and Pomodoro.PauseTimer: a send on a dead receiver panics in the source. `Pomodoro.Inv` shows that this cannot happen between operations, so the panic path is not modelled.
- Commander.PauseTimer, Commander.StopTimer, Commander.ResumeTimer and the LegacyCommander counterparts: `requires receiverAlive` stands for the source's `unwrap` on the send. The panic itself is not modelled.
- Runner.Poll: the `send(...).unwrap()` of an answer assumes the foreground still holds the answer receiver. The model keeps answers on the channel value whatever the foreground holds.
- Pomodoro.ResumeTimer: `requires t.link.Some? ==> t.link.value.receiverAlive` excludes a state the timer invariant allows: after a phase has ended, the pair is kept with its receiving end dropped. A public `resume_timer` call there reaches the unwrapped send of src/core/timer_commander.rs:28-30 and panics; the model does not promise anything about that call. The only caller, `start_timer` when not `Idle`, always meets the requirement, because a dropped receiving end goes with `Idle`.
- The older runner computes `duration - start_time.elapsed()` without saturation (src/timer_runner.rs:28). If the phase ends between the loop test and that line, the subtraction panics. With discrete ticks the two readings of the clock coincide, so the model cannot reach that panic.
- The tick quantum is a whole number of ticks: `thread::sleep` overshoot and the time spent between polls are not modelled.

## Findings

| source | as written | input that shows it | evidently intended | confidence | as-written member | corrected member |
|---|---|---|---|---|---|---|
| src/timer_runner.rs:27 | the loop condition compares wall-clock time with the duration alone, so time spent paused counts against the phase | a 3-tick phase paused at its first poll, sitting out two ticks paused, then resumed and ticked once: it ends `Ok` after one active tick | paused time is credited back, as in src/core/timer_runner.rs:29-47 | high; not executed | LegacyRunnerProperties.PauseCreditDiffers | RunnerProperties.PauseCredit |
| src/timer_runner.rs:62-74 | the resume wait treats a disconnected channel like an empty one and keeps polling | pause a phase, then drop the commander: the runner stays paused forever | a closed channel ends the wait as `Stop`, as in src/core/timer_runner.rs:59-70 | high; not executed | LegacyRunnerProperties.ClosedPauseWaitsForever | RunnerProperties.CloseWhilePaused |

The orchestrator (`Pomodoro`) composes with the corrected runner (`Runner`).
