/**
 The orchestrator of a Pomodoro run (src/pomodoro_timer.rs).

 A run is a Working phase followed by a Breaking phase, each counted down by a
 runner (module `Runner`) on one background job; the foreground holds the
 commander and the answer receiver of that job's channel pair. Threads are
 interleaved sequentially: every foreground operation runs to completion, and so
 does the job's reaction to the command it sent, except that `GetRemainingTime`
 leaves to a parameter whether a paused job answers its query before the
 foreground reads; the clock only advances through `Tick`. The shared state cell
 is the `state` field, written by both sides.

 Durations are counted in runner ticks, `TicksPerSecond` to the second. The
 persisted table of finished runs and the calendar date are part of the modelled
 state: the table is what the database holds, the date what the local clock says.
 */
module Pomodoro {
  import opened Optional
  import opened Commander
  import Runner

  /** The phase the timer reports. */
  datatype TimerState = Idle | Working | Breaking

  /** The range of a statistics query. */
  datatype Period = Today | AllTime

  /** A calendar date in the local time zone. */
  datatype Date = Date(year: int, month: nat, day: nat)

  /** A persisted run (the row shape of src/models.rs), without its generated key. */
  datatype TimerRun = TimerRun(user: string, workingTimeSecs: int, breakingTimeSecs: int, date: Date)

  /**
   The background job of the current run: the phase it is counting down, its
   runner, and the durations and user it captured by value when the run started.
   */
  datatype Job = Job(phase: TimerState, runner: Runner.Runner, workDuration: nat, breakDuration: nat, user: Option<string>)

  /**
   The timer handle with the job it spawned.
   - `link`: the commander and answer receiver, set and cleared together;
   - `job`: the background job while it is still running;
   - `runs`: the persisted table, all users;
   - `today`: the current local date.
   */
  datatype Timer = Timer(
    workDuration: nat,
    breakDuration: nat,
    state: TimerState,
    link: Option<Channel>,
    username: Option<string>,
    job: Option<Job>,
    runs: seq<TimerRun>,
    today: Date)

  /** Runner ticks in one second: the runner sleeps ten milliseconds per poll. */
  const TicksPerSecond: nat := 100

  const I32Modulus: int := 0x1_0000_0000
  const I32Max: int := 0x7FFF_FFFF

  /** `as i32` on an unsigned value: keep the low 32 bits, read them as two's complement. */
  function AsI32(x: nat): (v: int)
    ensures -I32Max - 1 <= v <= I32Max
    ensures (x - v) % I32Modulus == 0
    ensures x <= I32Max ==> v == x
  {
    var m := x % I32Modulus;
    if m <= I32Max then m else m - I32Modulus
  }

  /** `Duration::as_secs`: whole seconds, the fraction dropped. */
  function Secs(d: nat): (s: nat)
    ensures s * TicksPerSecond <= d < (s + 1) * TicksPerSecond
  {
    d / TicksPerSecond
  }

  // ---------------------------------------------------------------------------
  // Invariant

  /** A job's runner counts down the duration its phase captured. */
  predicate JobWellFormed(j: Job) {
    || (j.phase == Working && j.runner.duration == j.workDuration)
    || (j.phase == Breaking && j.runner.duration == j.breakDuration)
  }

  /**
   The states between a job's runner returning and the job reacting to it:
   - a non-idle timer has a job in the phase it reports (`stop_timer` may already
     have reported `Idle` while the job still runs);
   - a job's channel is the timer's pair, its commander alive, its runner valid;
   - without a job the pair, if any, has lost its receiving end.
   */
  predicate Settling(t: Timer) {
    && (t.state != Idle ==> t.job.Some? && t.job.value.phase == t.state)
    && (t.job.Some? ==>
          && t.link.Some? && t.link.value.senderAlive
          && JobWellFormed(t.job.value)
          && Runner.Valid(Runner.Loop(t.job.value.runner, t.link.value)))
    && (t.job.None? && t.link.Some? ==> !t.link.value.receiverAlive)
  }

  /** The states between operations: besides the above, a job's runner is still running. */
  predicate Inv(t: Timer) {
    Settling(t) && (t.job.Some? ==> t.job.value.runner.status.Running?)
  }

  /** The settings the background job does not touch. */
  predicate SameSettings(t: Timer, t': Timer) {
    && t'.workDuration == t.workDuration
    && t'.breakDuration == t.breakDuration
    && t'.username == t.username
    && t'.today == t.today
  }

  /** The pair is the same, except that its receiving end may have been dropped. */
  predicate SameLink(t: Timer, t': Timer) {
    && (t'.link.Some? <==> t.link.Some?)
    && (t'.link.Some? ==> t'.link.value.(receiverAlive := t.link.value.receiverAlive) == t.link.value)
  }

  /** Every answer already waiting on the receiver is still there, at the front. */
  predicate KeepsReplies(t: Timer, t': Timer)
    requires t.link.Some? && t'.link.Some?
  {
    |t.link.value.replies| <= |t'.link.value.replies| && t'.link.value.replies[..|t.link.value.replies|] == t.link.value.replies
  }

  /** A job of the same run: same captured durations and user. */
  predicate SameRun(j: Job, j': Job) {
    j'.workDuration == j.workDuration && j'.breakDuration == j.breakDuration && j'.user == j.user
  }

  // ---------------------------------------------------------------------------
  // The background job

  /** The record a completed run persists: the user and the durations, in whole
      seconds cast to `i32`, captured at its start, dated today. */
  function Record(j: Job, today: Date): (r: TimerRun)
    requires j.user.Some?
    ensures r.user == j.user.value && r.date == today
    ensures r.workingTimeSecs == AsI32(Secs(j.workDuration)) && r.breakingTimeSecs == AsI32(Secs(j.breakDuration))
    ensures Secs(j.workDuration) <= I32Max ==>
              r.workingTimeSecs * TicksPerSecond <= j.workDuration < (r.workingTimeSecs + 1) * TicksPerSecond
    ensures Secs(j.breakDuration) <= I32Max ==>
              r.breakingTimeSecs * TicksPerSecond <= j.breakDuration < (r.breakingTimeSecs + 1) * TicksPerSecond
  {
    TimerRun(j.user.value, AsI32(Secs(j.workDuration)), AsI32(Secs(j.breakDuration)), today)
  }

  /** The job has ended: the state becomes `Idle` and the runner's receiving end is dropped. */
  function Finish(t: Timer): (t': Timer)
    ensures Inv(t') && SameSettings(t, t') && SameLink(t, t') && t'.runs == t.runs
    ensures t'.state == Idle && t'.job.None?
    ensures t'.link.Some? ==> !t'.link.value.receiverAlive
  {
    t.(state := Idle, job := None, link := if t.link.Some? then Some(t.link.value.(receiverAlive := false)) else None)
  }

  /** Both phases ran out: `Idle`, then one record if the run captured a user. */
  function Complete(t: Timer): (t': Timer)
    requires t.job.Some?
    ensures Inv(t') && SameSettings(t, t') && SameLink(t, t')
    ensures t'.state == Idle && t'.job.None?
    ensures t'.runs == t.runs + (if t.job.value.user.Some? then [Record(t.job.value, t.today)] else [])
  {
    var j := t.job.value;
    var f := Finish(t);
    if j.user.Some? then f.(runs := t.runs + [Record(j, t.today)]) else f
  }

  /** A work phase ran out: `Breaking`, and the break starts on the same channel;
      a break of zero ends at once and completes the run. */
  function StartBreak(t: Timer): (t': Timer)
    requires Settling(t) && t.job.Some? && t.job.value.phase == Working
    ensures Inv(t') && SameSettings(t, t') && SameLink(t, t')
    ensures t'.job.Some? <==> t.job.value.breakDuration > 0
    ensures t'.job.Some? ==>
              && t'.state == Breaking && t'.job.value.phase == Breaking
              && SameRun(t.job.value, t'.job.value)
              && t'.job.value.runner == Runner.Begin(t.job.value.breakDuration, t.link.value).run
              && t'.link == t.link && t'.runs == t.runs
    ensures t'.job.None? ==> t' == Complete(t)
  {
    var j := t.job.value;
    var l := Runner.Begin(j.breakDuration, t.link.value);
    if l.run.status.Running? then
      Runner.BeginValid(j.breakDuration, t.link.value);
      t.(state := Breaking, job := Some(j.(phase := Breaking, runner := l.run)))
    else Complete(t)
  }

  /** The job's runner has returned the whole run: a phase that ran out and was
      the break, or was work followed by a break that ends at once. */
  predicate Completes(t: Timer) {
    && t.job.Some?
    && t.job.value.runner.status == Runner.Exited(Runner.Ok)
    && (t.job.value.phase == Breaking || t.job.value.breakDuration == 0)
  }

  /** The only change a job makes to the table: the record of its own run, when it
      completes. */
  predicate Persisted(t: Timer, t': Timer) {
    || t'.runs == t.runs
    || (&& t.job.Some? && t.job.value.user.Some? && t'.job.None? && t'.state == Idle
        && t'.runs == t.runs + [Record(t.job.value, t.today)])
  }

  /**
   The job reacts to its runner's return (src/pomodoro_timer.rs:74-110): a
   terminated phase sets `Idle` and ends the job; a work phase that ran out sets
   `Breaking` and starts the break on the same channel; a break that ran out sets
   `Idle` and persists the run if it captured a user.
   */
  function Settle(t: Timer): (t': Timer)
    requires Settling(t)
    ensures Inv(t') && SameSettings(t, t') && SameLink(t, t') && Persisted(t, t')
    ensures t.job.None? || t.job.value.runner.status.Running? ==> t' == t
    ensures t.job.Some? && t.job.value.runner.status == Runner.Exited(Runner.Terminated) ==> t' == Finish(t)
    ensures t.job.Some? && t.job.value.runner.status == Runner.Exited(Runner.Ok) && t.job.value.phase == Working ==> t' == StartBreak(t)
    ensures Completes(t) ==> t' == Complete(t)
    ensures t'.runs != t.runs ==> Completes(t)
    ensures t'.job.Some? ==> t.job.Some? && SameRun(t.job.value, t'.job.value)
  {
    if t.job.None? || t.job.value.runner.status.Running? then t
    else if t.job.value.runner.status.exit == Runner.Terminated then Finish(t)
    else if t.job.value.phase == Working then StartBreak(t)
    else Complete(t)
  }

  /** The job's runner takes one event; the job has not reacted to it yet. */
  function Stepped(t: Timer, e: Runner.Event): (t': Timer)
    requires Inv(t) && t.job.Some? && !e.Close?
    ensures Settling(t') && t'.job.Some? && SameRun(t.job.value, t'.job.value)
    ensures t'.job.value.phase == t.job.value.phase
    ensures t' == t.(job := t'.job, link := t'.link)
    ensures KeepsReplies(t, t')
  {
    var j := t.job.value;
    var l := Runner.Step(Runner.Loop(j.runner, t.link.value), e);
    Runner.StepValid(Runner.Loop(j.runner, t.link.value), e);
    t.(job := Some(j.(runner := l.run)), link := Some(l.chan))
  }

  /** The job's runner takes one event, then the job reacts to its return. */
  function Advance(t: Timer, e: Runner.Event): (t': Timer)
    requires Inv(t) && t.job.Some? && !e.Close?
    ensures Inv(t') && SameSettings(t, t') && Persisted(t, t')
    ensures t'.link.Some? && KeepsReplies(t, t')
    ensures t'.job.Some? ==> SameRun(t.job.value, t'.job.value)
  {
    var m := Stepped(t, e);
    assert m.job.value.user.Some? ==> Record(m.job.value, m.today) == Record(t.job.value, t.today);
    Settle(m)
  }

  /**
   A command the handle has just queued on the channel reaches the job: a paused
   runner handles it at once, an active one at its next poll. Only `Start` can end
   a phase `Ok` (resuming a pause taken with no time left); a `Pause` or a query
   leaves the job running in its phase.
   */
  function Forward(t: Timer, c: TimerCommand, ch: Channel): (t': Timer)
    requires Inv(t) && t.job.Some? && ch == Push(t.link.value, c)
    ensures Inv(t') && SameSettings(t, t') && Persisted(t, t')
    ensures t'.link.Some? && KeepsReplies(t, t')
    ensures t'.job.Some? ==> SameRun(t.job.value, t'.job.value)
    ensures !c.Start? ==> t'.runs == t.runs
    ensures c.Pause? || c.GetTimeRemaining? ==> t'.state == t.state && t'.job.Some?
    ensures !Runner.IsPaused(t.job.value.runner) ==> t' == t.(link := Some(ch))
    ensures c.Start? && Runner.IsPaused(t.job.value.runner) && t.job.value.runner.status.mode.frozen > 0 ==> Resumed(t, t')
    ensures c.Pause? && Runner.IsPaused(t.job.value.runner) ==> t' == t
  {
    var l := Runner.Loop(t.job.value.runner, t.link.value);
    assert Runner.Step(l, Runner.Send(c)) == Runner.Deliver(Runner.Loop(l.run, ch));
    SendWhileRunning(l, c);
    Advance(t, Runner.Send(c))
  }

  /** A paused job resumed with time left: it goes on counting in the same phase,
      the active time left being what was frozen at the pause, and the queue empty. */
  predicate Resumed(t: Timer, t': Timer)
    requires t.job.Some? && Runner.IsPaused(t.job.value.runner)
  {
    && t'.state == t.state && t'.job.Some? && t'.job.value.phase == t.job.value.phase
    && t'.job.value.runner.status == Runner.Running(Runner.Active)
    && t'.job.value.runner.duration - Runner.ActiveElapsed(t'.job.value.runner) == t.job.value.runner.status.mode.frozen
    && t'.link.Some? && t'.link.value.queue == []
  }

  /** A command other than `Start` never ends a running phase `Ok`; a `Pause` or
      a query leaves its status as it was, and a repeated `Pause` changes nothing. */
  lemma SendWhileRunning(l: Runner.Loop, c: TimerCommand)
    requires Runner.Valid(l) && l.run.status.Running? && l.chan.senderAlive
    ensures !c.Start? ==> Runner.Step(l, Runner.Send(c)).run.status != Runner.Exited(Runner.Ok)
    ensures c.Pause? || c.GetTimeRemaining? ==> Runner.Step(l, Runner.Send(c)).run.status == l.run.status
    ensures !Runner.IsPaused(l.run) ==> Runner.Step(l, Runner.Send(c)) == Runner.Loop(l.run, Push(l.chan, c))
    ensures Runner.IsPaused(l.run) && c.Start? && l.run.status.mode.frozen > 0 ==>
              && Runner.Step(l, Runner.Send(c)).run.status == Runner.Running(Runner.Active)
              && Runner.Step(l, Runner.Send(c)).run.duration - Runner.ActiveElapsed(Runner.Step(l, Runner.Send(c)).run) == l.run.status.mode.frozen
              && Runner.Step(l, Runner.Send(c)).chan.queue == []
    ensures Runner.IsPaused(l.run) && c.Pause? ==> Runner.Step(l, Runner.Send(c)) == l
  {
    var ch := Push(l.chan, c);
    if Runner.IsPaused(l.run) {
      assert ch.queue == [c];
      assert Runner.Step(l, Runner.Send(c)) == Runner.Wait(Runner.Loop(l.run, ch));
      var rest := ch.(queue := []);
      if c.Start? {
        assert Runner.Wait(Runner.Loop(l.run, ch)) == Runner.Loop(Runner.Resume(l.run), rest);
        Runner.ResumeLeft(l.run);
      } else if c.GetTimeRemaining? {
        var w := Runner.Loop(l.run, rest.(replies := rest.replies + [l.run.status.mode.frozen]));
        assert Runner.Wait(Runner.Loop(l.run, ch)) == Runner.Wait(w) == w;
      } else if c.Pause? {
        assert Runner.Wait(Runner.Loop(l.run, ch)) == Runner.Wait(Runner.Loop(l.run, rest)) == Runner.Loop(l.run, rest);
        assert rest == l.chan;
      }
    }
  }

  // ---------------------------------------------------------------------------
  // The handle

  /** `PomodoroTimer::new`: idle, no pair, no user, durations from whole seconds. */
  function New(workSecs: nat, breakSecs: nat, runs: seq<TimerRun>, today: Date): (t: Timer)
    ensures Inv(t)
    ensures t.state == Idle && t.link.None? && t.username.None? && t.job.None?
    ensures t.workDuration == workSecs * TicksPerSecond && t.breakDuration == breakSecs * TicksPerSecond
    ensures Secs(t.workDuration) == workSecs && Secs(t.breakDuration) == breakSecs
    ensures t.runs == runs && t.today == today
  {
    Timer(workSecs * TicksPerSecond, breakSecs * TicksPerSecond, Idle, None, None, None, runs, today)
  }

  /**
   `start_run`: a fresh channel pair replaces the old one (whose job, if any, is
   abandoned), and a job starts the work phase with the durations and user
   captured now.
   */
  function StartRun(t: Timer): (t': Timer)
    ensures Inv(t') && SameSettings(t, t')
    ensures t'.link.Some? && t'.link.value.queue == [] && t'.link.value.replies == []
    ensures t'.job.Some? ==>
              && t'.job.value.workDuration == t.workDuration
              && t'.job.value.breakDuration == t.breakDuration
              && t'.job.value.user == t.username
    ensures t.workDuration > 0 ==>
              && t'.state == Working && t'.job.Some? && t'.job.value.phase == Working
              && t'.job.value.runner == Runner.Begin(t.workDuration, Fresh()).run
              && t'.runs == t.runs
  {
    var l := Runner.Begin(t.workDuration, Fresh());
    Runner.BeginValid(t.workDuration, Fresh());
    var j := Job(Working, l.run, t.workDuration, t.breakDuration, t.username);
    Settle(t.(state := Working, link := Some(l.chan), job := Some(j)))
  }

  /** `resume_timer`: sends `Start` if there is a pair; the send unwraps, so its
      receiving end must still exist. */
  function ResumeTimer(t: Timer): (t': Timer)
    requires Inv(t) && (t.link.Some? ==> t.link.value.receiverAlive)
    ensures Inv(t') && SameSettings(t, t') && Persisted(t, t')
    ensures t.link.None? ==> t' == t
    ensures t'.job.Some? ==> t.job.Some? && SameRun(t.job.value, t'.job.value)
    ensures t.job.Some? && t.job.value.runner.status == Runner.Running(Runner.Active) ==>
              && t'.job == t.job && t'.state == t.state
              && t'.link.Some? && t'.link.value.queue == t.link.value.queue + [Start]
    ensures t.job.Some? && Runner.IsPaused(t.job.value.runner) && t.job.value.runner.status.mode.frozen > 0 ==> Resumed(t, t')
  {
    if t.link.None? then t
    else Forward(t, Start, Commander.ResumeTimer(t.link.value))
  }

  /** `start_timer`: a new run from `Idle`, otherwise a resume. */
  function StartTimer(t: Timer): (t': Timer)
    requires Inv(t)
    ensures Inv(t') && SameSettings(t, t')
    ensures t.state == Idle ==> t' == StartRun(t)
    ensures t.state != Idle ==> Persisted(t, t') && (t'.job.Some? ==> SameRun(t.job.value, t'.job.value))
    ensures t.state != Idle && t.job.value.runner.status == Runner.Running(Runner.Active) ==>
              && t'.job == t.job && t'.state == t.state
              && t'.link.Some? && t'.link.value.queue == t.link.value.queue + [Start]
    ensures t.state != Idle && Runner.IsPaused(t.job.value.runner) && t.job.value.runner.status.mode.frozen > 0 ==> Resumed(t, t')
  {
    if t.state == Idle then StartRun(t) else ResumeTimer(t)
  }

  /** `pause_timer`: nothing when `Idle` or without a pair, otherwise sends `Pause`. */
  function PauseTimer(t: Timer): (t': Timer)
    requires Inv(t)
    ensures Inv(t') && SameSettings(t, t') && t'.runs == t.runs && t'.state == t.state
    ensures t.state == Idle ==> t' == t
    ensures t'.job.Some? <==> t.job.Some?
    ensures t'.job.Some? ==> SameRun(t.job.value, t'.job.value)
    ensures t.state != Idle && !Runner.IsPaused(t.job.value.runner) ==>
              t' == t.(link := Some(Commander.PauseTimer(t.link.value)))
    ensures t.state != Idle && Runner.IsPaused(t.job.value.runner) ==> t' == t
  {
    if t.state == Idle || t.link.None? then t
    else Forward(t, Pause, Commander.PauseTimer(t.link.value))
  }

  /** `stop_timer`: nothing when `Idle` or without a pair; otherwise the state is set
      to `Idle` first, then `Stop` is sent. */
  function StopTimer(t: Timer): (t': Timer)
    requires Inv(t)
    ensures Inv(t') && SameSettings(t, t') && t'.runs == t.runs
    ensures t'.state == Idle
    ensures t.state == Idle ==> t' == t
    ensures t'.job.Some? ==> t.job.Some? && SameRun(t.job.value, t'.job.value)
    ensures t.state != Idle && !Runner.IsPaused(t.job.value.runner) ==>
              t' == t.(state := Idle, link := Some(Commander.StopTimer(t.link.value)))
    ensures t.state != Idle && Runner.IsPaused(t.job.value.runner) ==>
              t'.job.None? && t'.link.Some? && !t'.link.value.receiverAlive
  {
    if t.state == Idle || t.link.None? then t
    else
      var s := t.(state := Idle);
      Forward(s, Stop, Commander.StopTimer(s.link.value))
  }

  /** The answer a job gives to a query the moment it is sent: a paused job answers
      with its frozen value; an active one only answers at its next poll. */
  function Answer(t: Timer): (a: seq<nat>)
    ensures |a| <= 1
    ensures a != [] <==> t.job.Some? && Runner.IsPaused(t.job.value.runner)
    ensures a != [] ==> a[0] == t.job.value.runner.status.mode.frozen
  {
    if t.job.Some? && Runner.IsPaused(t.job.value.runner) then [t.job.value.runner.status.mode.frozen] else []
  }

  /** One `try_recv` on the answer receiver, the work duration if nothing is waiting. */
  function TakeReply(t: Timer): (r: (Timer, nat))
    requires t.link.Some?
    ensures t.link.value.replies == [] ==> r == (t, t.workDuration)
    ensures t.link.value.replies != [] ==> r.1 == t.link.value.replies[0]
    ensures r.0 == t.(link := r.0.link) && r.0.link.Some?
    ensures r.0.link.value == t.link.value.(replies := r.0.link.value.replies)
    ensures t.link.value.replies != [] ==> r.0.link.value.replies == t.link.value.replies[1..]
  {
    var rs := t.link.value.replies;
    if rs == [] then (t, t.workDuration)
    else (t.(link := Some(t.link.value.(replies := rs[1..]))), rs[0])
  }

  /**
   `get_remaining_time`: without a pair, the work duration. If the query cannot be
   sent the job is over: the pair is dropped and the work duration returned.
   Otherwise the query is sent and one `try_recv` reads the oldest answer waiting,
   or falls back to the work duration. Whether a paused job answers before that
   read is up to the thread scheduler: `jobFirst` says it does. With `jobFirst`
   false the read comes first and the fresh answer stays waiting for the next call.
   */
  function GetRemainingTime(t: Timer, jobFirst: bool): (r: (Timer, nat))
    requires Inv(t)
    ensures Inv(r.0) && SameSettings(t, r.0) && r.0.runs == t.runs && r.0.state == t.state
    ensures t.link.None? ==> r == (t, t.workDuration)
    ensures t.link.Some? && !t.link.value.receiverAlive ==> r == (t.(link := None), t.workDuration)
    ensures t.link.Some? && t.link.value.receiverAlive ==> r.0.link.Some? && r.0.job.Some?
    ensures t.link.Some? && t.link.value.receiverAlive && t.link.value.replies != [] ==>
              && r.1 == t.link.value.replies[0]
              && r.0.link.value.replies == t.link.value.replies[1..] + Answer(t)
    ensures t.link.Some? && t.link.value.receiverAlive && t.link.value.replies == [] && jobFirst ==>
              && r.1 == (if Answer(t) == [] then t.workDuration else Answer(t)[0])
              && r.0.link.value.replies == []
    ensures t.link.Some? && t.link.value.receiverAlive && t.link.value.replies == [] && !jobFirst ==>
              && r.1 == t.workDuration
              && r.0.link.value.replies == Answer(t)
    ensures r.0.job.Some? ==> t.job.Some? && SameRun(t.job.value, r.0.job.value)
  {
    if t.link.None? then (t, t.workDuration)
    else
      var (ch, sent) := QueryTimeRemaining(t.link.value);
      if !sent then (t.(link := None), t.workDuration)
      else if jobFirst then
        QueryAnswered(t, ch);
        TakeReply(Forward(t, GetTimeRemaining, ch))
      else
        var (p, d) := TakeReply(t);
        var pch := Push(p.link.value, GetTimeRemaining);
        QueryAnswered(p, pch);
        (Forward(p, GetTimeRemaining, pch), d)
  }

  /** What the job does with a query: a paused runner answers at once with its
      frozen value; an active one only queues it. Nothing else changes. */
  lemma QueryAnswered(t: Timer, ch: Channel)
    requires Inv(t) && t.job.Some? && ch == Push(t.link.value, GetTimeRemaining)
    ensures Forward(t, GetTimeRemaining, ch).state == t.state
    ensures Forward(t, GetTimeRemaining, ch).job.Some?
    ensures Forward(t, GetTimeRemaining, ch).link.value.replies == t.link.value.replies + Answer(t)
  {
    var l := Runner.Loop(t.job.value.runner, ch);
    if Runner.IsPaused(l.run) {
      assert ch.queue == [GetTimeRemaining];
      var l' := Runner.Loop(l.run, ch.(queue := [], replies := ch.replies + [l.run.status.mode.frozen]));
      assert Runner.Wait(l) == Runner.Wait(l');
    }
  }

  /** `set_state_time_period`: stops first, then sets only the duration of the
      named phase; `Idle` names none. */
  function SetStateTimePeriod(t: Timer, period: nat, state: TimerState): (t': Timer)
    requires Inv(t)
    ensures Inv(t') && t'.state == Idle && t'.runs == t.runs
    ensures t'.workDuration == (if state == Working then period else t.workDuration)
    ensures t'.breakDuration == (if state == Breaking then period else t.breakDuration)
    ensures t'.username == t.username && t'.today == t.today
    ensures t' == StopTimer(t).(workDuration := t'.workDuration, breakDuration := t'.breakDuration)
  {
    var s := StopTimer(t);
    match state
    case Idle => s
    case Working => s.(workDuration := period)
    case Breaking => s.(breakDuration := period)
  }

  /** `sign_in`: succeeds, and replaces the user, exactly when the timer is `Idle`. */
  function SignIn(t: Timer, name: string): (r: (Timer, bool))
    requires Inv(t)
    ensures Inv(r.0)
    ensures r.1 <==> t.state == Idle
    ensures r.1 ==> r.0 == t.(username := Some(name))
    ensures !r.1 ==> r.0 == t
  {
    if t.state != Idle then (t, false) else (t.(username := Some(name)), true)
  }

  /** The clock advances one tick, possibly onto a new date; the job's runner, if
      any, takes the tick. */
  function Tick(t: Timer, today: Date): (t': Timer)
    requires Inv(t)
    ensures Inv(t') && t'.today == today
    ensures t'.workDuration == t.workDuration && t'.breakDuration == t.breakDuration && t'.username == t.username
    ensures t.job.None? ==> t' == t.(today := today)
    ensures t'.job.Some? ==> t.job.Some? && SameRun(t.job.value, t'.job.value)
  {
    var d := t.(today := today);
    if d.job.None? then d else Advance(d, Runner.Tick)
  }

  // ---------------------------------------------------------------------------
  // Statistics

  /** What a statistics query selects records by: their user (`get_timer_runs`),
      their date being a given one (the `Today` filter), or any other date. */
  datatype Key = OfUser(user: string) | OnDate(date: Date) | OffDate(off: Date)

  predicate Keeps(k: Key, r: TimerRun) {
    match k
    case OfUser(u) => r.user == u
    case OnDate(d) => r.date == d
    case OffDate(d) => r.date != d
  }

  /** The records a key keeps, in table order. */
  function Filter(runs: seq<TimerRun>, k: Key): (rs: seq<TimerRun>)
    ensures |rs| <= |runs|
    ensures forall i :: 0 <= i < |rs| ==> Keeps(k, rs[i])
  {
    if runs == [] then []
    else (if Keeps(k, runs[0]) then [runs[0]] else []) + Filter(runs[1..], k)
  }

  /** The `fold` of `get_total_time`: adds each record's two times to the accumulator,
      left to right. */
  function Accumulate(runs: seq<TimerRun>, acc: (int, int)): (int, int)
    decreases |runs|
  {
    if runs == [] then acc
    else Accumulate(runs[1..], (acc.0 + runs[0].workingTimeSecs, acc.1 + runs[0].breakingTimeSecs))
  }

  /** Total working seconds of some records (the reference sum). */
  function WorkSum(runs: seq<TimerRun>): int {
    if runs == [] then 0 else runs[0].workingTimeSecs + WorkSum(runs[1..])
  }

  /** Total breaking seconds of some records (the reference sum). */
  function BreakSum(runs: seq<TimerRun>): int {
    if runs == [] then 0 else runs[0].breakingTimeSecs + BreakSum(runs[1..])
  }

  /** The records a statistics query covers: the user's, and for `Today` only today's. */
  function Selected(runs: seq<TimerRun>, user: string, period: Period, today: Date): seq<TimerRun> {
    var own := Filter(runs, OfUser(user));
    if period == Today then Filter(own, OnDate(today)) else own
  }

  /** `get_total_time`: (0, 0) without a user, else the user's total working and
      breaking seconds over the period. */
  function GetTotalTime(t: Timer, period: Period): (r: (int, int))
    ensures t.username.None? ==> r == (0, 0)
    ensures t.username.Some? ==>
              var rs := Selected(t.runs, t.username.value, period, t.today);
              r == (WorkSum(rs), BreakSum(rs))
  {
    if t.username.None? then (0, 0)
    else
      var rs := Selected(t.runs, t.username.value, period, t.today);
      AccumulateSums(rs, (0, 0));
      Accumulate(rs, (0, 0))
  }

  /** The left fold computes the accumulator plus the reference sums. */
  lemma {:induction false} AccumulateSums(runs: seq<TimerRun>, acc: (int, int))
    ensures Accumulate(runs, acc) == (acc.0 + WorkSum(runs), acc.1 + BreakSum(runs))
    decreases |runs|
  {
    if runs != [] {
      AccumulateSums(runs[1..], (acc.0 + runs[0].workingTimeSecs, acc.1 + runs[0].breakingTimeSecs));
    }
  }
}
