/**
 The older countdown runner (src/timer_runner.rs), on the same discrete time as
 the current one. Three differences matter: the completion check compares the
 elapsed time with the duration alone (no pause credit); the resume wait polls
 once per tick instead of blocking, so a command sent while paused is only seen
 after the next tick; and an empty or closed channel keeps that wait polling
 forever.
 */
module LegacyRunner {
  import opened Optional
  import opened LegacyCommander

  datatype ExitCondition = Ok | Terminated

  datatype Mode = Active | Paused

  datatype Status = Running(mode: Mode) | Exited(exit: ExitCondition)

  /** One call of `run_timer`: its duration, the ticks since it started, where it is. */
  datatype Runner = Runner(duration: nat, elapsed: nat, status: Status)

  datatype Loop = Loop(run: Runner, chan: Channel)

  datatype Event = Tick | Send(cmd: TimerCommand) | Close

  /** The loop condition: the phase goes on while the elapsed time, paused ticks
      included, is below the duration. */
  function Guard(r: Runner): (g: Runner)
    ensures g.duration == r.duration && g.elapsed == r.elapsed
    ensures g.status == Running(Active) <==> r.elapsed < r.duration
    ensures g.status.Exited? ==> g.status == Exited(Ok)
  {
    if r.elapsed < r.duration then r.(status := Running(Active)) else r.(status := Exited(Ok))
  }

  /** Starts `run_timer(duration)`; a zero duration returns `Ok` at once. */
  function Begin(duration: nat, ch: Channel): (l: Loop)
    ensures l.chan == ch
    ensures l.run.duration == duration && l.run.elapsed == 0
    ensures l.run.status == (if duration == 0 then Exited(Ok) else Running(Active))
  {
    Loop(Guard(Runner(duration, 0, Running(Active))), ch)
  }

  /** `check_for_new_command`: one `try_recv`, an empty or disconnected channel giving nothing. */
  function CheckForNewCommand(ch: Channel): (r: (Option<TimerCommand>, Channel))
    ensures ch.queue == [] ==> r.0.None? && r.1 == ch
    ensures ch.queue != [] ==> r.0 == Some(ch.queue[0]) && r.1 == ch.(queue := ch.queue[1..])
    ensures (if r.0.Some? then [r.0.value] else []) + r.1.queue == ch.queue
    ensures r.1.(queue := ch.queue) == ch
  {
    if ch.queue == [] then (None, ch) else (Some(ch.queue[0]), ch.(queue := ch.queue[1..]))
  }

  /** Every command of `q` is a `Pause`. */
  predicate AllPauses(q: seq<TimerCommand>) {
    forall i :: 0 <= i < |q| ==> q[i] == Pause
  }

  /**
   What one round of `wait_for_resume`'s polling finds in the queue: pauses are
   skipped without sleeping, and the first other command is handed back with
   what is left behind it. Nothing is found when only pauses were queued.
   */
  function FirstNonPause(q: seq<TimerCommand>): (r: Option<(TimerCommand, seq<TimerCommand>)>)
    ensures r.None? <==> AllPauses(q)
    ensures r.Some? ==> r.value.0 == Start || r.value.0 == Stop
    ensures r.Some? ==> exists k :: 0 <= k < |q| && AllPauses(q[..k]) && q[k] == r.value.0 && r.value.1 == q[k + 1..]
  {
    if q == [] then None
    else if q[0] == Pause then
      var r := FirstNonPause(q[1..]);
      if r.Some? then
        ghost var k :| 0 <= k < |q[1..]| && AllPauses(q[1..][..k]) && q[1..][k] == r.value.0 && r.value.1 == q[1..][k + 1..];
        assert q[..k + 1] == [Pause] + q[1..][..k];
        assert AllPauses(q[..k + 1]);
        assert q[k + 1] == r.value.0 && r.value.1 == q[k + 2..];
        assert 0 <= k + 1 < |q| && AllPauses(q[..k + 1]) && q[k + 1] == r.value.0 && r.value.1 == q[k + 1 + 1..];
        r
      else r
    else
      assert q[..0] == [];
      Some((q[0], q[1..]))
  }

  /** `wait_for_resume` on a paused runner, as far as the queue goes right now. */
  function Wait(l: Loop): (w: Loop)
    ensures w.run.duration == l.run.duration && w.run.elapsed == l.run.elapsed
    ensures w.chan.(queue := l.chan.queue) == l.chan
    ensures |w.chan.queue| <= |l.chan.queue|
    ensures l.run.status == Running(Paused) ==> (AllPauses(l.chan.queue) <==> w.run == l.run)
  {
    match FirstNonPause(l.chan.queue)
    case None => Loop(l.run, l.chan.(queue := []))
    case Some((c, rest)) =>
      if c == Start then Loop(Guard(l.run), l.chan.(queue := rest))
      else Loop(l.run.(status := Exited(Terminated)), l.chan.(queue := rest))
  }

  /** One active iteration after its sleep: one `check_for_new_command`. */
  function Poll(l: Loop): (p: Loop)
    ensures p.run.duration == l.run.duration && p.run.elapsed == l.run.elapsed
    ensures p.chan.(queue := l.chan.queue) == l.chan
    ensures l.chan.queue == [] ==> p.chan == l.chan
    ensures l.chan.queue != [] ==> |p.chan.queue| < |l.chan.queue|
  {
    var (c, ch) := CheckForNewCommand(l.chan);
    match c
    case None => Loop(Guard(l.run), ch)
    case Some(Start) => Loop(Guard(l.run), ch)
    case Some(Stop) => Loop(l.run.(status := Exited(Terminated)), ch)
    case Some(Pause) => Wait(Loop(l.run.(status := Running(Paused)), ch))
  }

  /** One event. Every tick advances the clock while running, paused or not; a paused
      runner looks at the channel only after its tick. Sends just queue. */
  function Step(l: Loop, e: Event): (s: Loop)
    ensures s.run.duration == l.run.duration
    ensures s.run.elapsed == l.run.elapsed + (if e.Tick? && l.run.status.Running? then 1 else 0)
    ensures l.run.status.Exited? ==> s.run == l.run
  {
    var r := l.run;
    match e
    case Tick =>
      (match r.status
       case Running(Active) => Poll(Loop(r.(elapsed := r.elapsed + 1), l.chan))
       case Running(Paused) => Wait(Loop(r.(elapsed := r.elapsed + 1), l.chan))
       case Exited(_) => l)
    case Send(c) => if l.chan.senderAlive then Loop(r, Push(l.chan, c)) else l
    case Close => Loop(r, l.chan.(senderAlive := false))
  }

  /** A trace of events, in order. The clock advances by at most one tick per event. */
  function Run(l: Loop, evs: seq<Event>): (r: Loop)
    ensures r.run.duration == l.run.duration
    ensures l.run.elapsed <= r.run.elapsed <= l.run.elapsed + |evs|
    decreases |evs|
  {
    if evs == [] then l else Run(Step(l, evs[0]), evs[1..])
  }

  /** The ticks of a trace that find the runner still running, paused or not. */
  function RunningTicks(l: Loop, evs: seq<Event>): nat
    decreases |evs|
  {
    if evs == [] then 0
    else (if evs[0].Tick? && l.run.status.Running? then 1 else 0) + RunningTicks(Step(l, evs[0]), evs[1..])
  }

  /** The only invariant the older runner keeps: an active runner has time left and a
      runner that finished `Ok` has used its whole duration up. */
  predicate Valid(l: Loop) {
    match l.run.status
    case Running(Active) => l.run.elapsed < l.run.duration
    case Exited(Ok) => l.run.elapsed >= l.run.duration
    case _ => true
  }
}
