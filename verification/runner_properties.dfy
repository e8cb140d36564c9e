/**
 What the countdown runner of src/core/timer_runner.rs guarantees over whole
 traces of events: pause credit, the frozen answer while paused, how a run ends.
 */
module RunnerProperties {
  import opened Commander
  import opened Runner

  /** `n` clock ticks with nothing else happening. */
  function Ticks(n: nat): (evs: seq<Event>)
    ensures |evs| == n
    ensures forall i :: 0 <= i < n ==> evs[i] == Tick
  {
    if n == 0 then [] else [Tick] + Ticks(n - 1)
  }

  /** A valid runner stays valid over any trace. Its active time grows exactly by the
      ticks that find it active, answers always report the active time left, and
      `time_in_pause` never decreases. */
  lemma {:induction false} RunValid(l: Loop, evs: seq<Event>)
    requires Valid(l)
    ensures Valid(Run(l, evs))
    ensures Run(l, evs).run.duration == l.run.duration
    ensures l.run.status.Exited? ==> Run(l, evs).run == l.run
    ensures Run(l, evs).run.status != Exited(Terminated) ==>
              ActiveElapsed(Run(l, evs).run) == ActiveElapsed(l.run) + ActiveTicks(l, evs)
    ensures Run(l, evs).run.timeInPause >= l.run.timeInPause
    decreases |evs|
  {
    if evs != [] {
      var l' := Step(l, evs[0]);
      StepValid(l, evs[0]);
      RunValid(l', evs[1..]);
      if l'.run.status == Exited(Terminated) {
        assert Run(l', evs[1..]).run == l'.run;
      }
    }
  }

  /** From a valid state with nothing counted yet, the active ticks of any trace are
      the active time of where it ends. */
  lemma {:induction false} CountedFromStart(l: Loop, evs: seq<Event>)
    requires Valid(l) && ActiveElapsed(l.run) == 0
    ensures Run(l, evs).run.status == Exited(Ok) ==> ActiveTicks(l, evs) == l.run.duration
    ensures Run(l, evs).run.status == Running(Active) ==> ActiveTicks(l, evs) < l.run.duration
    ensures Run(l, evs).run.status.Running? ==> ActiveTicks(l, evs) <= l.run.duration
  {
    RunValid(l, evs);
    var e := Run(l, evs);
    if e.run.status != Exited(Terminated) {
      assert ActiveElapsed(e.run) == ActiveTicks(l, evs);
      assert Accounting(e.run);
    }
  }

  /**
   Pause credit: paused ticks never count against the duration. A phase that
   finishes `Ok` has counted exactly `duration` ticks while active, however long it
   was paused; a phase still running has counted fewer.
   */
  lemma {:induction false} PauseCredit(duration: nat, ch: Channel, evs: seq<Event>)
    requires ch.receiverAlive
    ensures Run(Begin(duration, ch), evs).run.status == Exited(Ok) ==> ActiveTicks(Begin(duration, ch), evs) == duration
    ensures Run(Begin(duration, ch), evs).run.status == Running(Active) ==> ActiveTicks(Begin(duration, ch), evs) < duration
    ensures Run(Begin(duration, ch), evs).run.status.Running? ==> ActiveTicks(Begin(duration, ch), evs) <= duration
  {
    BeginValid(duration, ch);
    CountedFromStart(Begin(duration, ch), evs);
  }

  /** Wall-clock time splits into active ticks, credited pause and the pause in progress. */
  lemma ElapsedSplits(l: Loop)
    requires Valid(l) && l.run.status != Exited(Terminated)
    ensures l.run.elapsed == ActiveElapsed(l.run) + l.run.timeInPause + PausedFor(l.run)
    ensures 0 <= ActiveElapsed(l.run) <= l.run.duration
  {
  }

  /** Resuming credits the whole pause: `time_in_pause`, and with it the completion
      threshold, grows by exactly the paused interval, and the active time left is
      what was frozen. */
  lemma ResumeCreditsPause(l: Loop)
    requires Valid(l) && IsPaused(l.run) && l.chan.receiverAlive
    ensures Step(l, Send(Start)).run.timeInPause == l.run.timeInPause + l.run.status.mode.pausedFor
    ensures Step(l, Send(Start)).run.status == Running(Active) ==>
              Step(l, Send(Start)).run.duration - ActiveElapsed(Step(l, Send(Start)).run) == l.run.status.mode.frozen
    ensures Step(l, Send(Start)).run.status == Running(Active) || Step(l, Send(Start)).run.status == Exited(Ok)
  {
    var ch := Push(l.chan, Start);
    assert ch.queue == [Start];
    assert Step(l, Send(Start)) == Wait(Loop(l.run, ch));
    assert Wait(Loop(l.run, ch)) == Loop(Resume(l.run), ch.(queue := []));
  }

  // ---------------------------------------------------------------------------
  // While paused

  /** Events that leave a paused runner paused: ticks, repeated pauses and queries. */
  predicate KeepsPaused(e: Event) {
    e.Tick? || e == Send(Pause) || e == Send(GetTimeRemaining)
  }

  /** The queries in a trace. */
  function Queries(evs: seq<Event>): nat {
    if evs == [] then 0 else (if evs[0] == Send(GetTimeRemaining) then 1 else 0) + Queries(evs[1..])
  }

  /** `n` copies of one value. */
  function Repeat(v: nat, n: nat): (s: seq<nat>)
    ensures |s| == n
    ensures forall i :: 0 <= i < n ==> s[i] == v
  {
    if n == 0 then [] else [v] + Repeat(v, n - 1)
  }

  /** One such event keeps the runner paused on the same frozen value and adds one
      answer holding it exactly when the event is a query. */
  lemma PausedStep(l: Loop, e: Event)
    requires Valid(l) && IsPaused(l.run) && KeepsPaused(e)
    ensures IsPaused(Step(l, e).run) && Valid(Step(l, e))
    ensures Step(l, e).run.status.mode.frozen == l.run.status.mode.frozen
    ensures Step(l, e).run.timeInPause == l.run.timeInPause
    ensures Step(l, e).chan.replies == l.chan.replies + Repeat(l.run.status.mode.frozen, if e == Send(GetTimeRemaining) then 1 else 0)
  {
    StepValid(l, e);
    var f := l.run.status.mode.frozen;
    if e.Send? {
      var ch := Push(l.chan, e.cmd);
      assert ch.queue == [e.cmd];
      var rest := ch.(queue := []);
      if e.cmd == Pause {
        assert Wait(Loop(l.run, ch)) == Wait(Loop(l.run, rest));
      } else {
        assert Wait(Loop(l.run, ch)) == Wait(Loop(l.run, rest.(replies := rest.replies + [f])));
      }
    }
  }

  /**
   While paused, the remaining time is frozen: over any trace of ticks, repeated
   pauses and queries the runner stays paused, and every query is answered, in
   order, with the value frozen when the pause arrived.
   */
  lemma {:induction false} FrozenWhilePaused(l: Loop, evs: seq<Event>)
    requires Valid(l) && IsPaused(l.run)
    requires forall i :: 0 <= i < |evs| ==> KeepsPaused(evs[i])
    ensures IsPaused(Run(l, evs).run)
    ensures Run(l, evs).run.status.mode.frozen == l.run.status.mode.frozen
    ensures Run(l, evs).chan.replies == l.chan.replies + Repeat(l.run.status.mode.frozen, Queries(evs))
    decreases |evs|
  {
    if evs != [] {
      var f := l.run.status.mode.frozen;
      var l' := Step(l, evs[0]);
      PausedStep(l, evs[0]);
      FrozenWhilePaused(l', evs[1..]);
      assert Run(l, evs) == Run(l', evs[1..]);
      var k := if evs[0] == Send(GetTimeRemaining) then 1 else 0;
      assert Queries(evs) == k + Queries(evs[1..]);
      RepeatAdd(f, k, Queries(evs[1..]));
    }
  }

  /** Answers of one value in two rounds are answers of that value in one. */
  lemma RepeatAdd(v: nat, a: nat, b: nat)
    ensures Repeat(v, a) + Repeat(v, b) == Repeat(v, a + b)
  {
    assert |Repeat(v, a) + Repeat(v, b)| == a + b;
  }

  // ---------------------------------------------------------------------------
  // How a phase ends

  /** `Stop` while paused ends the phase `Terminated` at once. */
  lemma StopWhilePaused(l: Loop)
    requires Valid(l) && IsPaused(l.run)
    ensures Step(l, Send(Stop)).run.status == Exited(Terminated)
  {
    var ch := Push(l.chan, Stop);
    assert ch.queue == [Stop];
  }

  /** The commander end dropped while paused ends the phase `Terminated` at once. */
  lemma CloseWhilePaused(l: Loop)
    requires Valid(l) && IsPaused(l.run)
    ensures Step(l, Close).run.status == Exited(Terminated)
  {
  }

  /** `Stop` received by an active poll ends the phase `Terminated`, answering nothing. */
  lemma StopWhileActive(l: Loop)
    requires Valid(l) && l.run.status == Running(Active)
    requires l.chan.queue != [] && l.chan.queue[0] == Stop
    ensures Step(l, Tick).run.status == Exited(Terminated)
    ensures Step(l, Tick).chan.queue == l.chan.queue[1..]
    ensures Step(l, Tick).chan.replies == l.chan.replies
  {
  }

  /** `Start` received by an active poll is a no-op: the step goes exactly as if the
      queue had been empty, apart from the command taken off it. */
  lemma StartWhileActive(l: Loop)
    requires l.run.status == Running(Active)
    requires l.chan.queue != [] && l.chan.queue[0] == Start
    ensures Step(l, Tick) == Step(l.(chan := l.chan.(queue := [])), Tick).(chan := l.chan.(queue := l.chan.queue[1..]))
  {
  }

  /**
   An active poll takes at most one command. Unless that command is `Pause` (which
   enters the resume wait), exactly the head of the queue is consumed, and a
   `GetTimeRemaining` is answered exactly once.
   */
  lemma OneCommandPerPoll(l: Loop)
    requires l.run.status == Running(Active)
    ensures l.chan.queue == [] ==> Step(l, Tick).chan == l.chan
    ensures l.chan.queue != [] && !l.chan.queue[0].Pause? ==>
              && Step(l, Tick).chan.queue == l.chan.queue[1..]
              && |Step(l, Tick).chan.replies| == |l.chan.replies| + (if l.chan.queue[0].GetTimeRemaining? then 1 else 0)
  {
  }

  /** Once a phase has ended, nothing changes how it ended. */
  lemma ExitIsFinal(l: Loop, evs: seq<Event>)
    requires Valid(l) && l.run.status.Exited?
    ensures Run(l, evs).run == l.run
  {
    RunValid(l, evs);
  }

  /** A zero duration returns `Ok` without receiving any command, whatever was queued. */
  lemma ZeroDuration(ch: Channel)
    ensures Begin(0, ch).run.status == Exited(Ok)
    ensures Begin(0, ch).chan == ch
  {
  }

  /**
   Progress: an active runner with nothing queued and nothing sent finishes `Ok`
   after exactly the active time it has left, whether or not its commander is
   still there (an empty or disconnected channel is simply skipped).
   */
  lemma {:induction false} RunsOut(l: Loop)
    requires Valid(l) && l.run.status == Running(Active) && l.chan.queue == []
    ensures l.run.duration - ActiveElapsed(l.run) > 0
    ensures Run(l, Ticks(l.run.duration - ActiveElapsed(l.run))).run.status == Exited(Ok)
    decreases l.run.duration - ActiveElapsed(l.run)
  {
    var n := l.run.duration - ActiveElapsed(l.run);
    var l' := Step(l, Tick);
    StepValid(l, Tick);
    assert Ticks(n)[1..] == Ticks(n - 1);
    if l'.run.status == Running(Active) {
      RunsOut(l');
    } else {
      assert Run(l', Ticks(n - 1)).run == l'.run by { ExitIsFinal(l', Ticks(n - 1)); }
    }
  }
}
