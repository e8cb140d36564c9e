/**
 What the older countdown runner (src/timer_runner.rs) does over whole traces,
 and where it parts from the current one.
 */
module LegacyRunnerProperties {
  import opened Optional
  import opened LegacyCommander
  import opened LegacyRunner
  import Commander
  import Runner

  /** Every event keeps the older runner valid; the clock moves on every tick while
      it runs, paused or not; an exited runner stays exited. */
  lemma StepValid(l: Loop, e: Event)
    requires Valid(l)
    ensures Valid(Step(l, e))
    ensures Step(l, e).run.duration == l.run.duration
    ensures Step(l, e).run.elapsed == l.run.elapsed + (if e.Tick? && l.run.status.Running? then 1 else 0)
    ensures l.run.status.Exited? ==> Step(l, e).run == l.run
  {
    var r := l.run;
    match e
    case Tick =>
      match r.status {
        case Running(Active) =>
          var l' := Loop(r.(elapsed := r.elapsed + 1), l.chan);
          PollValid(l');
          assert Step(l, e) == Poll(l');
        case Running(Paused) =>
          var l' := Loop(r.(elapsed := r.elapsed + 1), l.chan);
          WaitValid(l');
          assert Step(l, e) == Wait(l');
        case Exited(_) =>
      }
    case Send(c) =>
    case Close =>
  }

  /** The polling resume wait keeps the runner valid and leaves its clock alone. */
  lemma WaitValid(l: Loop)
    requires l.run.status == Running(Paused)
    ensures Valid(Wait(l))
    ensures Wait(l).run.duration == l.run.duration && Wait(l).run.elapsed == l.run.elapsed
  {
  }

  /** One poll of an active runner keeps it valid and leaves its clock alone. */
  lemma PollValid(l: Loop)
    requires l.run.status == Running(Active)
    ensures Valid(Poll(l))
    ensures Poll(l).run.duration == l.run.duration && Poll(l).run.elapsed == l.run.elapsed
  {
    var (c, ch) := CheckForNewCommand(l.chan);
    if c == Some(Pause) {
      WaitValid(Loop(l.run.(status := Running(Paused)), ch));
    }
  }

  lemma {:induction false} RunValid(l: Loop, evs: seq<Event>)
    requires Valid(l)
    ensures Valid(Run(l, evs))
    ensures Run(l, evs).run.duration == l.run.duration
    ensures Run(l, evs).run.elapsed == l.run.elapsed + RunningTicks(l, evs)
    ensures l.run.status.Exited? ==> Run(l, evs).run == l.run
    decreases |evs|
  {
    if evs != [] {
      StepValid(l, evs[0]);
      RunValid(Step(l, evs[0]), evs[1..]);
    }
  }

  /**
   No pause credit: completion compares the elapsed time with the duration alone,
   so every tick counts against the duration, paused or not. A phase that
   finished `Ok` has run for at least its duration; one still active has not.
   */
  lemma {:induction false} NoPauseCredit(duration: nat, ch: Channel, evs: seq<Event>)
    ensures Run(Begin(duration, ch), evs).run.status == Exited(Ok) ==> RunningTicks(Begin(duration, ch), evs) >= duration
    ensures Run(Begin(duration, ch), evs).run.status == Running(Active) ==> RunningTicks(Begin(duration, ch), evs) < duration
  {
    RunValid(Begin(duration, ch), evs);
  }

  /** A tick while paused counts against the duration as much as an active one. */
  lemma PausedTickCounts(l: Loop)
    requires l.run.status == Running(Paused) && AllPauses(l.chan.queue)
    ensures Step(l, Tick).run.status == Running(Paused)
    ensures Step(l, Tick).run.elapsed == l.run.elapsed + 1
    ensures Step(l, Tick).chan.queue == []
  {
  }

  /** `wait_for_resume` hands back only `Start` or `Stop`: a paused runner leaves the
      wait resumed (active, or done if its time ran out meanwhile) or terminated. */
  lemma WaitEndsOnlyOnStartOrStop(l: Loop)
    requires l.run.status == Running(Paused) && Valid(l)
    ensures Wait(l).run.status == Running(Paused) <==> AllPauses(l.chan.queue)
    ensures Wait(l).run.status == Exited(Terminated) <==> FirstNonPause(l.chan.queue) == Some((Stop, Wait(l).chan.queue))
    ensures (Wait(l).run.status == Running(Active) || Wait(l).run.status == Exited(Ok)) <==>
              FirstNonPause(l.chan.queue) == Some((Start, Wait(l).chan.queue))
  {
  }

  /**
   An empty or closed channel keeps the wait polling forever: once the commander
   end is gone and no `Start` or `Stop` is queued, the runner stays paused
   whatever happens, and the phase never ends.
   */
  lemma {:induction false} ClosedPauseWaitsForever(l: Loop, evs: seq<Event>)
    requires l.run.status == Running(Paused) && AllPauses(l.chan.queue) && !l.chan.senderAlive
    ensures Run(l, evs).run.status == Running(Paused)
    ensures Run(l, evs).run.elapsed == l.run.elapsed + RunningTicks(l, evs)
    decreases |evs|
  {
    if evs != [] {
      var l' := Step(l, evs[0]);
      assert l'.run.status == Running(Paused) && AllPauses(l'.chan.queue) && !l'.chan.senderAlive;
      ClosedPauseWaitsForever(l', evs[1..]);
    }
  }

  /** `Stop` ends the phase `Terminated`: at the next poll while active, and at the
      next tick while paused (behind any repeated pauses). */
  lemma StopTerminates(l: Loop, k: nat)
    requires l.run.status.Running?
    requires k < |l.chan.queue| && AllPauses(l.chan.queue[..k]) && l.chan.queue[k] == Stop
    requires l.run.status.mode.Active? ==> k == 0
    ensures Step(l, Tick).run.status == Exited(Terminated)
  {
    var q := l.chan.queue;
    if l.run.status.mode.Paused? {
      FirstNonPauseAt(q, k);
    }
  }

  /** The first non-pause command is the one behind a run of pauses. */
  lemma {:induction false} FirstNonPauseAt(q: seq<TimerCommand>, k: nat)
    requires k < |q| && AllPauses(q[..k]) && q[k] != Pause
    ensures FirstNonPause(q) == Some((q[k], q[k + 1..]))
    decreases k
  {
    if k > 0 {
      assert q[0] == q[..k][0];
      assert q[1..][..k - 1] == q[1..k];
      FirstNonPauseAt(q[1..], k - 1);
      assert q[1..][k - 1 + 1..] == q[k + 1..];
    }
  }

  /** `Start` while active is a no-op and `Pause` while paused is ignored. */
  lemma IgnoredCommands(l: Loop)
    ensures l.run.status == Running(Active) && l.chan.queue != [] && l.chan.queue[0] == Start ==>
              Step(l, Tick) == Step(l.(chan := l.chan.(queue := [])), Tick).(chan := l.chan.(queue := l.chan.queue[1..]))
    ensures l.run.status == Running(Paused) && l.chan.queue != [] && l.chan.queue[0] == Pause ==>
              Wait(l) == Wait(l.(chan := l.chan.(queue := l.chan.queue[1..])))
  {
  }

  /** An active poll takes at most one command; unless it is `Pause`, exactly the head. */
  lemma OneCommandPerPoll(l: Loop)
    requires l.run.status == Running(Active)
    ensures l.chan.queue == [] ==> Step(l, Tick).chan == l.chan
    ensures l.chan.queue != [] && l.chan.queue[0] != Pause ==> Step(l, Tick).chan.queue == l.chan.queue[1..]
  {
  }

  /** A zero duration returns `Ok` immediately, receiving nothing. */
  lemma ZeroDuration(ch: Channel)
    ensures Begin(0, ch).run.status == Exited(Ok) && Begin(0, ch).chan == ch
  {
  }

  /**
   The two runners part on the same story: a three-tick phase is paused at its
   first poll, sits out two ticks paused, is resumed, and ticks once more. The
   older runner has finished `Ok` (four ticks have passed), while the current one
   has counted two active ticks and is still running.
   */
  lemma PauseCreditDiffers()
    ensures Run(Begin(3, Channel([], true, true)), [Send(Pause), Tick, Tick, Tick, Send(Start), Tick]).run.status == Exited(Ok)
    ensures Runner.Run(Runner.Begin(3, Commander.Fresh()),
              [Runner.Send(Commander.Pause), Runner.Tick, Runner.Tick, Runner.Tick, Runner.Send(Commander.Start), Runner.Tick]).run.status
            == Runner.Running(Runner.Active)
  {
    OlderTrace();
    CurrentTrace();
  }

  /** The older runner on that story, one event at a time. */
  lemma OlderTrace()
    ensures Run(Begin(3, Channel([], true, true)), [Send(Pause), Tick, Tick, Tick, Send(Start), Tick]).run.status == Exited(Ok)
  {
    var ch := Channel([], true, true);
    var a := Runner(3, 3, Running(Paused));
    var evs := [Send(Pause), Tick, Tick, Tick, Send(Start), Tick];
    var l0 := Loop(Runner(3, 0, Running(Active)), ch);
    var l1 := Loop(l0.run, ch.(queue := [Pause]));
    var l2 := Loop(a.(elapsed := 1), ch);
    var l3 := Loop(a.(elapsed := 2), ch);
    var l4 := Loop(a, ch);
    var l5 := Loop(a, ch.(queue := [Start]));
    assert Begin(3, ch) == l0;
    assert Step(l0, Send(Pause)) == l1;
    assert Step(l1, Tick) == l2;
    assert Step(l2, Tick) == l3;
    assert Step(l3, Tick) == l4;
    assert Step(l4, Send(Start)) == l5;
    var l6 := Step(l5, Tick);
    assert l6.run.status == Exited(Ok);
    assert Run(l5, evs[5..]) == Run(l6, []) == l6;
    assert Run(l4, evs[4..]) == Run(l5, evs[5..]);
    assert Run(l3, evs[3..]) == Run(l4, evs[4..]);
    assert Run(l2, evs[2..]) == Run(l3, evs[3..]);
    assert Run(l1, evs[1..]) == Run(l2, evs[2..]);
    assert Run(l0, evs) == Run(l1, evs[1..]);
  }

  /** The current runner on that story, one event at a time. */
  lemma CurrentTrace()
    ensures Runner.Run(Runner.Begin(3, Commander.Fresh()),
              [Runner.Send(Commander.Pause), Runner.Tick, Runner.Tick, Runner.Tick, Runner.Send(Commander.Start), Runner.Tick]).run.status
            == Runner.Running(Runner.Active)
  {
    var d := Commander.Fresh();
    var evs := [Runner.Send(Commander.Pause), Runner.Tick, Runner.Tick, Runner.Tick, Runner.Send(Commander.Start), Runner.Tick];
    var l0 := Runner.Loop(Runner.Runner(3, 0, 0, Runner.Running(Runner.Active)), d);
    var l2 := Runner.Loop(Runner.Runner(3, 1, 0, Runner.Running(Runner.Paused(2, 0))), d);
    var l4 := Runner.Loop(Runner.Runner(3, 3, 0, Runner.Running(Runner.Paused(2, 2))), d);
    CurrentPauses(d);
    CurrentWaits(d);
    CurrentResumes(d);
    var l1 := Runner.Step(l0, evs[0]);
    var l3 := Runner.Step(l2, evs[2]);
    var l5 := Runner.Step(l4, evs[4]);
    var l6 := Runner.Step(l5, evs[5]);
    assert Runner.Run(l5, evs[5..]) == Runner.Run(l6, []) == l6;
    assert Runner.Run(l4, evs[4..]) == Runner.Run(l5, evs[5..]);
    assert Runner.Run(l3, evs[3..]) == Runner.Run(l4, evs[4..]);
    assert Runner.Run(l2, evs[2..]) == Runner.Run(l3, evs[3..]);
    assert Runner.Run(l1, evs[1..]) == Runner.Run(l2, evs[2..]);
    assert Runner.Run(l0, evs) == Runner.Run(l1, evs[1..]);
  }

  /** The pause sent before the first poll is taken by that poll, freezing 2 of 3 ticks. */
  lemma CurrentPauses(d: Commander.Channel)
    requires d == Commander.Fresh()
    ensures Runner.Begin(3, d) == Runner.Loop(Runner.Runner(3, 0, 0, Runner.Running(Runner.Active)), d)
    ensures Runner.Step(Runner.Step(Runner.Begin(3, d), Runner.Send(Commander.Pause)), Runner.Tick)
            == Runner.Loop(Runner.Runner(3, 1, 0, Runner.Running(Runner.Paused(2, 0))), d)
  {
    var l1 := Runner.Loop(Runner.Runner(3, 0, 0, Runner.Running(Runner.Active)), d.(queue := [Commander.Pause]));
    assert Runner.Step(Runner.Begin(3, d), Runner.Send(Commander.Pause)) == l1;
    var r := Runner.Runner(3, 1, 0, Runner.Running(Runner.Active));
    assert Runner.Step(l1, Runner.Tick) == Runner.Poll(Runner.Loop(r, l1.chan));
    assert Runner.Poll(Runner.Loop(r, l1.chan)) == Runner.Wait(Runner.Loop(r.(status := Runner.Running(Runner.Paused(2, 0))), d));
  }

  /** Two ticks while paused only lengthen the pause. */
  lemma CurrentWaits(d: Commander.Channel)
    requires d == Commander.Fresh()
    ensures Runner.Step(Runner.Step(Runner.Loop(Runner.Runner(3, 1, 0, Runner.Running(Runner.Paused(2, 0))), d), Runner.Tick), Runner.Tick)
            == Runner.Loop(Runner.Runner(3, 3, 0, Runner.Running(Runner.Paused(2, 2))), d)
  {
  }

  /** Resuming credits the two paused ticks; one more tick leaves one of three to go. */
  lemma CurrentResumes(d: Commander.Channel)
    requires d == Commander.Fresh()
    ensures Runner.Step(Runner.Step(Runner.Loop(Runner.Runner(3, 3, 0, Runner.Running(Runner.Paused(2, 2))), d),
              Runner.Send(Commander.Start)), Runner.Tick).run.status == Runner.Running(Runner.Active)
  {
    var c := Runner.Runner(3, 3, 0, Runner.Running(Runner.Paused(2, 2)));
    var l5 := Runner.Step(Runner.Loop(c, d), Runner.Send(Commander.Start));
    assert l5 == Runner.Loop(Runner.Resume(c), d);
    assert l5.run == Runner.Runner(3, 3, 2, Runner.Running(Runner.Active));
    assert Runner.Step(l5, Runner.Tick) == Runner.Poll(Runner.Loop(l5.run.(elapsed := 4), d));
  }


}
