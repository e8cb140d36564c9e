/**
 The countdown runner of one phase (src/core/timer_runner.rs), as a discrete-time
 state machine.

 Wall-clock time is counted in ticks, one tick per poll quantum. The environment
 is a trace of events: a tick of the clock, a command sent by the commander, or
 the commander end being dropped. While active the runner only looks at the
 channel after each tick and takes at most one command; while paused it blocks on
 the channel, so every command is handled the moment it arrives.
 */
module Runner {
  import opened Commander

  /** How `run_timer` ends: the phase ran out, or it was cut short. */
  datatype ExitCondition = Ok | Terminated

  /**
   `Active`: counting down. `Paused`: blocked in the resume wait, holding the
   remaining time frozen when the pause arrived and the ticks spent paused so far
   (the `start_pause.elapsed()` that is credited on resumption).
   */
  datatype Mode = Active | Paused(frozen: nat, pausedFor: nat)

  datatype Status = Running(mode: Mode) | Exited(exit: ExitCondition)

  /** One call of `run_timer`: its fixed duration, the ticks since it started,
      the pause time credited so far, and where it is. */
  datatype Runner = Runner(duration: nat, elapsed: nat, timeInPause: nat, status: Status)

  /** A runner together with the channel pair it reads commands from and answers on. */
  datatype Loop = Loop(run: Runner, chan: Channel)

  /** What can happen to a runner from outside. */
  datatype Event = Tick | Send(cmd: TimerCommand) | Close

  /** `Duration::saturating_sub`. */
  function SaturatingSub(a: nat, b: nat): (d: nat)
    ensures d <= a
    ensures a >= b ==> d + b == a
    ensures a <= b ==> d == 0
  {
    if a >= b then a - b else 0
  }

  predicate IsPaused(r: Runner) {
    r.status.Running? && r.status.mode.Paused?
  }

  /** Ticks of the pause in progress, not yet credited. */
  function PausedFor(r: Runner): nat {
    match r.status
    case Running(Paused(_, n)) => n
    case _ => 0
  }

  /** Ticks the countdown has actually been counting: wall-clock ticks minus every pause. */
  function ActiveElapsed(r: Runner): int {
    r.elapsed - r.timeInPause - PausedFor(r)
  }

  /** The loop condition of `run_timer`, checked before every iteration: the phase
      goes on while the elapsed time is below the threshold `duration + time_in_pause`. */
  function Guard(r: Runner): (g: Runner)
    ensures g.(status := r.status) == r
    ensures g.status == Running(Active) || g.status == Exited(Ok)
  {
    if r.elapsed < r.duration + r.timeInPause then r.(status := Running(Active)) else r.(status := Exited(Ok))
  }

  /** Starts `run_timer(duration)` on a channel that may already hold commands: a zero
      duration finishes `Ok` at once, without receiving anything. */
  function Begin(duration: nat, ch: Channel): (l: Loop)
    ensures l.chan == ch
    ensures l.run.duration == duration && l.run.elapsed == 0 && l.run.timeInPause == 0
    ensures l.run.status == (if duration == 0 then Exited(Ok) else Running(Active))
  {
    Loop(Guard(Runner(duration, 0, 0, Running(Active))), ch)
  }

  /** Leaves the resume wait on `Start`: the pause interval is added to `time_in_pause`
      and the loop condition is checked again. */
  function Resume(r: Runner): (r': Runner)
    ensures r'.duration == r.duration && r'.elapsed == r.elapsed
    ensures r'.timeInPause == r.timeInPause + PausedFor(r)
    ensures ActiveElapsed(r') == ActiveElapsed(r)
    ensures r'.status == Running(Active) <==> ActiveElapsed(r) < r.duration
  {
    Guard(r.(timeInPause := r.timeInPause + PausedFor(r)))
  }

  /** Leaves the loop on `Stop`: the phase ends `Terminated` with its clock as it was. */
  function Terminate(r: Runner): (r': Runner)
    ensures r'.status == Exited(Terminated) && r'.(status := r.status) == r
  {
    r.(status := Exited(Terminated))
  }

  /**
   `wait_for_resume` on a paused runner: a blocking receive loop. `Pause` is
   ignored, `GetTimeRemaining` is answered with the frozen value, `Start` resumes,
   `Stop` terminates, and a channel that is empty and closed counts as `Stop`.
   With the queue empty and the sender alive it keeps waiting.
   */
  function Wait(l: Loop): (w: Loop)
    requires IsPaused(l.run)
    ensures w.run.duration == l.run.duration && w.run.elapsed == l.run.elapsed
    ensures w.chan.senderAlive == l.chan.senderAlive && w.chan.receiverAlive == l.chan.receiverAlive
    ensures |w.chan.queue| <= |l.chan.queue|
    ensures IsPaused(w.run) ==> w.run == l.run && w.chan.queue == [] && w.chan.senderAlive
    decreases |l.chan.queue|
  {
    var ch := l.chan;
    if ch.queue == [] then
      if ch.senderAlive then l else Loop(Terminate(l.run), ch)
    else
      var rest := ch.(queue := ch.queue[1..]);
      match ch.queue[0]
      case Pause => Wait(Loop(l.run, rest))
      case GetTimeRemaining => Wait(Loop(l.run, rest.(replies := rest.replies + [l.run.status.mode.frozen])))
      case Start => Loop(Resume(l.run), rest)
      case Stop => Loop(Terminate(l.run), rest)
  }

  /**
   The body of one active iteration after its sleep: compute the saturating
   remaining time, then `try_recv` once. An empty or disconnected channel changes
   nothing. `Start` is ignored, `Stop` terminates, `GetTimeRemaining` is answered,
   and `Pause` enters the resume wait with the remaining time frozen.
   */
  function Poll(l: Loop): (p: Loop)
    ensures p.run.duration == l.run.duration && p.run.elapsed == l.run.elapsed
    ensures p.chan.senderAlive == l.chan.senderAlive && p.chan.receiverAlive == l.chan.receiverAlive
    ensures |p.chan.queue| <= |l.chan.queue| && (l.chan.queue != [] ==> |p.chan.queue| < |l.chan.queue|)
    ensures |l.chan.replies| <= |p.chan.replies|
  {
    var r := l.run;
    var remaining := SaturatingSub(r.duration + r.timeInPause, r.elapsed);
    var ch := l.chan;
    if ch.queue == [] then Loop(Guard(r), ch)
    else
      var rest := ch.(queue := ch.queue[1..]);
      match ch.queue[0]
      case Start => Loop(Guard(r), rest)
      case Stop => Loop(Terminate(r), rest)
      case GetTimeRemaining => Loop(Guard(r), rest.(replies := rest.replies + [remaining]))
      case Pause =>
        var w := Loop(r.(status := Running(Paused(remaining, 0))), rest);
        WaitReplies(w);
        Wait(w)
  }

  /** Something has just changed on the channel: a paused runner, blocked in its
      receive, reacts at once; an active one only looks at its next poll. */
  function Deliver(l: Loop): (d: Loop)
    ensures d.run.duration == l.run.duration && d.run.elapsed == l.run.elapsed
    ensures d.chan.senderAlive == l.chan.senderAlive && d.chan.receiverAlive == l.chan.receiverAlive
    ensures !IsPaused(l.run) ==> d == l
    ensures IsPaused(d.run) ==> d.chan.queue == []
  {
    if IsPaused(l.run) then Wait(l) else l
  }

  /** One event. A tick advances the clock; while active it is followed by one poll,
      while paused it only lengthens the pause. A send queues the command (and a
      paused runner handles it at once); a close drops the commander end. */
  function Step(l: Loop, e: Event): (s: Loop)
    ensures s.run.duration == l.run.duration
    ensures s.run.elapsed == l.run.elapsed + (if e.Tick? && l.run.status.Running? then 1 else 0)
    ensures l.run.status.Exited? ==> s.run == l.run
  {
    var r := l.run;
    match e
    case Tick =>
      (match r.status
       case Running(Active) => Poll(Loop(r.(elapsed := r.elapsed + 1), l.chan))
       case Running(Paused(f, n)) => Loop(r.(elapsed := r.elapsed + 1, status := Running(Paused(f, n + 1))), l.chan)
       case Exited(_) => l)
    case Send(c) =>
      if !l.chan.senderAlive then l
      else Deliver(Loop(r, Push(l.chan, c)))
    case Close => Deliver(Loop(r, l.chan.(senderAlive := false)))
  }

  /** A trace of events, in order. The clock advances by at most one tick per event. */
  function Run(l: Loop, evs: seq<Event>): (r: Loop)
    ensures r.run.duration == l.run.duration
    ensures l.run.elapsed <= r.run.elapsed <= l.run.elapsed + |evs|
    decreases |evs|
  {
    if evs == [] then l else Run(Step(l, evs[0]), evs[1..])
  }

  /** The ticks of a trace that find the runner active (those that count down). */
  function ActiveTicks(l: Loop, evs: seq<Event>): nat
    decreases |evs|
  {
    if evs == [] then 0
    else (if evs[0].Tick? && l.run.status == Running(Active) then 1 else 0) + ActiveTicks(Step(l, evs[0]), evs[1..])
  }

  // ---------------------------------------------------------------------------
  // The accounting invariant

  /**
   Time accounting of a runner: the active ticks never exceed the duration; an
   active runner has some left; a paused runner's frozen remaining time is exactly
   what is left; a runner that finished `Ok` counted down its whole duration.
   */
  predicate Accounting(r: Runner) {
    match r.status
    case Exited(Terminated) => true
    case Exited(Ok) => r.timeInPause <= r.elapsed && r.elapsed - r.timeInPause == r.duration
    case Running(Active) => r.timeInPause <= r.elapsed && r.elapsed - r.timeInPause < r.duration
    case Running(Paused(f, n)) =>
      && r.timeInPause + n <= r.elapsed
      && r.elapsed - r.timeInPause - n <= r.duration
      && f == r.duration - (r.elapsed - r.timeInPause - n)
  }

  /** A paused runner has drained its queue and still has a commander: otherwise
      the resume wait would have gone on. */
  predicate Drained(l: Loop) {
    IsPaused(l.run) ==> l.chan.queue == [] && l.chan.senderAlive
  }

  /** The states a runner can be in while its own receiving end exists. */
  predicate Valid(l: Loop) {
    Accounting(l.run) && Drained(l) && l.chan.receiverAlive
  }

  /** A runner starts in a valid state. */
  lemma {:induction false} BeginValid(duration: nat, ch: Channel)
    requires ch.receiverAlive
    ensures Valid(Begin(duration, ch))
    ensures ActiveElapsed(Begin(duration, ch).run) == 0
  {
  }

  /** The resume wait keeps the accounting: answers carry the frozen value, no active
      time passes, a resumption credits exactly the pause interval, and no credit is
      ever taken back. */
  lemma {:induction false} WaitAccounting(l: Loop)
    requires IsPaused(l.run) && Accounting(l.run)
    ensures Accounting(Wait(l).run) && Drained(Wait(l))
    ensures Wait(l).run.status != Exited(Terminated) ==> ActiveElapsed(Wait(l).run) == ActiveElapsed(l.run)
    ensures IsPaused(Wait(l).run) ==> Wait(l).run.timeInPause == l.run.timeInPause
    ensures Wait(l).run.status == Running(Active) || Wait(l).run.status == Exited(Ok) ==>
              Wait(l).run.timeInPause == l.run.timeInPause + l.run.status.mode.pausedFor
    ensures Wait(l).run.timeInPause >= l.run.timeInPause
    decreases |l.chan.queue|
  {
    var ch := l.chan;
    if ch.queue != [] {
      var rest := ch.(queue := ch.queue[1..]);
      match ch.queue[0]
      case Pause => WaitAccounting(Loop(l.run, rest));
      case GetTimeRemaining => WaitAccounting(Loop(l.run, rest.(replies := rest.replies + [l.run.status.mode.frozen])));
      case Start =>
      case Stop =>
    }
  }

  /** Resuming a valid pause: the phase goes on, active, exactly when time was left
      at the pause, and then the active time left is the frozen value. */
  lemma ResumeLeft(r: Runner)
    requires IsPaused(r) && Accounting(r)
    ensures Resume(r).status == Running(Active) <==> r.status.mode.frozen > 0
    ensures Resume(r).status != Running(Active) ==> Resume(r).status == Exited(Ok)
    ensures Resume(r).duration == r.duration && Resume(r).elapsed == r.elapsed
    ensures Resume(r).status == Running(Active) ==> r.duration - ActiveElapsed(Resume(r)) == r.status.mode.frozen
    ensures Accounting(Resume(r))
  {
    assert PausedFor(Resume(r)) == 0;
  }

  /** The answers a step adds: every earlier answer is kept, and each new one is the
      active time still left at that moment. */
  predicate AnswersLeft(before: seq<nat>, after: seq<nat>, left: int) {
    && |before| <= |after|
    && after[..|before|] == before
    && forall i :: |before| <= i < |after| ==> after[i] == left
  }

  /** Adding answers of one value in two rounds adds them in one. */
  lemma AnswersChain(before: seq<nat>, mid: seq<nat>, after: seq<nat>, left: int)
    requires AnswersLeft(before, mid, left) && AnswersLeft(mid, after, left)
    ensures AnswersLeft(before, after, left)
  {
    assert after[..|before|] == mid[..|before|];
  }

  /** The resume wait only consumes from the front of the queue. */
  lemma {:induction false} WaitConsumes(l: Loop)
    requires IsPaused(l.run)
    ensures Wait(l).chan.queue == l.chan.queue[|l.chan.queue| - |Wait(l).chan.queue|..]
    decreases |l.chan.queue|
  {
    var ch := l.chan;
    if ch.queue != [] {
      var rest := ch.(queue := ch.queue[1..]);
      match ch.queue[0]
      case Pause =>
        WaitConsumes(Loop(l.run, rest));
      case GetTimeRemaining =>
        WaitConsumes(Loop(l.run, rest.(replies := rest.replies + [l.run.status.mode.frozen])));
      case Start =>
      case Stop =>
    }
  }

  /** The resume wait keeps every earlier answer and answers each query with the
      value frozen at the pause. */
  lemma {:induction false} WaitReplies(l: Loop)
    requires IsPaused(l.run)
    ensures AnswersLeft(l.chan.replies, Wait(l).chan.replies, l.run.status.mode.frozen)
    decreases |l.chan.queue|
  {
    var ch := l.chan;
    var f := l.run.status.mode.frozen;
    if ch.queue != [] {
      var rest := ch.(queue := ch.queue[1..]);
      match ch.queue[0]
      case Pause =>
        WaitReplies(Loop(l.run, rest));
      case GetTimeRemaining =>
        var mid := rest.replies + [f];
        var l' := Loop(l.run, rest.(replies := mid));
        WaitReplies(l');
        var w := Wait(l');
        assert Wait(l) == w;
        assert AnswersLeft(ch.replies, mid, f);
        AnswersChain(ch.replies, mid, w.chan.replies, f);
      case Start =>
      case Stop =>
    }
  }

  /** Ticks counted by one event: a tick that finds the runner active. */
  function Counted(l: Loop, e: Event): nat {
    if e.Tick? && l.run.status == Running(Active) then 1 else 0
  }

  /** A poll that takes `Pause` freezes the active time left and enters the resume
      wait, which keeps the runner valid. */
  lemma EnterPause(r: Runner, rest: Channel)
    requires r.status == Running(Active) && rest.receiverAlive
    requires r.timeInPause <= r.elapsed && r.elapsed - r.timeInPause <= r.duration
    ensures var w := Wait(Loop(r.(status := Running(Paused(r.duration - ActiveElapsed(r), 0))), rest));
      && Valid(w) && w.run.duration == r.duration
      && (w.run.status != Exited(Terminated) ==> ActiveElapsed(w.run) == ActiveElapsed(r))
      && AnswersLeft(rest.replies, w.chan.replies, r.duration - ActiveElapsed(r))
      && w.run.timeInPause >= r.timeInPause
  {
    var p := Loop(r.(status := Running(Paused(r.duration - ActiveElapsed(r), 0))), rest);
    assert Accounting(p.run);
    WaitAccounting(p);
    WaitReplies(p);
  }

  /** One poll keeps the accounting; it answers a query with the active time left. */
  lemma PollValid(l: Loop)
    requires l.run.status == Running(Active) && l.chan.receiverAlive
    requires l.run.timeInPause <= l.run.elapsed && l.run.elapsed - l.run.timeInPause <= l.run.duration
    ensures Valid(Poll(l))
    ensures Poll(l).run.duration == l.run.duration
    ensures Poll(l).run.status != Exited(Terminated) ==> ActiveElapsed(Poll(l).run) == ActiveElapsed(l.run)
    ensures AnswersLeft(l.chan.replies, Poll(l).chan.replies, l.run.duration - ActiveElapsed(l.run))
    ensures Poll(l).run.timeInPause >= l.run.timeInPause
  {
    var r := l.run;
    assert PausedFor(r) == 0;
    var remaining := SaturatingSub(r.duration + r.timeInPause, r.elapsed);
    assert remaining == r.duration - ActiveElapsed(r);
    var ch := l.chan;
    if ch.queue != [] {
      var rest := ch.(queue := ch.queue[1..]);
      match ch.queue[0]
      case Pause => EnterPause(r, rest);
      case Start =>
      case Stop =>
      case GetTimeRemaining =>
        assert Poll(l) == Loop(Guard(r), rest.(replies := rest.replies + [remaining]));
    }
  }

  /** Every event keeps a runner valid. Only a tick that finds it active counts down;
      an exited runner stays exited; answers report the active time left; the pause
      credit never shrinks. */
  lemma StepValid(l: Loop, e: Event)
    requires Valid(l)
    ensures Valid(Step(l, e))
    ensures Step(l, e).run.duration == l.run.duration
    ensures l.run.status.Exited? ==> Step(l, e).run == l.run
    ensures Step(l, e).run.status != Exited(Terminated) ==>
              ActiveElapsed(Step(l, e).run) == ActiveElapsed(l.run) + Counted(l, e)
    ensures AnswersLeft(l.chan.replies, Step(l, e).chan.replies, l.run.duration - (ActiveElapsed(l.run) + Counted(l, e)))
    ensures Step(l, e).run.timeInPause >= l.run.timeInPause
  {
    var r := l.run;
    match e
    case Tick =>
      match r.status {
        case Running(Active) =>
          PollValid(Loop(r.(elapsed := r.elapsed + 1), l.chan));
        case Running(Paused(f, n)) =>
        case Exited(_) =>
      }
    case Send(c) =>
      if l.chan.senderAlive && IsPaused(r) {
        PausedReacts(Loop(r, Push(l.chan, c)));
      }
    case Close =>
      if IsPaused(r) {
        PausedReacts(Loop(r, l.chan.(senderAlive := false)));
      }
  }

  /** A paused runner reacting to its channel stays valid, counts nothing down, and
      answers with the active time left. */
  lemma PausedReacts(l: Loop)
    requires IsPaused(l.run) && Accounting(l.run) && l.chan.receiverAlive
    ensures Valid(Wait(l)) && Wait(l).run.duration == l.run.duration
    ensures Wait(l).run.status != Exited(Terminated) ==> ActiveElapsed(Wait(l).run) == ActiveElapsed(l.run)
    ensures AnswersLeft(l.chan.replies, Wait(l).chan.replies, l.run.duration - ActiveElapsed(l.run))
    ensures Wait(l).run.timeInPause >= l.run.timeInPause
  {
    WaitAccounting(l);
    WaitReplies(l);
  }
}
