/**
 Properties of the orchestrator over traces: the phase sequence of an undisturbed
 run, what stopping and pausing do to it, and the statistics over the records it
 leaves (src/pomodoro_timer.rs, tests/pomodoro_timer_tests.rs).
 */
module PomodoroProperties {
  import opened Optional
  import Commander
  import Runner
  import opened Pomodoro

  /** `n` ticks with the calendar on one date. */
  function Ticks(t: Timer, n: nat, today: Date): (t': Timer)
    requires Inv(t)
    ensures Inv(t')
    ensures t'.workDuration == t.workDuration && t'.breakDuration == t.breakDuration && t'.username == t.username
    ensures t'.today == if n == 0 then t.today else today
    decreases n
  {
    if n == 0 then t else Ticks(Tick(t, today), n - 1, today)
  }

  /** The active time the current phase has left. */
  function Left(t: Timer): int
    requires t.job.Some?
  {
    t.job.value.runner.duration - Runner.ActiveElapsed(t.job.value.runner)
  }

  /** A phase counting down undisturbed: active, nothing queued, and reported. */
  predicate Counting(t: Timer) {
    && Inv(t) && t.job.Some?
    && t.state == t.job.value.phase
    && t.job.value.runner.status == Runner.Running(Runner.Active)
    && t.link.value.queue == []
  }

  /** The record a completed run of `j` leaves on `today`, if it captured a user. */
  function RecordOf(j: Job, today: Date): seq<TimerRun> {
    if j.user.Some? then [Record(j, today)] else []
  }

  /**
   One tick of an undisturbed phase: with more than one tick left it only counts
   down; on its last tick a work phase hands over to a break of the captured
   length, and a break (or a work phase whose break is zero) completes the run,
   leaving `Idle` and the run's record.
   */
  lemma QuietTick(t: Timer, today: Date)
    requires Counting(t)
    ensures Left(t) > 0
    ensures Left(t) > 1 ==>
              && Counting(Tick(t, today))
              && Tick(t, today).job.value.phase == t.job.value.phase
              && SameRun(t.job.value, Tick(t, today).job.value)
              && Left(Tick(t, today)) == Left(t) - 1
              && Tick(t, today).runs == t.runs
              && Tick(t, today).link.value.replies == t.link.value.replies
    ensures Left(t) == 1 && t.job.value.phase == Working && t.job.value.breakDuration > 0 ==>
              && Counting(Tick(t, today))
              && Tick(t, today).job.value.phase == Breaking
              && SameRun(t.job.value, Tick(t, today).job.value)
              && Left(Tick(t, today)) == t.job.value.breakDuration
              && Tick(t, today).runs == t.runs
              && Tick(t, today).link.value.replies == t.link.value.replies
    ensures Left(t) == 1 && (t.job.value.phase == Breaking || t.job.value.breakDuration == 0) ==>
              && Tick(t, today).state == Idle && Tick(t, today).job.None?
              && Tick(t, today).runs == t.runs + RecordOf(t.job.value, today)
  {
    var d := t.(today := today);
    var r := t.job.value.runner;
    var l := Runner.Loop(r, t.link.value);
    var r1 := r.(elapsed := r.elapsed + 1);
    assert Runner.Step(l, Runner.Tick) == Runner.Loop(Runner.Guard(r1), t.link.value);
    var m := Stepped(d, Runner.Tick);
    assert m.job.value.runner == Runner.Guard(r1) && m.link == t.link;
    assert Tick(t, today) == Settle(m);
    if Left(t) == 1 && t.job.value.user.Some? {
      assert Record(m.job.value, today) == Record(t.job.value, today);
    }
  }

  /** Ticks of an undisturbed phase short of its last only count it down. */
  lemma {:induction false} QuietTicks(t: Timer, n: nat, today: Date)
    requires Counting(t) && n < Left(t)
    ensures Counting(Ticks(t, n, today))
    ensures Ticks(t, n, today).job.value.phase == t.job.value.phase
    ensures SameRun(t.job.value, Ticks(t, n, today).job.value)
    ensures Left(Ticks(t, n, today)) == Left(t) - n
    ensures Ticks(t, n, today).runs == t.runs
    ensures Ticks(t, n, today).link.value.replies == t.link.value.replies
    decreases n
  {
    if n > 0 {
      QuietTick(t, today);
      QuietTicks(Tick(t, today), n - 1, today);
    }
  }

  /** Ticking `a` then `b` times is ticking `a + b` times. */
  lemma {:induction false} TicksAdd(t: Timer, a: nat, b: nat, today: Date)
    requires Inv(t)
    ensures Ticks(t, a + b, today) == Ticks(Ticks(t, a, today), b, today)
    decreases a
  {
    if a > 0 {
      TicksAdd(Tick(t, today), a - 1, b, today);
    }
  }

  /** A whole undisturbed phase: exactly `Left` ticks take it to its end. */
  lemma QuietPhase(t: Timer, today: Date)
    requires Counting(t)
    ensures Left(t) > 0
    ensures t.job.value.phase == Working && t.job.value.breakDuration > 0 ==>
              var w := Ticks(t, Left(t), today);
              && Counting(w) && w.state == Breaking
              && SameRun(t.job.value, w.job.value)
              && Left(w) == t.job.value.breakDuration
              && w.runs == t.runs
    ensures t.job.value.phase == Breaking || t.job.value.breakDuration == 0 ==>
              var b := Ticks(t, Left(t), today);
              b.state == Idle && b.job.None? && b.runs == t.runs + RecordOf(t.job.value, today)
  {
    QuietTick(t, today);
    var n := Left(t) - 1;
    QuietTicks(t, n, today);
    var p := Ticks(t, n, today);
    QuietTick(p, today);
    TicksAdd(t, n, 1, today);
    assert Ticks(p, 1, today) == Tick(p, today);
    if p.job.value.user.Some? {
      assert Record(p.job.value, today) == Record(t.job.value, today);
    }
  }

  /**
   A run nobody disturbs (src/pomodoro_timer.rs:74-110): started from `Idle` with
   both durations positive, it reports `Working` for exactly the work duration,
   then `Breaking` for exactly the break duration, then `Idle`, and leaves one
   record of the signed-in user with the durations in whole seconds, dated the day
   it completed.
   */
  lemma FullRun(t: Timer, today: Date)
    requires Inv(t) && t.state == Idle && t.workDuration > 0 && t.breakDuration > 0
    ensures var s := StartTimer(t);
            && s.state == Working
            && Ticks(s, t.workDuration - 1, today).state == Working
            && Ticks(s, t.workDuration, today).state == Breaking
            && Ticks(s, t.workDuration + t.breakDuration - 1, today).state == Breaking
            && Ticks(s, t.workDuration + t.breakDuration, today).state == Idle
            && Ticks(s, t.workDuration + t.breakDuration, today).job.None?
            && Ticks(s, t.workDuration + t.breakDuration, today).runs ==
                 t.runs + (if t.username.Some? then
                             [TimerRun(t.username.value, AsI32(Secs(t.workDuration)), AsI32(Secs(t.breakDuration)), today)]
                           else [])
  {
    var s := StartTimer(t);
    StartCounts(t);
    UndisturbedRun(s, today);
    assert RecordOf(s.job.value, today) == (if t.username.Some? then
                                   [TimerRun(t.username.value, AsI32(Secs(t.workDuration)), AsI32(Secs(t.breakDuration)), today)]
                                 else []);
  }

  /** From a work phase counting down undisturbed: its remaining ticks report
      `Working`, the break's report `Breaking`, then the run completes. */
  lemma UndisturbedRun(s: Timer, today: Date)
    requires Counting(s) && s.job.value.phase == Working && s.job.value.breakDuration > 0
    ensures var n := Left(s);
            var m := s.job.value.breakDuration;
            && Ticks(s, n - 1, today).state == Working
            && Ticks(s, n, today).state == Breaking
            && Ticks(s, n + m - 1, today).state == Breaking
            && Ticks(s, n + m, today).state == Idle
            && Ticks(s, n + m, today).job.None?
            && Ticks(s, n + m, today).runs == s.runs + RecordOf(s.job.value, today)
  {
    QuietTicks(s, Left(s) - 1, today);
    QuietPhase(s, today);
    BreakLast(s, today);
    BreakDone(s, today);
  }

  /** The last tick of the break that follows still reports `Breaking`. */
  lemma BreakLast(s: Timer, today: Date)
    requires Counting(s) && s.job.value.phase == Working && s.job.value.breakDuration > 0
    ensures Ticks(s, Left(s) + s.job.value.breakDuration - 1, today).state == Breaking
  {
    var n := Left(s);
    var m := s.job.value.breakDuration;
    QuietPhase(s, today);
    var w := Ticks(s, n, today);
    QuietTicks(w, m - 1, today);
    TicksAdd(s, n, m - 1, today);
  }

  /** After the break that follows, the run is complete and recorded. */
  lemma BreakDone(s: Timer, today: Date)
    requires Counting(s) && s.job.value.phase == Working && s.job.value.breakDuration > 0
    ensures var b := Ticks(s, Left(s) + s.job.value.breakDuration, today);
            b.state == Idle && b.job.None? && b.runs == s.runs + RecordOf(s.job.value, today)
  {
    var n := Left(s);
    var m := s.job.value.breakDuration;
    var w := Ticks(s, n, today);
    WorkThenBreak(s, w, today);
    TicksAdd(s, n, m, today);
  }

  /** Starting from `Idle` with some work to do sets a work phase counting down
      the whole work duration, with the settings of the moment captured. */
  lemma StartCounts(t: Timer)
    requires Inv(t) && t.state == Idle && t.workDuration > 0
    ensures var s := StartTimer(t);
            && Counting(s) && s.state == Working && Left(s) == t.workDuration
            && s.job.value.workDuration == t.workDuration && s.job.value.breakDuration == t.breakDuration
            && s.job.value.user == t.username && s.runs == t.runs
  {
    Runner.BeginValid(t.workDuration, Commander.Fresh());
  }

  /** The break that follows an undisturbed work phase runs to completion too. */
  lemma WorkThenBreak(s: Timer, w: Timer, today: Date)
    requires Counting(s) && s.job.value.phase == Working && s.job.value.breakDuration > 0
    requires w == Ticks(s, Left(s), today)
    ensures Counting(w) && w.state == Breaking && Left(w) == s.job.value.breakDuration
    ensures Ticks(w, s.job.value.breakDuration - 1, today).state == Breaking
    ensures Ticks(w, s.job.value.breakDuration, today).state == Idle
    ensures Ticks(w, s.job.value.breakDuration, today).job.None?
    ensures Ticks(w, s.job.value.breakDuration, today).runs == s.runs + RecordOf(s.job.value, today)
  {
    QuietPhase(s, today);
    QuietTicks(w, s.job.value.breakDuration - 1, today);
    QuietPhase(w, today);
    assert RecordOf(w.job.value, today) == RecordOf(s.job.value, today) by {
      if s.job.value.user.Some? {
        assert Record(w.job.value, today) == Record(s.job.value, today);
      }
    }
  }

  /** Both durations zero: starting runs both phases to completion at once, so the
      timer is `Idle` again right away (tests/pomodoro_timer_tests.rs:17-28) and
      the run is recorded. */
  lemma ZeroDurations(t: Timer)
    requires Inv(t) && t.state == Idle && t.workDuration == 0 && t.breakDuration == 0
    ensures StartTimer(t).state == Idle && StartTimer(t).job.None?
    ensures StartTimer(t).runs ==
              t.runs + (if t.username.Some? then [TimerRun(t.username.value, 0, 0, t.today)] else [])
  {
  }

  /**
   Stopping a phase with nothing queued ends the run without a record: a paused
   runner ends at once, an active one at its next poll; either way the timer
   reports `Idle` from the moment of the call.
   */
  lemma StopEndsRun(t: Timer, today: Date)
    requires Inv(t) && t.job.Some? && t.state != Idle && t.link.value.queue == []
    ensures StopTimer(t).state == Idle && StopTimer(t).runs == t.runs
    ensures StopTimer(t).job.Some? ==>
              Tick(StopTimer(t), today).job.None? && Tick(StopTimer(t), today).state == Idle &&
              Tick(StopTimer(t), today).runs == t.runs
  {
    var s := StopTimer(t);
    if s.job.Some? {
      var l := Runner.Loop(t.job.value.runner, t.link.value);
      var ch := Commander.StopTimer(t.link.value);
      assert s.link.value.queue == [Commander.Stop];
      assert s.job.value.runner == t.job.value.runner;
    }
  }

  /** A `Pause` sent to an undisturbed phase is taken at the next poll, which
      freezes the active time left after that tick. */
  lemma PauseFreezes(t: Timer, today: Date)
    requires Counting(t) && Left(t) > 1
    ensures var q := Tick(PauseTimer(t), today);
            && q.state == t.state && q.job.Some? && Runner.IsPaused(q.job.value.runner)
            && q.job.value.runner.status.mode.frozen == Left(t) - 1
            && q.link.value.queue == [] && q.link.value.replies == t.link.value.replies
            && q.runs == t.runs && SameRun(t.job.value, q.job.value)
  {
    var u := PauseTimer(t);
    assert u.link.value.queue == [Commander.Pause] && u.job.value.runner == t.job.value.runner;
  }

  /**
   Pausing an undisturbed phase, then querying while paused, however long the
   pause lasts. If the paused job answers before the handle reads (`jobFirst`),
   the query returns the active time left when the pause was taken. If the read
   comes first, it returns the work duration and the frozen value is waiting for
   the next query, which returns it whatever the order then.
   */
  lemma PauseThenQuery(t: Timer, today: Date, k: nat, jobFirst: bool)
    requires Counting(t) && Left(t) > 1 && t.link.value.replies == []
    ensures var p := Ticks(Tick(PauseTimer(t), today), k, today);
            && p.state == t.state && p.job.Some? && Runner.IsPaused(p.job.value.runner)
            && GetRemainingTime(p, true).1 == Left(t) - 1
            && GetRemainingTime(p, false).1 == t.workDuration
            && GetRemainingTime(GetRemainingTime(p, false).0, jobFirst).1 == Left(t) - 1
  {
    PauseFreezes(t, today);
    var q := Tick(PauseTimer(t), today);
    PausedTicks(q, k, today);
    var p := Ticks(q, k, today);
    assert Answer(p) == [Left(t) - 1];
    var r := GetRemainingTime(p, false);
    assert r.0.link.value.replies == [Left(t) - 1];
    assert r.0.link.value.receiverAlive;
  }

  /**
   Pausing an undisturbed phase and resuming it, however long the pause lasted:
   the phase goes on counting in the same state, with exactly the active time it
   had left when the pause was taken, and the same run.
   */
  lemma PauseThenResume(t: Timer, today: Date, k: nat)
    requires Counting(t) && Left(t) > 1
    ensures var s := StartTimer(Ticks(Tick(PauseTimer(t), today), k, today));
            && Counting(s) && s.state == t.state && Left(s) == Left(t) - 1
            && SameRun(t.job.value, s.job.value) && s.runs == t.runs
  {
    PauseFreezes(t, today);
    var q := Tick(PauseTimer(t), today);
    PausedTicks(q, k, today);
    var p := Ticks(q, k, today);
    assert p.state != Idle;
    var s := StartTimer(p);
    assert Resumed(p, s);
  }

  /** Ticks during a pause change nothing but the clock. */
  lemma {:induction false} PausedTicks(t: Timer, k: nat, today: Date)
    requires Inv(t) && t.job.Some? && Runner.IsPaused(t.job.value.runner)
    ensures var p := Ticks(t, k, today);
            && p.state == t.state && p.job.Some? && Runner.IsPaused(p.job.value.runner)
            && p.job.value.runner.status.mode.frozen == t.job.value.runner.status.mode.frozen
            && p.link == t.link && p.runs == t.runs && SameRun(t.job.value, p.job.value)
    decreases k
  {
    if k > 0 {
      PausedTicks(Tick(t, today), k - 1, today);
    }
  }

  // ---------------------------------------------------------------------------
  // Statistics

  /** A key keeps exactly the table's records it matches: `get_timer_runs` those of
      the user, the `Today` filter those of the date. */
  lemma {:induction false} FilterMembers(runs: seq<TimerRun>, k: Key)
    ensures forall r :: r in Filter(runs, k) <==> r in runs && Keeps(k, r)
    decreases |runs|
  {
    if runs != [] {
      FilterMembers(runs[1..], k);
      assert runs == [runs[0]] + runs[1..];
    }
  }

  /** Filtering commutes with appending a record. */
  lemma {:induction false} FilterAppend(runs: seq<TimerRun>, r: TimerRun, k: Key)
    ensures Filter(runs + [r], k) == Filter(runs, k) + (if Keeps(k, r) then [r] else [])
    decreases |runs|
  {
    if runs == [] {
      assert [] + [r] == [r];
    } else {
      var h := if Keeps(k, runs[0]) then [runs[0]] else [];
      assert (runs + [r])[0] == runs[0];
      assert (runs + [r])[1..] == runs[1..] + [r];
      assert Filter(runs + [r], k) == h + Filter(runs[1..] + [r], k);
      FilterAppend(runs[1..], r, k);
      assert Filter(runs, k) == h + Filter(runs[1..], k);
    }
  }

  /** The sums split over a concatenation. */
  lemma {:induction false} SumsAppend(a: seq<TimerRun>, b: seq<TimerRun>)
    ensures WorkSum(a + b) == WorkSum(a) + WorkSum(b)
    ensures BreakSum(a + b) == BreakSum(a) + BreakSum(b)
    decreases |a|
  {
    if a == [] {
      assert a + b == b;
    } else {
      assert (a + b)[1..] == a[1..] + b;
      SumsAppend(a[1..], b);
    }
  }

  /** The totals of a period over a table, for one user (the fold of `get_total_time`). */
  function Totals(runs: seq<TimerRun>, user: string, period: Period, today: Date): (int, int) {
    var rs := Selected(runs, user, period, today);
    (WorkSum(rs), BreakSum(rs))
  }

  /** A new record of the user adds its two times to the all-time totals, and to
      today's when it is dated today. */
  lemma OwnRecordCounts(runs: seq<TimerRun>, r: TimerRun, today: Date)
    ensures Totals(runs + [r], r.user, AllTime, today) ==
              (Totals(runs, r.user, AllTime, today).0 + r.workingTimeSecs,
               Totals(runs, r.user, AllTime, today).1 + r.breakingTimeSecs)
    ensures Totals(runs + [r], r.user, Today, today) ==
              if r.date == today
              then (Totals(runs, r.user, Today, today).0 + r.workingTimeSecs,
                    Totals(runs, r.user, Today, today).1 + r.breakingTimeSecs)
              else Totals(runs, r.user, Today, today)
  {
    OwnRecordAllTime(runs, r, today);
    OwnRecordToday(runs, r, today);
  }

  /** The all-time half of `OwnRecordCounts`. */
  lemma OwnRecordAllTime(runs: seq<TimerRun>, r: TimerRun, today: Date)
    ensures Totals(runs + [r], r.user, AllTime, today) ==
              (Totals(runs, r.user, AllTime, today).0 + r.workingTimeSecs,
               Totals(runs, r.user, AllTime, today).1 + r.breakingTimeSecs)
  {
    var own := Filter(runs, OfUser(r.user));
    FilterAppend(runs, r, OfUser(r.user));
    assert Filter(runs + [r], OfUser(r.user)) == own + [r];
    SumsAppend(own, [r]);
  }

  /** The today half of `OwnRecordCounts`. */
  lemma OwnRecordToday(runs: seq<TimerRun>, r: TimerRun, today: Date)
    ensures Totals(runs + [r], r.user, Today, today) ==
              if r.date == today
              then (Totals(runs, r.user, Today, today).0 + r.workingTimeSecs,
                    Totals(runs, r.user, Today, today).1 + r.breakingTimeSecs)
              else Totals(runs, r.user, Today, today)
  {
    var own := Filter(runs, OfUser(r.user));
    FilterAppend(runs, r, OfUser(r.user));
    assert Filter(runs + [r], OfUser(r.user)) == own + [r];
    var mine := Filter(own, OnDate(today));
    FilterAppend(own, r, OnDate(today));
    if r.date == today {
      assert Filter(own + [r], OnDate(today)) == mine + [r];
      SumsAppend(mine, [r]);
    } else {
      assert Filter(own + [r], OnDate(today)) == mine + [];
      assert mine + [] == mine;
    }
  }

  /** Another user's record changes nobody else's totals. */
  lemma OtherRecordIgnored(runs: seq<TimerRun>, r: TimerRun, user: string, period: Period, today: Date)
    requires r.user != user
    ensures Totals(runs + [r], user, period, today) == Totals(runs, user, period, today)
  {
    FilterAppend(runs, r, OfUser(user));
    assert Filter(runs, OfUser(user)) + [] == Filter(runs, OfUser(user));
  }

  /** `get_total_time` is the reference sum of the records the query covers. */
  lemma TotalsAreSums(t: Timer, period: Period)
    requires t.username.Some?
    ensures GetTotalTime(t, period) == Totals(t.runs, t.username.value, period, t.today)
  {
  }

  /** Splitting records by date splits their sums. */
  lemma {:induction false} SumsSplitByDate(runs: seq<TimerRun>, date: Date)
    ensures WorkSum(runs) == WorkSum(Filter(runs, OnDate(date))) + WorkSum(Filter(runs, OffDate(date)))
    ensures BreakSum(runs) == BreakSum(Filter(runs, OnDate(date))) + BreakSum(Filter(runs, OffDate(date)))
    decreases |runs|
  {
    if runs != [] {
      SumsSplitByDate(runs[1..], date);
      var h := if runs[0].date == date then [runs[0]] else [];
      var g := if runs[0].date != date then [runs[0]] else [];
      SumsAppend(h, Filter(runs[1..], OnDate(date)));
      SumsAppend(g, Filter(runs[1..], OffDate(date)));
    }
  }

  /** All-time totals are today's totals plus those of every other day. */
  lemma AllTimeIsTodayPlusRest(t: Timer)
    requires t.username.Some?
    ensures var own := Filter(t.runs, OfUser(t.username.value));
            GetTotalTime(t, AllTime) ==
              (GetTotalTime(t, Today).0 + WorkSum(Filter(own, OffDate(t.today))),
               GetTotalTime(t, Today).1 + BreakSum(Filter(own, OffDate(t.today))))
  {
    SumsSplitByDate(Filter(t.runs, OfUser(t.username.value)), t.today);
  }

  /** What an undisturbed run of the signed-in user leaves behind: its record,
      dated the day it completed, and the same user. */
  lemma FullRunRecord(t: Timer, today: Date)
    requires Inv(t) && t.state == Idle && t.workDuration > 0 && t.breakDuration > 0 && t.username.Some?
    ensures var b := Ticks(StartTimer(t), t.workDuration + t.breakDuration, today);
            && b.username == t.username && b.today == today
            && b.runs == t.runs + [TimerRun(t.username.value, AsI32(Secs(t.workDuration)), AsI32(Secs(t.breakDuration)), today)]
  {
    var s := StartTimer(t);
    StartCounts(t);
    BreakDone(s, today);
    assert RecordOf(s.job.value, today) == [Record(s.job.value, today)];
  }

  /** A record of the signed-in user dated today adds its two times to today's
      totals. */
  lemma RecordedToday(t: Timer, b: Timer, r: TimerRun)
    requires t.username == Some(r.user) && b.username == t.username
    requires b.today == r.date && b.runs == t.runs + [r]
    ensures var before := GetTotalTime(t.(today := r.date), Today);
            GetTotalTime(b, Today) == (before.0 + r.workingTimeSecs, before.1 + r.breakingTimeSecs)
  {
    OwnRecordCounts(t.runs, r, r.date);
    TotalsAreSums(b, Today);
    TotalsAreSums(t.(today := r.date), Today);
  }

  /**
   End to end: a run nobody disturbs adds exactly its captured durations, in whole
   seconds cast to `i32`, to the signed-in user's totals for the day it completed.
   */
  lemma FullRunCounts(t: Timer, today: Date)
    requires Inv(t) && t.state == Idle && t.workDuration > 0 && t.breakDuration > 0 && t.username.Some?
    ensures var b := Ticks(StartTimer(t), t.workDuration + t.breakDuration, today);
            var before := GetTotalTime(t.(today := today), Today);
            GetTotalTime(b, Today) == (before.0 + AsI32(Secs(t.workDuration)), before.1 + AsI32(Secs(t.breakDuration)))
  {
    FullRunRecord(t, today);
    var b := Ticks(StartTimer(t), t.workDuration + t.breakDuration, today);
    var r := TimerRun(t.username.value, AsI32(Secs(t.workDuration)), AsI32(Secs(t.breakDuration)), today);
    RecordedToday(t, b, r);
  }
}
