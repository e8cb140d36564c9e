/**
 The command alphabet of the current countdown runner and the commander handle
 that feeds it (src/core/timer_commander.rs).

 A run owns two unidirectional channels: commands flow from the commander to the
 runner, remaining-time answers flow back. Both are modelled together as one
 `Channel` value seen from outside either thread.
 */
module Commander {

  /** The four directives a runner understands. */
  datatype TimerCommand = Pause | Start | Stop | GetTimeRemaining

  /** Every directive, once each. */
  const Alphabet: seq<TimerCommand> := [Pause, Start, Stop, GetTimeRemaining]

  /**
   The channel pair of one run.
   - `queue`: commands sent and not yet received, oldest first;
   - `senderAlive`: false once the commander end was dropped (the runner then
     sees a closed channel once `queue` is empty);
   - `receiverAlive`: false once the runner end was dropped (sends then fail);
   - `replies`: remaining-time answers sent and not yet received, oldest first.
   */
  datatype Channel = Channel(queue: seq<TimerCommand>, senderAlive: bool, receiverAlive: bool, replies: seq<nat>)

  /** A fresh pair as `mpsc::channel()` creates it: both ends alive, nothing queued. */
  function Fresh(): (ch: Channel)
    ensures ch.senderAlive && ch.receiverAlive
    ensures |ch.queue| == 0 && |ch.replies| == 0
  {
    Channel([], true, true, [])
  }

  /** One `send`: it succeeds iff the receiving end still exists, and then the
      command is queued behind every earlier one. */
  function Push(ch: Channel, c: TimerCommand): (r: Channel)
    ensures r.senderAlive == ch.senderAlive && r.receiverAlive == ch.receiverAlive && r.replies == ch.replies
    ensures ch.receiverAlive ==> |r.queue| == |ch.queue| + 1 && r.queue[..|ch.queue|] == ch.queue && r.queue[|ch.queue|] == c
    ensures !ch.receiverAlive ==> r == ch
  {
    if ch.receiverAlive then ch.(queue := ch.queue + [c]) else ch
  }

  /** The operations of the commander handle. */
  datatype Order = PauseOrder | StopOrder | ResumeOrder | QueryOrder

  /** The command each handle operation puts on the channel. */
  function CommandOf(o: Order): (c: TimerCommand)
    ensures o.PauseOrder? <==> c.Pause?
    ensures o.StopOrder? <==> c.Stop?
    ensures o.ResumeOrder? <==> c.Start?
    ensures o.QueryOrder? <==> c.GetTimeRemaining?
  {
    match o
    case PauseOrder => Pause
    case StopOrder => Stop
    case ResumeOrder => Start
    case QueryOrder => GetTimeRemaining
  }

  /** `pause_timer`: the send is unwrapped, so the runner end must still exist. */
  function PauseTimer(ch: Channel): (r: Channel)
    requires ch.receiverAlive
    ensures r.queue == ch.queue + [Pause]
    ensures r.(queue := ch.queue) == ch
  {
    Push(ch, CommandOf(PauseOrder))
  }

  /** `stop_timer`: the send is unwrapped, so the runner end must still exist. */
  function StopTimer(ch: Channel): (r: Channel)
    requires ch.receiverAlive
    ensures r.queue == ch.queue + [Stop]
    ensures r.(queue := ch.queue) == ch
  {
    Push(ch, CommandOf(StopOrder))
  }

  /** `resume_timer`: sends `Start`; the send is unwrapped, so the runner end must still exist. */
  function ResumeTimer(ch: Channel): (r: Channel)
    requires ch.receiverAlive
    ensures r.queue == ch.queue + [Start]
    ensures r.(queue := ch.queue) == ch
  {
    Push(ch, CommandOf(ResumeOrder))
  }

  /** `get_time_remaining`: never fails loudly; the flag says whether the query was queued. */
  function QueryTimeRemaining(ch: Channel): (r: (Channel, bool))
    ensures r.1 <==> ch.receiverAlive
    ensures r.1 ==> r.0.queue == ch.queue + [GetTimeRemaining]
    ensures !r.1 ==> r.0 == ch
    ensures r.0.(queue := ch.queue) == ch
  {
    (Push(ch, CommandOf(QueryOrder)), ch.receiverAlive)
  }

  /** Applies one handle operation; only the query may meet a dropped runner. */
  function Issue(ch: Channel, o: Order): (r: Channel)
    requires o.QueryOrder? || ch.receiverAlive
    ensures ch.receiverAlive ==> r == ch.(queue := ch.queue + [CommandOf(o)])
    ensures !ch.receiverAlive ==> r == ch
  {
    match o
    case PauseOrder => PauseTimer(ch)
    case StopOrder => StopTimer(ch)
    case ResumeOrder => ResumeTimer(ch)
    case QueryOrder => QueryTimeRemaining(ch).0
  }

  /** Applies handle operations in order, against a runner whose end stays alive. */
  function IssueAll(ch: Channel, os: seq<Order>): (r: Channel)
    requires ch.receiverAlive
    ensures r.(queue := ch.queue) == ch
    ensures |r.queue| == |ch.queue| + |os| && r.queue[..|ch.queue|] == ch.queue
    decreases |os|
  {
    if os == [] then ch else IssueAll(Issue(ch, os[0]), os[1..])
  }

  /** The commands a sequence of handle operations denotes. */
  function CommandsOf(os: seq<Order>): (cs: seq<TimerCommand>)
    ensures |cs| == |os|
    ensures forall i :: 0 <= i < |os| ==> cs[i] == CommandOf(os[i])
  {
    if os == [] then [] else [CommandOf(os[0])] + CommandsOf(os[1..])
  }

  /** Every handle operation appends exactly its one command: the runner receives
      the operations' commands in call order, behind whatever was queued before,
      and nothing else about the channel changes. */
  lemma {:induction false} IssueAllAppends(ch: Channel, os: seq<Order>)
    requires ch.receiverAlive
    ensures IssueAll(ch, os).queue == ch.queue + CommandsOf(os)
    ensures IssueAll(ch, os).(queue := ch.queue) == ch
    decreases |os|
  {
    if os != [] {
      var ch' := Issue(ch, os[0]);
      assert ch'.queue == ch.queue + [CommandOf(os[0])];
      IssueAllAppends(ch', os[1..]);
      assert CommandsOf(os) == [CommandOf(os[0])] + CommandsOf(os[1..]);
    }
  }

  /** The alphabet is exactly the four directives. */
  lemma AlphabetIsComplete(c: TimerCommand)
    ensures c in Alphabet
    ensures |Alphabet| == 4
  {
  }
}
