/**
 The older command channel and commander handle (src/timer_commander.rs): three
 directives and no remaining-time query, every send unwrapped.
 */
module LegacyCommander {
  import Commander

  /** The three directives of the older runner; there is no query. */
  datatype TimerCommand = Pause | Start | Stop

  /** The command channel seen from outside both threads: commands sent and not yet
      received, and which ends still exist. */
  datatype Channel = Channel(queue: seq<TimerCommand>, senderAlive: bool, receiverAlive: bool)

  /** One `send`, which succeeds iff the receiving end still exists. */
  function Push(ch: Channel, c: TimerCommand): Channel {
    if ch.receiverAlive then ch.(queue := ch.queue + [c]) else ch
  }

  /** `pause_timer`: the send is unwrapped, so the runner end must still exist. */
  function PauseTimer(ch: Channel): (r: Channel)
    requires ch.receiverAlive
    ensures r.queue == ch.queue + [Pause]
    ensures r.(queue := ch.queue) == ch
  {
    Push(ch, Pause)
  }

  /** `stop_timer`: the send is unwrapped, so the runner end must still exist. */
  function StopTimer(ch: Channel): (r: Channel)
    requires ch.receiverAlive
    ensures r.queue == ch.queue + [Stop]
    ensures r.(queue := ch.queue) == ch
  {
    Push(ch, Stop)
  }

  /** `resume_timer`: sends `Start`; the send is unwrapped, so the runner end must still exist. */
  function ResumeTimer(ch: Channel): (r: Channel)
    requires ch.receiverAlive
    ensures r.queue == ch.queue + [Start]
    ensures r.(queue := ch.queue) == ch
  {
    Push(ch, Start)
  }

  /** The same directive in the four-command alphabet. */
  function Upgrade(c: TimerCommand): (u: Commander.TimerCommand)
    ensures !u.GetTimeRemaining?
  {
    match c
    case Pause => Commander.Pause
    case Start => Commander.Start
    case Stop => Commander.Stop
  }

  function UpgradeAll(q: seq<TimerCommand>): (u: seq<Commander.TimerCommand>)
    ensures |u| == |q|
    ensures forall i :: 0 <= i < |q| ==> u[i] == Upgrade(q[i])
  {
    if q == [] then [] else [Upgrade(q[0])] + UpgradeAll(q[1..])
  }

  /** The same channel as the newer commander sees it, with no answers pending. */
  function AsCurrent(ch: Channel): Commander.Channel {
    Commander.Channel(UpgradeAll(ch.queue), ch.senderAlive, ch.receiverAlive, [])
  }

  /** Upgrading a queue with one more command upgrades that command at the end. */
  lemma UpgradeAppend(q: seq<TimerCommand>, c: TimerCommand)
    ensures UpgradeAll(q + [c]) == UpgradeAll(q) + [Upgrade(c)]
  {
    var u := UpgradeAll(q + [c]);
    assert |u| == |q| + 1;
    assert forall i :: 0 <= i < |q| ==> u[i] == Upgrade(q[i]) by {
      forall i | 0 <= i < |q| ensures u[i] == Upgrade(q[i]) {
        assert (q + [c])[i] == q[i];
      }
    }
  }

  /**
   The older handle is the newer one restricted to three directives: each of its
   operations queues exactly the command the newer handle's operation of the same
   name queues, and `Upgrade` is one-to-one, so no directive is confused with
   another and none is ever a query.
   */
  lemma AgreesWithCurrent(ch: Channel)
    requires ch.receiverAlive
    ensures AsCurrent(PauseTimer(ch)) == Commander.PauseTimer(AsCurrent(ch))
    ensures AsCurrent(StopTimer(ch)) == Commander.StopTimer(AsCurrent(ch))
    ensures AsCurrent(ResumeTimer(ch)) == Commander.ResumeTimer(AsCurrent(ch))
    ensures forall a: TimerCommand, b: TimerCommand :: Upgrade(a) == Upgrade(b) ==> a == b
  {
    UpgradeAppend(ch.queue, Pause);
    UpgradeAppend(ch.queue, Stop);
    UpgradeAppend(ch.queue, Start);
  }
}
