/**
 The command line of the terminal front end (src/app/tui_app.rs): key dispatch,
 the command interpreter behind Enter, and the recall of earlier commands with
 Up and Down.

 The timer this front end drives is a collaborator whose source is not part of
 this model: its queries are answered by a `TimerView`, and the operations the
 front end invokes on it are recorded, in order, as `TimerCall`s. Replies are
 kept as values of `Reply` rather than as formatted text.
 */
module App {
  import opened Optional
  import opened Text

  /** How a line of the message log is shown. */
  datatype MessageType = ValidCommand | Information | InvalidCommand

  /** A line of the message log: a submitted line with its validity, or a reply. */
  datatype Message = Entered(text: string, validity: MessageType) | Said(reply: Reply)

  /** The answers the interpreter gives. */
  datatype Reply =
    | LoginFirst
    | Help
    | OnlyWorkingOrBreaking
    | InvalidTime
    | Totals(user: Option<string>, work: int, brk: int)
    | SignedIn
    | SignInFailed
    | NoUsername
    | SignedInAs(name: string)
    | NotSignedIn
    | Users(names: seq<string>)

  /** The phases whose length `set` can change. */
  datatype Phase = Working | Breaking

  /** The operations the front end invokes on the timer. */
  datatype TimerCall =
    | StartTimer
    | StopTimer
    | PauseTimer
    | SetStateTimePeriod(secs: nat, phase: Phase)
    | SignIn(name: string)

  /** What the timer answers to the queries the front end makes. */
  datatype TimerView = TimerView(
    signedIn: bool,
    username: Option<string>,
    acceptsSignIn: bool,
    today: (int, int),
    allTime: (int, int),
    users: seq<string>)

  datatype InputMode = Normal | Editing

  /** The front end: input line, mode, message log, recall position, and the calls
      made on the timer so far. */
  datatype App = App(input: string, mode: InputMode, messages: seq<Message>, prevMessage: nat, calls: seq<TimerCall>)

  /** The largest `usize`, where the recall position saturates. */
  const UsizeMax: nat := 0xFFFF_FFFF_FFFF_FFFF

  /** `App::new`. */
  function New(): (a: App)
    ensures a.input == [] && a.mode == Normal && a.messages == [] && a.prevMessage == 0 && a.calls == []
  {
    App([], Normal, [], 0, [])
  }

  // ---------------------------------------------------------------------------
  // The interpreter

  /** What one submitted line does: its validity, the reply if any, the timer calls. */
  datatype Outcome = Outcome(validity: MessageType, reply: Option<Reply>, calls: seq<TimerCall>)

  /** The phase named by the second word of `set`. */
  function PhaseNamed(word: Option<string>): (p: Option<Phase>)
    ensures p == Some(Working) <==> word == Some("working")
    ensures p == Some(Breaking) <==> word == Some("breaking")
  {
    if word == Some("working") then Some(Working)
    else if word == Some("breaking") then Some(Breaking)
    else None
  }

  /** The word at position `i`, if there is one. */
  function WordAt(ws: seq<string>, i: nat): (w: Option<string>)
    ensures w.Some? <==> i < |ws|
    ensures w.Some? ==> w.value == ws[i]
  {
    if i < |ws| then Some(ws[i]) else None
  }

  /**
   `set <phase> <minutes>`. The line is invalid when the phase is neither
   `working` nor `breaking`, or the amount is missing. An amount that does not
   parse only earns an "Invalid time" reply, which replaces the phase complaint.
   The timer is changed only when both parts are good. `secondsOf` is the parse
   of the amount as a number of minutes, converted to whole seconds.
   */
  function SetCommand(ws: seq<string>, secondsOf: string -> Option<nat>): (o: Outcome)
    ensures o.validity == InvalidCommand <==> PhaseNamed(WordAt(ws, 1)).None? || |ws| < 3
    ensures o.validity != Information
    ensures o.reply == Some(InvalidTime) <==> |ws| >= 3 && secondsOf(ws[2]).None?
    ensures o.reply == Some(OnlyWorkingOrBreaking) <==>
              PhaseNamed(WordAt(ws, 1)).None? && !(|ws| >= 3 && secondsOf(ws[2]).None?)
    ensures o.reply.Some? ==> o.reply == Some(InvalidTime) || o.reply == Some(OnlyWorkingOrBreaking)
    ensures o.calls != [] <==> PhaseNamed(WordAt(ws, 1)).Some? && |ws| >= 3 && secondsOf(ws[2]).Some?
    ensures o.calls != [] ==> o.calls == [SetStateTimePeriod(secondsOf(ws[2]).value, PhaseNamed(WordAt(ws, 1)).value)]
  {
    var phase := PhaseNamed(WordAt(ws, 1));
    var amount := WordAt(ws, 2);
    var secs := if amount.Some? then secondsOf(amount.value) else None;
    var validity := if phase.None? || amount.None? then InvalidCommand else ValidCommand;
    var reply :=
      if amount.Some? && secs.None? then Some(InvalidTime)
      else if phase.None? then Some(OnlyWorkingOrBreaking)
      else None;
    var calls := if phase.Some? && secs.Some? then [SetStateTimePeriod(secs.value, phase.value)] else [];
    Outcome(validity, reply, calls)
  }

  /** `stats [today|all-time]`: the signed-in user's totals, or (-1, -1) for any
      other range. */
  function StatsCommand(ws: seq<string>, view: TimerView): (o: Outcome)
    ensures o.validity == ValidCommand && o.calls == [] && o.reply.Some? && o.reply.value.Totals?
    ensures o.reply.value.user == view.username
    ensures WordAt(ws, 1) == Some("today") ==> (o.reply.value.work, o.reply.value.brk) == view.today
    ensures WordAt(ws, 1) == Some("all-time") ==> (o.reply.value.work, o.reply.value.brk) == view.allTime
    ensures WordAt(ws, 1) != Some("today") && WordAt(ws, 1) != Some("all-time") ==>
              o.reply.value.work == -1 && o.reply.value.brk == -1
  {
    var totals :=
      if WordAt(ws, 1) == Some("today") then view.today
      else if WordAt(ws, 1) == Some("all-time") then view.allTime
      else (-1, -1);
    Outcome(ValidCommand, Some(Totals(view.username, totals.0, totals.1)), [])
  }

  /** `login <name>`: always a valid command; only the reply tells how it went. */
  function LoginCommand(ws: seq<string>, view: TimerView): (o: Outcome)
    ensures o.validity == ValidCommand
    ensures |ws| < 2 ==> o.calls == [] && o.reply == Some(NoUsername)
    ensures |ws| >= 2 ==> o.calls == [SignIn(ws[1])] && o.reply == Some(if view.acceptsSignIn then SignedIn else SignInFailed)
  {
    match WordAt(ws, 1)
    case None => Outcome(ValidCommand, Some(NoUsername), [])
    case Some(name) => Outcome(ValidCommand, Some(if view.acceptsSignIn then SignedIn else SignInFailed), [SignIn(name)])
  }

  /** The interpreter: the first word selects the command; an empty line or an
      unknown first word is invalid. Matching is case-sensitive. */
  function Interpret(ws: seq<string>, view: TimerView, secondsOf: string -> Option<nat>): (o: Outcome)
    ensures |o.calls| <= 1
    ensures o.validity != Information
    ensures o.validity == InvalidCommand ==> o.calls == []
    ensures ws == [] ==> o == Outcome(InvalidCommand, None, [])
    ensures ws != [] && ws[0] == "start" && !view.signedIn ==> o == Outcome(InvalidCommand, Some(LoginFirst), [])
    ensures ws != [] && ws[0] == "login" ==> o.validity == ValidCommand
    ensures ws != [] && ws[0] == "set" ==> o == SetCommand(ws, secondsOf)
    ensures ws != [] && ws[0] !in KnownCommands ==> o == Outcome(InvalidCommand, None, [])
    ensures o.calls == [StartTimer] <==> ws != [] && ws[0] == "start" && view.signedIn
    ensures o.calls == [StopTimer] <==> ws != [] && ws[0] == "stop"
    ensures o.calls == [PauseTimer] <==> ws != [] && ws[0] == "pause"
    ensures (o.calls != [] && o.calls[0].SignIn?) <==> ws != [] && ws[0] == "login" && |ws| >= 2
    ensures (o.calls != [] && o.calls[0].SetStateTimePeriod?) <==>
              && ws != [] && ws[0] == "set" && PhaseNamed(WordAt(ws, 1)).Some?
              && |ws| >= 3 && secondsOf(ws[2]).Some?
  {
    if ws == [] then Outcome(InvalidCommand, None, [])
    else
      match ws[0]
      case "start" =>
        if view.signedIn then Outcome(ValidCommand, None, [StartTimer])
        else Outcome(InvalidCommand, Some(LoginFirst), [])
      case "stop" => Outcome(ValidCommand, None, [StopTimer])
      case "pause" => Outcome(ValidCommand, None, [PauseTimer])
      case "help" => Outcome(ValidCommand, Some(Help), [])
      case "set" => SetCommand(ws, secondsOf)
      case "stats" => StatsCommand(ws, view)
      case "login" => LoginCommand(ws, view)
      case "whoami" =>
        Outcome(ValidCommand, Some(if view.username.Some? then SignedInAs(view.username.value) else NotSignedIn), [])
      case "users" => Outcome(ValidCommand, Some(Users(view.users)), [])
      case _ => Outcome(InvalidCommand, None, [])
  }

  /** The first words the interpreter knows. */
  const KnownCommands: set<string> := {"start", "stop", "pause", "help", "set", "stats", "login", "whoami", "users"}

  /**
   `submit_command`: the line is interpreted on its words; the line itself is
   logged with its validity, then the reply if any as information; the timer calls
   are made; the input is cleared and the recall position reset.
   */
  function SubmitCommand(a: App, view: TimerView, secondsOf: string -> Option<nat>): (a': App)
    ensures a'.input == [] && a'.prevMessage == 0 && a'.mode == a.mode
    ensures var o := Interpret(Words(a.input), view, secondsOf);
            && a'.messages == a.messages + [Entered(a.input, o.validity)] + (if o.reply.Some? then [Said(o.reply.value)] else [])
            && a'.calls == a.calls + o.calls
  {
    var o := Interpret(Words(a.input), view, secondsOf);
    var logged := a.messages + [Entered(a.input, o.validity)];
    var messages := if o.reply.Some? then logged + [Said(o.reply.value)] else logged;
    a.(input := [], messages := messages, prevMessage := 0, calls := a.calls + o.calls)
  }

  /** A line is interpreted on the words it splits into. */
  lemma SubmitInterprets(a: App, ws: seq<string>, view: TimerView, secondsOf: string -> Option<nat>)
    requires Words(a.input) == ws
    ensures SubmitCommand(a, view, secondsOf).calls == a.calls + Interpret(ws, view, secondsOf).calls
    ensures SubmitCommand(a, view, secondsOf).messages[|a.messages|] == Entered(a.input, Interpret(ws, view, secondsOf).validity)
  {
    var o := Interpret(ws, view, secondsOf);
    var logged := a.messages + [Entered(a.input, o.validity)];
    assert logged[|a.messages|] == Entered(a.input, o.validity);
  }

  /** A line of words separated by single spaces is interpreted on exactly those
      words, its first word selecting the command. */
  lemma SubmitSeesWords(a: App, ws: seq<string>, view: TimerView, secondsOf: string -> Option<nat>)
    requires forall i :: 0 <= i < |ws| ==> IsWord(ws[i])
    requires a.input == Unwords(ws)
    ensures SubmitCommand(a, view, secondsOf).calls == a.calls + Interpret(ws, view, secondsOf).calls
    ensures SubmitCommand(a, view, secondsOf).messages[|a.messages|] == Entered(a.input, Interpret(ws, view, secondsOf).validity)
  {
    WordsUnwords(ws);
    SubmitInterprets(a, ws, view, secondsOf);
  }

  // ---------------------------------------------------------------------------
  // Recall

  /** The submitted lines that were valid commands, most recent first. */
  function ValidHistory(ms: seq<Message>): (h: seq<string>)
    ensures |h| <= |ms|
  {
    if ms == [] then []
    else
      var last := ms[|ms| - 1];
      (if last.Entered? && last.validity == ValidCommand then [last.text] else []) + ValidHistory(ms[..|ms| - 1])
  }

  /** Up or Down in editing mode. */
  datatype Direction = Up | Down

  /**
   `choose_prev_command`: Up moves one further back (saturating at the largest
   `usize`), Down one nearer (saturating at 0). Position 0 clears the input;
   position k loads the k-th most recent valid command, and a position beyond the
   history leaves the input as it was but keeps the position.
   */
  function ChoosePrevCommand(a: App, d: Direction): (a': App)
    ensures a'.messages == a.messages && a'.calls == a.calls && a'.mode == a.mode
    ensures a'.prevMessage == (if d == Up then Min(a.prevMessage + 1, UsizeMax) else if a.prevMessage == 0 then 0 else a.prevMessage - 1)
    ensures a'.prevMessage == 0 ==> a'.input == []
    ensures 0 < a'.prevMessage <= |ValidHistory(a.messages)| ==> a'.input == ValidHistory(a.messages)[a'.prevMessage - 1]
    ensures a'.prevMessage > |ValidHistory(a.messages)| ==> a'.input == a.input
  {
    var history := ValidHistory(a.messages);
    var idx := match d
      case Up => if a.prevMessage < UsizeMax then a.prevMessage + 1 else UsizeMax
      case Down => if a.prevMessage > 0 then a.prevMessage - 1 else 0;
    var input :=
      if idx == 0 then []
      else if idx - 1 < |history| then history[idx - 1]
      else a.input;
    a.(prevMessage := idx, input := input)
  }

  function Min(x: int, y: int): int {
    if x <= y then x else y
  }

  /** The k-th most recent valid command (counting from 1), read straight off the
      log: the k-th message from the end that is a valid command. */
  predicate KthRecentValid(ms: seq<Message>, k: nat, text: string) {
    exists i :: 0 <= i < |ms| && ms[i] == Entered(text, ValidCommand) && ValidCount(ms[i + 1..]) == k - 1
  }

  /** How many valid commands a stretch of the log holds. */
  function ValidCount(ms: seq<Message>): nat {
    |ValidHistory(ms)|
  }

  /** The recall history agrees with the log: its k-th entry is the k-th most recent
      valid command. */
  lemma {:induction false} HistoryIsRecentValid(ms: seq<Message>, k: nat)
    requires 1 <= k <= |ValidHistory(ms)|
    ensures KthRecentValid(ms, k, ValidHistory(ms)[k - 1])
    decreases |ms|
  {
    var i := RecentValidIndex(ms, k);
  }

  /** Where the k-th most recent valid command sits in the log. */
  lemma {:induction false} RecentValidIndex(ms: seq<Message>, k: nat) returns (i: nat)
    requires 1 <= k <= |ValidHistory(ms)|
    ensures i < |ms| && ms[i] == Entered(ValidHistory(ms)[k - 1], ValidCommand)
    ensures ValidCount(ms[i + 1..]) == k - 1
    decreases |ms|, 1
  {
    var last := ms[|ms| - 1];
    var init := ms[..|ms| - 1];
    assert ms == init + [last];
    HistoryAppend(init, last);
    var h := ValidHistory(init);
    var v := ValidHistory(ms);
    var valid := last.Entered? && last.validity == ValidCommand;
    if valid && k == 1 {
      assert v == [last.text] + h;
      i := |ms| - 1;
      assert ms[i + 1..] == [];
    } else {
      var j := if valid then k - 1 else k;
      assert v[k - 1] == h[j - 1];
      i := Later(init, last, j);
      assert ms[i] == init[i];
    }
  }

  /** The k-th most recent valid command of `init` keeps its place, one message
      further from the end, once `last` is appended. */
  lemma {:induction false} Later(init: seq<Message>, last: Message, k: nat) returns (i: nat)
    requires 1 <= k <= |ValidHistory(init)|
    ensures i < |init| && init[i] == Entered(ValidHistory(init)[k - 1], ValidCommand)
    ensures ValidCount((init + [last])[i + 1..]) == k - 1 + (if last.Entered? && last.validity == ValidCommand then 1 else 0)
    decreases |init| + 1, 0
  {
    i := RecentValidIndex(init, k);
    assert (init + [last])[i + 1..] == init[i + 1..] + [last];
    HistoryAppend(init[i + 1..], last);
  }

  /** Appending one message adds it at the front of the history when it is a valid
      command. */
  lemma HistoryAppend(ms: seq<Message>, m: Message)
    ensures ValidHistory(ms + [m]) == (if m.Entered? && m.validity == ValidCommand then [m.text] else []) + ValidHistory(ms)
  {
    assert (ms + [m])[..|ms + [m]| - 1] == ms;
  }

  /** Right after a submission of a valid command, Up recalls exactly that line. */
  lemma SubmitThenRecall(a: App, view: TimerView, secondsOf: string -> Option<nat>)
    requires Interpret(Words(a.input), view, secondsOf).validity == ValidCommand
    ensures ChoosePrevCommand(SubmitCommand(a, view, secondsOf), Up).input == a.input
  {
    var s := SubmitCommand(a, view, secondsOf);
    var o := Interpret(Words(a.input), view, secondsOf);
    var logged := a.messages + [Entered(a.input, ValidCommand)];
    HistoryAppend(a.messages, Entered(a.input, ValidCommand));
    if o.reply.Some? {
      HistoryAppend(logged, Said(o.reply.value));
    }
  }

  /** Up then Down, away from the ends, returns to where recall was. */
  lemma UpThenDown(a: App)
    requires a.prevMessage < UsizeMax
    ensures ChoosePrevCommand(ChoosePrevCommand(a, Up), Down).prevMessage == a.prevMessage
  {
  }

  // ---------------------------------------------------------------------------
  // Keys

  datatype KeyCode = Char(c: char) | Enter | Backspace | Left | Right | UpKey | DownKey | Esc | OtherKey
  datatype KeyKind = Press | Repeat | Release

  /** What a key event does. Text editing and cursor movement are the input
      widget's and are only named here. */
  datatype Action =
    | EnterEditing
    | Quit
    | Submit
    | InsertChar(c: char)
    | DeletePrevChar
    | CursorLeft
    | CursorRight
    | Recall(d: Direction)
    | LeaveEditing
    | Ignore

  /**
   The key dispatch of the event loop (src/app/tui_app.rs:77-100): in normal mode
   `e` starts editing and `q` quits, whatever the event kind; in editing mode only
   key presses act, Esc returning to normal mode.
   */
  function KeyAction(mode: InputMode, key: KeyCode, kind: KeyKind): (act: Action)
    ensures act == Quit <==> mode == Normal && key == Char('q')
    ensures act == EnterEditing <==> mode == Normal && key == Char('e')
    ensures act == LeaveEditing <==> mode == Editing && kind == Press && key == Esc
    ensures act == Submit <==> mode == Editing && kind == Press && key == Enter
    ensures act.Recall? <==> mode == Editing && kind == Press && (key == UpKey || key == DownKey)
    ensures act.InsertChar? <==> mode == Editing && kind == Press && key.Char?
    ensures act.InsertChar? ==> act.c == key.c
    ensures mode == Editing && kind != Press ==> act == Ignore
    ensures mode == Normal ==> act == Quit || act == EnterEditing || act == Ignore
  {
    match mode
    case Normal =>
      if key == Char('e') then EnterEditing
      else if key == Char('q') then Quit
      else Ignore
    case Editing =>
      if kind != Press then Ignore
      else
        match key
        case Enter => Submit
        case Char(c) => InsertChar(c)
        case Backspace => DeletePrevChar
        case Left => CursorLeft
        case Right => CursorRight
        case UpKey => Recall(Up)
        case DownKey => Recall(Down)
        case Esc => LeaveEditing
        case OtherKey => Ignore
  }

  /**
   One key event applied to the front end, the input widget's editing left out:
   mode changes, submissions and recall take effect; the edit actions leave the
   model unchanged. The flag says whether the loop ends.
   */
  function HandleKey(a: App, key: KeyCode, kind: KeyKind, view: TimerView, secondsOf: string -> Option<nat>): (r: (App, bool))
    ensures r.1 <==> a.mode == Normal && key == Char('q')
    ensures a.mode == Normal ==> r.0.messages == a.messages && r.0.calls == a.calls && r.0.input == a.input
    ensures r.0.calls != a.calls ==> a.mode == Editing && kind == Press && key == Enter
  {
    match KeyAction(a.mode, key, kind)
    case EnterEditing => (a.(mode := Editing), false)
    case Quit => (a, true)
    case Submit => (SubmitCommand(a, view, secondsOf), false)
    case Recall(d) => (ChoosePrevCommand(a, d), false)
    case LeaveEditing => (a.(mode := Normal), false)
    case _ => (a, false)
  }
}
