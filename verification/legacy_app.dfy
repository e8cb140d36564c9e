/**
 The older terminal front end (src/tui_app.rs): three commands, matched on the
 whole lowercased line, driving the orchestrator of module `Pomodoro` directly.
 */
module LegacyApp {
  import opened Optional
  import Text
  import Pomodoro
  import App

  /** How a logged line is shown. */
  datatype MessageType = ValidCommand | InvalidCommand

  /** The front end: input line, mode, message log, and the timer it owns. */
  datatype LegacyApp = LegacyApp(input: string, mode: App.InputMode, messages: seq<(string, MessageType)>, timer: Pomodoro.Timer)

  /** `App::new`. */
  function New(timer: Pomodoro.Timer): (a: LegacyApp)
    ensures a.input == [] && a.mode == App.Normal && a.messages == [] && a.timer == timer
  {
    LegacyApp([], App.Normal, [], timer)
  }

  /** The three commands. */
  datatype Command = Start | Stop | Pause

  /** The command a line names: the whole line, lowercased, must be the command's
      word; nothing else is accepted. */
  function Parse(line: string): (c: Option<Command>)
    ensures c == Some(Start) <==> Text.CaseVariant(line, "start")
    ensures c == Some(Stop) <==> Text.CaseVariant(line, "stop")
    ensures c == Some(Pause) <==> Text.CaseVariant(line, "pause")
  {
    Text.LowerMatches(line, "start");
    Text.LowerMatches(line, "stop");
    Text.LowerMatches(line, "pause");
    var l := Text.Lower(line);
    if l == "start" then Some(Start)
    else if l == "stop" then Some(Stop)
    else if l == "pause" then Some(Pause)
    else None
  }

  /**
   `submit_command`: a recognised line calls exactly its timer operation and is
   logged as valid; any other line changes nothing on the timer and is logged as
   invalid. The line is logged as typed, and the input is cleared.
   */
  function SubmitCommand(a: LegacyApp): (a': LegacyApp)
    requires Pomodoro.Inv(a.timer)
    ensures Pomodoro.Inv(a'.timer)
    ensures a'.input == [] && a'.mode == a.mode
    ensures a'.messages == a.messages + [(a.input, if Parse(a.input).Some? then ValidCommand else InvalidCommand)]
    ensures Parse(a.input).None? ==> a'.timer == a.timer
    ensures Parse(a.input) == Some(Start) ==> a'.timer == Pomodoro.StartTimer(a.timer)
    ensures Parse(a.input) == Some(Stop) ==> a'.timer == Pomodoro.StopTimer(a.timer) && a'.timer.state == Pomodoro.Idle
    ensures Parse(a.input) == Some(Pause) ==> a'.timer == Pomodoro.PauseTimer(a.timer) && a'.timer.state == a.timer.state
  {
    var c := Parse(a.input);
    var timer :=
      match c
      case None => a.timer
      case Some(Start) => Pomodoro.StartTimer(a.timer)
      case Some(Stop) => Pomodoro.StopTimer(a.timer)
      case Some(Pause) => Pomodoro.PauseTimer(a.timer);
    var validity := if c.Some? then ValidCommand else InvalidCommand;
    a.(input := [], messages := a.messages + [(a.input, validity)], timer := timer)
  }

  /** Letters are matched in any case: a capitalised word starts the timer like the
      lowercase one. */
  lemma AnyCaseStarts(a: LegacyApp)
    requires Pomodoro.Inv(a.timer) && a.input == "StArT"
    ensures SubmitCommand(a).timer == Pomodoro.StartTimer(a.timer)
    ensures SubmitCommand(a).messages[|a.messages|] == ("StArT", ValidCommand)
  {
    assert Text.CaseVariant("StArT", "start");
  }

  /** Unlike the newer interpreter, the whole line must be the word: a trailing
      argument or surrounding white space makes the line invalid. */
  lemma WholeLineOnly(a: LegacyApp)
    requires Pomodoro.Inv(a.timer) && a.input == "start now"
    ensures SubmitCommand(a).timer == a.timer
    ensures SubmitCommand(a).messages[|a.messages|] == ("start now", InvalidCommand)
  {
  }

  /** What a key event does in the older front end: no recall keys. */
  datatype Action = EnterEditing | Quit | Submit | InsertChar(c: char) | DeletePrevChar | CursorLeft | CursorRight | LeaveEditing | Ignore

  /**
   The key dispatch (src/tui_app.rs:45-65): in normal mode `e` starts editing and
   `q` quits, whatever the event kind; in editing mode only key presses act, Esc
   returning to normal mode.
   */
  function KeyAction(mode: App.InputMode, key: App.KeyCode, kind: App.KeyKind): (act: Action)
    ensures act == Quit <==> mode == App.Normal && key == App.Char('q')
    ensures act == EnterEditing <==> mode == App.Normal && key == App.Char('e')
    ensures act == LeaveEditing <==> mode == App.Editing && kind == App.Press && key == App.Esc
    ensures act == Submit <==> mode == App.Editing && kind == App.Press && key == App.Enter
    ensures act.InsertChar? <==> mode == App.Editing && kind == App.Press && key.Char?
    ensures act.InsertChar? ==> act.c == key.c
    ensures mode == App.Editing && kind != App.Press ==> act == Ignore
    ensures mode == App.Normal ==> act == Quit || act == EnterEditing || act == Ignore
    ensures key == App.UpKey || key == App.DownKey ==> act == Ignore
  {
    match mode
    case Normal =>
      if key == App.Char('e') then EnterEditing
      else if key == App.Char('q') then Quit
      else Ignore
    case Editing =>
      if kind != App.Press then Ignore
      else
        match key
        case Enter => Submit
        case Char(c) => InsertChar(c)
        case Backspace => DeletePrevChar
        case Left => CursorLeft
        case Right => CursorRight
        case Esc => LeaveEditing
        case _ => Ignore
  }

  /** Both front ends dispatch keys alike, except that only the newer one recalls
      commands with Up and Down. */
  lemma SameDispatch(mode: App.InputMode, key: App.KeyCode, kind: App.KeyKind)
    requires key != App.UpKey && key != App.DownKey
    ensures (KeyAction(mode, key, kind) == Submit) == (App.KeyAction(mode, key, kind) == App.Submit)
    ensures (KeyAction(mode, key, kind) == Quit) == (App.KeyAction(mode, key, kind) == App.Quit)
    ensures (KeyAction(mode, key, kind) == LeaveEditing) == (App.KeyAction(mode, key, kind) == App.LeaveEditing)
    ensures (KeyAction(mode, key, kind) == EnterEditing) == (App.KeyAction(mode, key, kind) == App.EnterEditing)
  {
  }
}
