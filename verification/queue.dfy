/**
 The collector's queue message handler: it classifies a message
 (action, arguments) against a snapshot of the application store and either
 logs exactly one error line or yields the commands to run on the targeted
 units.
 */
module Queue {
  import opened Strings
  import opened Units
  import Apprc

  datatype Option<T> = None | Some(value: T)

  /** The actions the handler knows. */
  datatype Action = StartApp | RegenerateApprc

  function ActionName(a: Action): string {
    match a
    case StartApp => "start-app"
    case RegenerateApprc => "regenerate-apprc"
  }

  /** Looks an action up by the name a message carries. */
  function ParseAction(s: string): (r: Option<Action>)
    ensures r.Some? ==> ActionName(r.value) == s
  {
    if s == "start-app" then Some(StartApp)
    else if s == "regenerate-apprc" then Some(RegenerateApprc)
    else None
  }

  /** Every known action is found again by its name. */
  lemma ParseActionName(a: Action)
    ensures ParseAction(ActionName(a)) == Some(a)
  {
  }

  /** Arguments every known action needs: the application name. */
  function MinArgs(a: Action): nat {
    1
  }

  /** The two application states reported with a message of their own. */
  const StateError: string := "error"
  const StateDown: string := "down"

  /** An application as stored: name, state, units in stored order, environment. */
  datatype App = App(name: string, state: string, units: seq<Unit>, env: seq<Apprc.EnvVar>)

  /** A queue message: `args[0]` names the application, `args[1..]` filters its units. */
  datatype Message = Message(action: string, args: seq<string>)

  /** The classified failures, in the order they are checked. */
  datatype Failure =
    | InvalidAction
    | MissingArguments
    | AppNotFound(name: string)
    | AppInErrorState
    | AppDown
    | AppNotReady(state: string)
  {
    /** True iff the failure is found after the application has been looked up. */
    predicate AppResolved() {
      AppInErrorState? || AppDown? || AppNotReady?
    }
  }

  /** A command for one unit: its name and the command text. */
  datatype Command = Command(unit: string, cmd: string)

  /** What handling one message comes to: one logged line, or the commands to run. */
  datatype Outcome = Failed(failure: Failure, log: string) | Dispatched(cmds: seq<Command>)

  /** The hook run on a unit to (re)start the application. */
  const RestartHook: string := "/var/lib/tsuru/hooks/restart"

  /** An application and all its units are "started". */
  predicate Ready(app: App) {
    app.state == StatusStarted && Started(app.units)
  }

  /** The generic not-ready text, up to the application's own state. */
  const NotReadyPrefix: string := "The status of the app and all units should be \"started\" (the app is "

  /** The text of a failure after the colon of the log line. */
  function Describe(f: Failure): string {
    match f
    case InvalidAction => "invalid action."
    case MissingArguments => "this action requires at least 1 argument."
    case AppNotFound(name) => "app " + Quote(name) + " does not exist."
    case AppInErrorState => "the app is in " + Quote(StateError) + " state."
    case AppDown => "the app is down."
    case AppNotReady(state) => NotReadyPrefix + Quote(state) + ")."
  }

  /** The log line for a failure; it names the application once it has been looked up. */
  function LogLine(action: string, app: Option<string>, text: string): string {
    match app
    case None => "Error handling " + Quote(action) + ": " + text
    case Some(name) => "Error handling " + Quote(action) + " for the app " + Quote(name) + ": " + text
  }

  /** The failure of a stored application that cannot take an action, if any. */
  function StateFailure(app: App): (r: Option<Failure>)
    ensures r.None? <==> Ready(app)
    ensures r.Some? ==> r.value.AppResolved()
  {
    if app.state == StateError then Some(AppInErrorState)
    else if app.state == StateDown then Some(AppDown)
    else if !Ready(app) then Some(AppNotReady(app.state))
    else None
  }

  /** The command text an action sends to each targeted unit. */
  function Payload(a: Action, app: App, stamp: string): string {
    match a
    case StartApp => RestartHook
    case RegenerateApprc => Apprc.Script(app.env, stamp)
  }

  /** One command per target, in target order. */
  function Render(a: Action, app: App, targets: seq<Unit>, stamp: string): (r: seq<Command>)
    ensures |r| == |targets|
    ensures forall k :: 0 <= k < |r| ==> r[k] == Command(targets[k].name, Payload(a, app, stamp))
  {
    if targets == [] then []
    else [Command(targets[0].name, Payload(a, app, stamp))] + Render(a, app, targets[1..], stamp)
  }

  function Fail(msg: Message, app: Option<string>, f: Failure): Outcome {
    Failed(f, LogLine(msg.action, app, Describe(f)))
  }

  /**
   Handles one message against the store snapshot `store`; `stamp` is the
   free text after the banner of a regenerated apprc.
   */
  function Handle(msg: Message, store: map<string, App>, stamp: string): (r: Outcome)
    ensures r.Failed? && r.failure == InvalidAction <==> ParseAction(msg.action).None?
    ensures r.Failed? && r.failure == MissingArguments
            <==> ParseAction(msg.action).Some? && msg.args == []
    ensures r.Failed? && r.failure.AppNotFound?
            <==> ParseAction(msg.action).Some? && msg.args != [] && msg.args[0] !in store
    ensures r.Failed? && r.failure.AppNotFound? ==> r.failure.name == msg.args[0]
    ensures r.Failed? && r.failure == AppInErrorState
            <==> ParseAction(msg.action).Some? && msg.args != [] && msg.args[0] in store
                 && store[msg.args[0]].state == StateError
    ensures r.Failed? && r.failure == AppDown
            <==> ParseAction(msg.action).Some? && msg.args != [] && msg.args[0] in store
                 && store[msg.args[0]].state == StateDown
    ensures r.Failed? && r.failure.AppNotReady?
            <==> ParseAction(msg.action).Some? && msg.args != [] && msg.args[0] in store
                 && store[msg.args[0]].state !in {StateError, StateDown}
                 && !Ready(store[msg.args[0]])
    ensures r.Failed? && r.failure.AppNotReady? ==> r.failure.state == store[msg.args[0]].state
    ensures r.Failed? ==>
              r.log == LogLine(msg.action,
                               if r.failure.AppResolved() then Some(msg.args[0]) else None,
                               Describe(r.failure))
    ensures r.Dispatched? <==>
              ParseAction(msg.action).Some? && msg.args != [] && msg.args[0] in store
              && Ready(store[msg.args[0]])
    ensures r.Dispatched? ==>
              var app := store[msg.args[0]];
              var targets := Targets(app.units, msg.args[1..]);
              && |r.cmds| == |targets|
              && forall k :: 0 <= k < |targets| ==>
                   r.cmds[k] == Command(targets[k].name,
                                        Payload(ParseAction(msg.action).value, app, stamp))
  {
    match ParseAction(msg.action)
    case None => Fail(msg, None, InvalidAction)
    case Some(action) =>
      if |msg.args| < MinArgs(action) then Fail(msg, None, MissingArguments)
      else if msg.args[0] !in store then Fail(msg, None, AppNotFound(msg.args[0]))
      else
        var app := store[msg.args[0]];
        match StateFailure(app)
        case Some(f) => Fail(msg, Some(msg.args[0]), f)
        case None => Dispatched(Render(action, app, Targets(app.units, msg.args[1..]), stamp))
  }

  /** The parts a log line is made of. */
  datatype LogEntry = LogEntry(action: string, app: Option<string>, text: string)

  const LogPrefix: string := "Error handling \""
  const AppClause: string := " for the app \""

  /** Reads a log line back into its action, the application it names if any, and its text. */
  function ParseLogLine(line: string): Option<LogEntry> {
    if !StartsWith(line, LogPrefix) then None
    else
      var rest := line[|LogPrefix|..];
      var i := IndexOf(rest, '"');
      if i == |rest| then None else ParseLogTail(rest[..i], rest[i + 1..])
  }

  /** Reads what follows the quoted action of a log line. */
  function ParseLogTail(action: string, after: string): Option<LogEntry> {
    if StartsWith(after, ": ") then Some(LogEntry(action, None, after[2..]))
    else if StartsWith(after, AppClause) then
      var rest := after[|AppClause|..];
      var j := IndexOf(rest, '"');
      if j == |rest| || !StartsWith(rest[j + 1..], ": ") then None
      else Some(LogEntry(action, Some(rest[..j]), rest[j + 3..]))
    else None
  }

  lemma ParseQuoted(name: string, after: string)
    requires Free(name, '"')
    ensures IndexOf(name + "\"" + after, '"') == |name|
    ensures (name + "\"" + after)[..|name|] == name
    ensures (name + "\"" + after)[|name| + 1..] == after
  {
    IndexOfAfterFree(name, '"', after);
  }

  lemma ParseLogLineAction(action: string, after: string)
    requires Free(action, '"')
    ensures ParseLogLine(LogPrefix + (action + "\"" + after)) == ParseLogTail(action, after)
  {
    var line := LogPrefix + (action + "\"" + after);
    assert line[|LogPrefix|..] == action + "\"" + after;
    ParseQuoted(action, after);
  }

  lemma ParseLogTailApp(action: string, name: string, text: string)
    requires Free(name, '"')
    ensures ParseLogTail(action, AppClause + (name + "\"" + (": " + text)))
            == Some(LogEntry(action, Some(name), text))
  {
    var after := AppClause + (name + "\"" + (": " + text));
    assert after[0] == ' ';
    assert after[|AppClause|..] == name + "\"" + (": " + text);
    ParseQuoted(name, ": " + text);
  }

  /**
   A log line can be read back into its parts as long as the quoted names
   contain no quote; in particular the "for the app" clause is there exactly
   when an application is named.
   */
  lemma ParseLogLineRoundTrip(action: string, app: Option<string>, text: string)
    requires Free(action, '"')
    requires app.Some? ==> Free(app.value, '"')
    ensures ParseLogLine(LogLine(action, app, text)) == Some(LogEntry(action, app, text))
  {
    match app {
      case None =>
        assert LogLine(action, app, text) == LogPrefix + (action + "\"" + (": " + text));
        ParseLogLineAction(action, ": " + text);
      case Some(name) =>
        var after := AppClause + (name + "\"" + (": " + text));
        assert LogLine(action, app, text) == LogPrefix + (action + "\"" + after);
        ParseLogLineAction(action, after);
        ParseLogTailApp(action, name, text);
    }
  }

  /**
   Every failure is logged as a line that reads back as the action, then the
   application only when it was looked up, then the failure's text.
   */
  lemma HandleLogLine(msg: Message, store: map<string, App>, stamp: string)
    requires Free(msg.action, '"')
    requires msg.args != [] ==> Free(msg.args[0], '"')
    ensures var r := Handle(msg, store, stamp);
            r.Failed? ==>
              ParseLogLine(r.log)
              == Some(LogEntry(msg.action,
                               if r.failure.AppResolved() then Some(msg.args[0]) else None,
                               Describe(r.failure)))
  {
    var r := Handle(msg, store, stamp);
    if r.Failed? {
      ParseLogLineRoundTrip(msg.action,
                            if r.failure.AppResolved() then Some(msg.args[0]) else None,
                            Describe(r.failure));
    }
  }

  /**
   An unknown action is rejected before anything else is looked at: neither
   the arguments nor the store change the outcome.
   */
  lemma UnknownActionFirst(msg: Message, store: map<string, App>, stamp: string)
    requires ParseAction(msg.action).None?
    ensures Handle(msg, store, stamp) == Handle(Message(msg.action, []), map[], "")
    ensures Handle(msg, store, stamp).log
            == "Error handling " + Quote(msg.action) + ": invalid action."
  {
  }

  /** Without a unit filter an action runs once on every unit of a ready application. */
  lemma DispatchAllUnits(msg: Message, store: map<string, App>, stamp: string)
    requires ParseAction(msg.action).Some? && |msg.args| == 1
    requires msg.args[0] in store && Ready(store[msg.args[0]])
    ensures var r := Handle(msg, store, stamp);
            r.Dispatched?
            && |r.cmds| == |store[msg.args[0]].units|
            && forall k :: 0 <= k < |r.cmds| ==> r.cmds[k].unit == store[msg.args[0]].units[k].name
  {
    assert msg.args[1..] == [];
  }

  /**
   With a unit filter an action runs once per distinct filtered name that
   names a unit of the application, whatever the number of its units.
   */
  lemma DispatchFilteredCount(msg: Message, store: map<string, App>, stamp: string)
    requires ParseAction(msg.action).Some? && |msg.args| > 1
    requires msg.args[0] in store && Ready(store[msg.args[0]])
    requires UniqueNames(store[msg.args[0]].units)
    ensures var r := Handle(msg, store, stamp);
            r.Dispatched?
            && |r.cmds| == |Names(store[msg.args[0]].units) * set n | n in msg.args[1..]|
  {
    TargetsCount(store[msg.args[0]].units, msg.args[1..]);
  }

  /** Every command goes to a unit of the application that the filter selects. */
  lemma DispatchOnlySelected(msg: Message, store: map<string, App>, stamp: string)
    requires Handle(msg, store, stamp).Dispatched?
    ensures var app := store[msg.args[0]];
            forall c :: c in Handle(msg, store, stamp).cmds ==>
              exists u :: u in app.units && Selected(u, msg.args[1..]) && c.unit == u.name
  {
    var app := store[msg.args[0]];
    var targets := Targets(app.units, msg.args[1..]);
    var cmds := Handle(msg, store, stamp).cmds;
    forall c | c in cmds
      ensures exists u :: u in app.units && Selected(u, msg.args[1..]) && c.unit == u.name
    {
      var k :| 0 <= k < |cmds| && cmds[k] == c;
      assert targets[k] in targets;
    }
  }
}
