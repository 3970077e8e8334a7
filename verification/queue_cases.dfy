/**
 The concrete situations the collector's tests set up, stated against the
 model: the readiness of three unit lists, the nine classified failures
 with their exact log lines, and the commands sent for ready applications.
 */
module QueueCases {
  import opened Strings
  import opened Units
  import opened Apprc
  import opened Queue

  lemma StartedCases()
    ensures Started([Unit("", "started"), Unit("", "started"), Unit("", "started")])
    ensures Started([])
    ensures !Started([Unit("", "started"), Unit("", "blabla")])
  {
    NotStartedWitness([Unit("", "started"), Unit("", "blabla")], 1);
  }

  /** The applications stored before the failing messages are handled. */
  function ErrorStore(): (store: map<string, App>)
    ensures forall name :: name in store ==> store[name].name == name
  {
    map[
      "nemesis" := App("nemesis", "pending", [], []),
      "totem" := App("totem", "started", [Unit("totem/0", "pending"), Unit("totem/1", "started")], []),
      "marathon" := App("marathon", "error", [], []),
      "territories" := App("territories", "down", [], [])
    ]
  }

  function LogOf(action: string, args: seq<string>): string {
    Handle(Message(action, args), ErrorStore(), "").log
  }

  // The expected lines are written as the tests write them, cut into pieces
  // where the parts of a log line meet.

  /** The log line of a message against the stored applications, from its classification. */
  lemma LogOfFailure(action: string, args: seq<string>, f: Failure)
    requires Handle(Message(action, args), ErrorStore(), "").Failed?
    requires Handle(Message(action, args), ErrorStore(), "").failure == f
    ensures LogOf(action, args)
            == LogLine(action, if f.AppResolved() then Some(args[0]) else None, Describe(f))
  {
  }

  lemma UnknownActionLine()
    ensures LogLine("unknown-action", None, Describe(InvalidAction))
            == "Error handling " + "\"unknown-action\"" + ": " + "invalid action."
  {
    assert Quote("unknown-action") == "\"unknown-action\"";
  }

  lemma UnknownActionCase()
    ensures LogOf("unknown-action", ["does not matter"])
            == "Error handling " + "\"unknown-action\"" + ": " + "invalid action."
  {
    LogOfFailure("unknown-action", ["does not matter"], InvalidAction);
    UnknownActionLine();
  }

  lemma StartAppPendingLine()
    ensures LogLine("start-app", Some("nemesis"), Describe(AppNotReady("pending")))
            == "Error handling " + "\"start-app\"" + " for the app " + "\"nemesis\"" + ": "
               + "The status of the app and all units should be \"started\" (the app is "
               + "\"pending\"" + ")."
  {
    assert Quote("start-app") == "\"start-app\"";
    assert Quote("nemesis") == "\"nemesis\"";
    assert Quote("pending") == "\"pending\"";
  }

  lemma StartAppPendingCase()
    ensures LogOf("start-app", ["nemesis"])
            == "Error handling " + "\"start-app\"" + " for the app " + "\"nemesis\"" + ": "
               + "The status of the app and all units should be \"started\" (the app is "
               + "\"pending\"" + ")."
  {
    LogOfFailure("start-app", ["nemesis"], AppNotReady("pending"));
    StartAppPendingLine();
  }

  lemma StartAppUnitPendingLine()
    ensures LogLine("start-app", Some("totem"), Describe(AppNotReady("started")))
            == "Error handling " + "\"start-app\"" + " for the app " + "\"totem\"" + ": "
               + "The status of the app and all units should be \"started\" (the app is "
               + "\"started\"" + ")."
  {
    assert Quote("start-app") == "\"start-app\"";
    assert Quote("totem") == "\"totem\"";
    assert Quote("started") == "\"started\"";
  }

  lemma StartAppUnitPendingCase()
    ensures LogOf("start-app", ["totem", "totem/0", "totem/1"])
            == "Error handling " + "\"start-app\"" + " for the app " + "\"totem\"" + ": "
               + "The status of the app and all units should be \"started\" (the app is "
               + "\"started\"" + ")."
  {
    NotStartedWitness(ErrorStore()["totem"].units, 0);
    LogOfFailure("start-app", ["totem", "totem/0", "totem/1"], AppNotReady("started"));
    StartAppUnitPendingLine();
  }

  lemma RegenerateApprcPendingLine()
    ensures LogLine("regenerate-apprc", Some("nemesis"), Describe(AppNotReady("pending")))
            == "Error handling " + "\"regenerate-apprc\"" + " for the app " + "\"nemesis\""
               + ": " + "The status of the app and all units should be \"started\" (the app is "
               + "\"pending\"" + ")."
  {
    assert Quote("regenerate-apprc") == "\"regenerate-apprc\"";
    assert Quote("nemesis") == "\"nemesis\"";
    assert Quote("pending") == "\"pending\"";
  }

  lemma RegenerateApprcPendingCase()
    ensures LogOf("regenerate-apprc", ["nemesis"])
            == "Error handling " + "\"regenerate-apprc\"" + " for the app " + "\"nemesis\""
               + ": " + "The status of the app and all units should be \"started\" (the app is "
               + "\"pending\"" + ")."
  {
    LogOfFailure("regenerate-apprc", ["nemesis"], AppNotReady("pending"));
    RegenerateApprcPendingLine();
  }

  lemma RegenerateApprcUnitPendingLine()
    ensures LogLine("regenerate-apprc", Some("totem"), Describe(AppNotReady("started")))
            == "Error handling " + "\"regenerate-apprc\"" + " for the app " + "\"totem\""
               + ": " + "The status of the app and all units should be \"started\" (the app is "
               + "\"started\"" + ")."
  {
    assert Quote("regenerate-apprc") == "\"regenerate-apprc\"";
    assert Quote("totem") == "\"totem\"";
    assert Quote("started") == "\"started\"";
  }

  lemma RegenerateApprcUnitPendingCase()
    ensures LogOf("regenerate-apprc", ["totem", "totem/0", "totem/1"])
            == "Error handling " + "\"regenerate-apprc\"" + " for the app " + "\"totem\""
               + ": " + "The status of the app and all units should be \"started\" (the app is "
               + "\"started\"" + ")."
  {
    NotStartedWitness(ErrorStore()["totem"].units, 0);
    LogOfFailure("regenerate-apprc", ["totem", "totem/0", "totem/1"], AppNotReady("started"));
    RegenerateApprcUnitPendingLine();
  }

  lemma UnknownAppLine()
    ensures LogLine("regenerate-apprc", None, Describe(AppNotFound("unknown-app")))
            == "Error handling " + "\"regenerate-apprc\"" + ": " + "app " + "\"unknown-app\""
               + " does not exist."
  {
    assert Quote("regenerate-apprc") == "\"regenerate-apprc\"";
    assert Quote("unknown-app") == "\"unknown-app\"";
  }

  lemma UnknownAppCase()
    ensures LogOf("regenerate-apprc", ["unknown-app"])
            == "Error handling " + "\"regenerate-apprc\"" + ": " + "app " + "\"unknown-app\""
               + " does not exist."
  {
    LogOfFailure("regenerate-apprc", ["unknown-app"], AppNotFound("unknown-app"));
    UnknownAppLine();
  }

  lemma NoArgumentsLine()
    ensures LogLine("regenerate-apprc", None, Describe(MissingArguments))
            == "Error handling " + "\"regenerate-apprc\"" + ": "
               + "this action requires at least 1 argument."
  {
    assert Quote("regenerate-apprc") == "\"regenerate-apprc\"";
  }

  lemma NoArgumentsCase()
    ensures LogOf("regenerate-apprc", [])
            == "Error handling " + "\"regenerate-apprc\"" + ": "
               + "this action requires at least 1 argument."
  {
    LogOfFailure("regenerate-apprc", [], MissingArguments);
    NoArgumentsLine();
  }

  lemma ErrorStateLine()
    ensures LogLine("regenerate-apprc", Some("marathon"), Describe(AppInErrorState))
            == "Error handling " + "\"regenerate-apprc\"" + " for the app " + "\"marathon\""
               + ": " + "the app is in " + "\"error\"" + " state."
  {
    assert Quote("regenerate-apprc") == "\"regenerate-apprc\"";
    assert Quote("marathon") == "\"marathon\"";
    assert Quote("error") == "\"error\"";
  }

  lemma ErrorStateCase()
    ensures LogOf("regenerate-apprc", ["marathon"])
            == "Error handling " + "\"regenerate-apprc\"" + " for the app " + "\"marathon\""
               + ": " + "the app is in " + "\"error\"" + " state."
  {
    LogOfFailure("regenerate-apprc", ["marathon"], AppInErrorState);
    ErrorStateLine();
  }

  lemma DownStateLine()
    ensures LogLine("regenerate-apprc", Some("territories"), Describe(AppDown))
            == "Error handling " + "\"regenerate-apprc\"" + " for the app "
               + "\"territories\"" + ": " + "the app is down."
  {
    assert Quote("regenerate-apprc") == "\"regenerate-apprc\"";
    assert Quote("territories") == "\"territories\"";
  }

  lemma DownStateCase()
    ensures LogOf("regenerate-apprc", ["territories"])
            == "Error handling " + "\"regenerate-apprc\"" + " for the app "
               + "\"territories\"" + ": " + "the app is down."
  {
    LogOfFailure("regenerate-apprc", ["territories"], AppDown);
    DownStateLine();
  }

  const Proxy: EnvVar := EnvVar("http_proxy", "http://myproxy.com:3128/", true)

  /** What the tests match a flattened apprc command against, before and after `.*`. */
  const ApprcHead: string := "cat > /home/application/apprc <<END" + " # generated by tsuru"
  const ApprcTail: string := "export http_proxy=" + "\"http://myproxy.com:3128/\"" + " END "

  lemma ProxyScriptFlat(stamp: string)
    requires Free(stamp, '\n')
    ensures Flatten(Script([Proxy], stamp))
            == Heredoc + " " + (BannerMarker + stamp + " ") + (ExportLine(Proxy) + " ") + (HeredocEnd + " ")
  {
    var ls := ScriptLines([Proxy], stamp);
    assert Exports([Proxy]) == [ExportLine(Proxy)];
    assert ls == [Heredoc, BannerMarker + stamp] + [ExportLine(Proxy), HeredocEnd];
    ScriptSingleLines([Proxy], stamp);
    FlattenUnlines(ls);
    TerminatedAppend([Heredoc, BannerMarker + stamp], [ExportLine(Proxy), HeredocEnd], ' ');
    TerminatedAppend([Heredoc], [BannerMarker + stamp], ' ');
    TerminatedAppend([ExportLine(Proxy)], [HeredocEnd], ' ');
    TerminatedOne(Heredoc, ' ');
    TerminatedOne(BannerMarker + stamp, ' ');
    TerminatedOne(ExportLine(Proxy), ' ');
    TerminatedOne(HeredocEnd, ' ');
  }

  lemma ApprcHeadPieces()
    ensures Heredoc + " " + BannerMarker == ApprcHead
  {
    assert Heredoc == "cat > /home/application/apprc <<END";
    assert " " + BannerMarker == " # generated by tsuru";
  }

  lemma ApprcTailPieces()
    ensures ExportLine(Proxy) + " " + (HeredocEnd + " ") == ApprcTail
  {
    assert "export " + Proxy.name + "=" == "export http_proxy=";
    assert Quote(Proxy.value) == "\"http://myproxy.com:3128/\"";
    assert " " + (HeredocEnd + " ") == " END ";
  }

  /** The apprc script for the proxy variable, flattened, has the shape the tests expect. */
  lemma ProxyScriptShape(stamp: string)
    requires Free(stamp, '\n')
    ensures MatchesAround(Flatten(Script([Proxy], stamp)), ApprcHead, ApprcTail)
  {
    ProxyScriptFlat(stamp);
    ApprcHeadPieces();
    ApprcTailPieces();
    var head, tail := Heredoc + " " + BannerMarker, ExportLine(Proxy) + " " + (HeredocEnd + " ");
    assert Flatten(Script([Proxy], stamp)) == head + (stamp + " ") + tail;
    MatchesAroundConcat(head, stamp + " ", tail);
  }

  lemma HandleMessageCase(stamp: string)
    requires Free(stamp, '\n')
    ensures var app := App("nemesis", "started", [Unit("i-00800", "started")], [Proxy]);
            var r := Handle(Message("regenerate-apprc", ["nemesis"]), map["nemesis" := app], stamp);
            && r.Dispatched?
            && |r.cmds| == 1
            && MatchesAround(Flatten(r.cmds[0].cmd), ApprcHead, ApprcTail)
  {
    var app := App("nemesis", "started", [Unit("i-00800", "started")], [Proxy]);
    DispatchAllUnits(Message("regenerate-apprc", ["nemesis"]), map["nemesis" := app], stamp);
    ProxyScriptShape(stamp);
  }

  lemma HandleMessageWithSpecificUnitCase(stamp: string)
    requires Free(stamp, '\n')
    ensures var units := [Unit("nemesis/0", "started"), Unit("nemesis/1", "started"), Unit("nemesis/2", "started")];
            var app := App("nemesis", "started", units, [Proxy]);
            var r := Handle(Message("regenerate-apprc", ["nemesis", "nemesis/1"]), map["nemesis" := app], stamp);
            && r.Dispatched?
            && |r.cmds| == 1
            && r.cmds[0].unit == "nemesis/1"
            && MatchesAround(Flatten(r.cmds[0].cmd), ApprcHead, ApprcTail)
  {
    var units := [Unit("nemesis/0", "started"), Unit("nemesis/1", "started"), Unit("nemesis/2", "started")];
    TargetsOneName(units, 1);
    ProxyScriptShape(stamp);
  }

  lemma HandleRestartAppCase(stamp: string)
    ensures var app := App("nemesis", "started", [Unit("i-00800", "started")], []);
            var r := Handle(Message("start-app", ["nemesis"]), map["nemesis" := app], stamp);
            r == Dispatched([Command("i-00800", "/var/lib/tsuru/hooks/restart")])
  {
    var app := App("nemesis", "started", [Unit("i-00800", "started")], []);
    DispatchAllUnits(Message("start-app", ["nemesis"]), map["nemesis" := app], stamp);
  }
}
