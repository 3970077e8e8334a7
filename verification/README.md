# tsuru collector: queue message handling

This project models the message handler of the tsuru collector (package
`main` of `collector/`), as its tests pin it down. The collector reads
action messages from a queue. A message names an action and carries
arguments: the application name, then an optional list of unit names.
`handle` checks the message against the stored application. It then either
logs one classified error line or sends a command to each targeted unit of
the application:

- `start-app` runs the restart hook `/var/lib/tsuru/hooks/restart`;
- `regenerate-apprc` rewrites `/home/application/apprc` with one
  `export NAME="VALUE"` line per public environment variable.

`UnitList.Started` is the readiness predicate over a list of units.

The model is functional:

- `strings.dfy` (module `Strings`): line splitting and joining, newline
  flattening, quoting.
- `units.dfy` (module `Units`): units, `Started`, and target selection by
  the unit-name filter.
- `apprc.dfy` (module `Apprc`): environment variables and the apprc script,
  with a parser for its export lines.
- `queue.dfy` (module `Queue`): actions, applications, messages, the failure
  taxonomy, log lines (with a parser) and `Handle`.
- `queue_cases.dfy` (module `QueueCases`): the situations of
  `collector/queue_test.go`, each stated as a lemma about the model.

The application store becomes a `map<string, App>` snapshot. The logger
becomes the `log` field of a failed outcome. The provisioner becomes the
list of `(unit, command)` pairs of a dispatched outcome. The time stamp
after the `# generated by tsuru` banner becomes the parameter `stamp`.

The handler checks a message in this fixed order:

1. unknown action;
2. no argument;
3. application not in the store;
4. application state `"error"`;
5. application state `"down"`;
6. application not `"started"`, or one of its units not `"started"`.

The log line is `Error handling "<action>": <text>` until the application
has been found. After that it is `Error handling "<action>" for the app
"<name>": <text>`. The not-ready text always cites the application's own
state.

Where the tests pin a detail, the model follows them:

- states are free strings, not a closed enumeration, because a test uses the
  state `"blabla"`;
- the not-ready text ends in `")."`.

## Model

| member | source | states |
|---|---|---|
| Units.Started | collector/queue_test.go:226-253 | `Started(units)` holds iff every unit's state is `"started"`, so it holds for an empty list |
| Units.NotStartedWitness | collector/queue_test.go:240-246 | a single unit in another state (such as `"blabla"`) makes the list not started |
| Units.Targets | collector/queue_test.go:54-94 | the targets are the units whose name is in the filter: exactly those, a subsequence of the stored order, and every unit when the filter is empty |
| Units.TargetsOneName | collector/queue_test.go:87-90 | if unit names are unique, a filter naming one unit of three selects exactly that unit |
| Units.TargetsCount | collector/queue_test.go:87-90 | if unit names are unique, the number of targets equals the number of distinct filter names that name a unit, whatever the total unit count |
| Apprc.Exports | collector/queue_test.go:32-38 | there is one export line per public variable: as many lines as public variables, each public variable's `export NAME="VALUE"` line among them, and no other line |
| Apprc.ExportsOnce | collector/queue_test.go:32-38 | when variable names are keys, a public variable's export line occurs exactly once and a non-public variable's not at all |
| Apprc.ParseScript | collector/queue_test.go:48-50 | reading the lines back from a rendered apprc script gives the here-document line, the banner, the export lines and `END`, in that order |
| Apprc.ScriptExportsPublic | collector/queue_test.go:48-50 | in a rendered script, every public variable's export line appears between banner and END, and every line there belongs to a public variable |
| Apprc.ScriptExportsOnce | collector/queue_test.go:48-50 | when variable names are keys, each public variable's export line occurs exactly once between banner and END of the rendered script, and a non-public variable's never |
| Apprc.ScriptFrame | collector/queue_test.go:49-50 | the script starts with `cat > /home/application/apprc <<END`, a newline and `# generated by tsuru`, and ends with `END` and a newline |
| Apprc.ExportsPermutation | collector/queue_test.go:32-38 | visiting the variables in another order only permutes the export lines: the multiset of lines stays the same |
| Apprc.RegenerateOrderIndependent | collector/queue_test.go:21-51 | regenerating the apprc of an unchanged application at another time, or in another variable order, writes the same export lines |
| Queue.ParseAction | collector/queue_test.go:104-108 | an action name is known only as `start-app` or `regenerate-apprc`, and a known action's name is the name looked up |
| Queue.ParseActionName | collector/queue_test.go:109-126 | each known action is found again by its own name |
| Queue.StateFailure | collector/queue_test.go:142-153 | an application has a state failure iff it is not ready; that failure is always one that names the application |
| Queue.Handle | collector/queue_test.go:97-202 | each failure kind occurs iff its check fails and every earlier check passed; the log line names the app only once it was found; otherwise one command per target |
| Queue.ParseLogLineRoundTrip | collector/queue_test.go:104-153 | a log line reads back as its action, the application if one is named, and its text, provided the names contain no quote |
| Queue.HandleLogLine | collector/queue_test.go:104-153 | the line of every failure reads back with the `for the app` part exactly when the application was found |
| Queue.UnknownActionFirst | collector/queue_test.go:104-108 | an unknown action is rejected before anything else, so its arguments and the store do not matter |
| Queue.DispatchAllUnits | collector/queue_test.go:204-223 | without a filter, a ready application gets one command per unit, in unit order |
| Queue.DispatchFilteredCount | collector/queue_test.go:54-94 | with a filter, the number of commands is the number of distinct filtered names that name a unit |
| Queue.DispatchOnlySelected | collector/queue_test.go:87-90 | every command goes to a unit of the application that the filter selects |
| QueueCases.StartedCases | collector/queue_test.go:226-253 | the three unit lists of the test give true, true (empty list) and false |
| QueueCases.UnknownActionCase | collector/queue_test.go:104-108 | the exact line `Error handling "unknown-action": invalid action.` |
| QueueCases.StartAppPendingCase | collector/queue_test.go:109-114 | `start-app` on a pending app logs the not-ready line citing `"pending"` |
| QueueCases.StartAppUnitPendingCase | collector/queue_test.go:115-120 | `start-app` on a started app with a pending unit logs the not-ready line citing `"started"` |
| QueueCases.RegenerateApprcPendingCase | collector/queue_test.go:121-126 | `regenerate-apprc` on a pending app logs the not-ready line citing `"pending"` |
| QueueCases.RegenerateApprcUnitPendingCase | collector/queue_test.go:127-132 | `regenerate-apprc` on a started app with a pending unit logs the not-ready line citing `"started"` |
| QueueCases.UnknownAppCase | collector/queue_test.go:133-137 | the exact line `Error handling "regenerate-apprc": app "unknown-app" does not exist.` |
| QueueCases.NoArgumentsCase | collector/queue_test.go:138-141 | the exact line `Error handling "regenerate-apprc": this action requires at least 1 argument.` |
| QueueCases.ErrorStateCase | collector/queue_test.go:142-147 | the exact line for the app in state `"error"` |
| QueueCases.DownStateCase | collector/queue_test.go:148-153 | the exact line for the app in state `"down"` |
| QueueCases.ProxyScriptShape | collector/queue_test.go:48-51 | the flattened apprc command for the proxy variable matches the tested pattern: fixed head, any stamp, then the export line and `END` |
| QueueCases.HandleMessageCase | collector/queue_test.go:21-51 | a ready one-unit app gets exactly one apprc command of the tested shape |
| QueueCases.HandleMessageWithSpecificUnitCase | collector/queue_test.go:54-95 | three ready units with filter `nemesis/1` give exactly one command, for `nemesis/1` |
| QueueCases.HandleRestartAppCase | collector/queue_test.go:204-224 | `start-app` on a ready one-unit app gives exactly one command, the restart hook |

## Left out

- The application store (MongoDB) is a map snapshot. Lookup failures other than a missing name are not modelled.
- The queue transport (delivery, `queue.Delete`) is left out. A message is an input value.
- The global logger is left out. A failure's one log line is returned as a value.
- Provisioner execution is left out: its success or failure and any per-unit execution errors. A dispatched outcome only lists the commands to run.
- Banner text after `# generated by tsuru` is the `stamp` parameter. In the source it is a clock reading.
- Go map iteration order of the environment is left open: the environment is a sequence in some visiting order, and `Apprc.ExportsPermutation` shows the order only permutes the export lines.
- Non-public variables are excluded: they must never reach a unit. The tests do not exercise this.
- Readiness covers all units of the application, not only the filtered ones. The tests do not tell the two apart.
- The `Machine` field of units plays no part in any tested behaviour and is not modelled.
- Quote: wraps a name in double quotes without Go's `%q` escaping of quotes, backslashes and control characters, because the tests only use plain names.
- Apprc.ExportLine: writes the value between double quotes. Shell escaping of the value is left out; the one value the tests use (`http://myproxy.com:3128/`) needs none.
- Apprc.ScriptExportsPublic: says which lines appear; how often each appears is the contract of `Apprc.ScriptExportsOnce`.
- Apprc.ScriptExportsOnce: assumes, besides unique names, that no variable name contains `=`. Otherwise two different variables can render the same export line. Shell variable names never contain `=`.
- Units.TargetsCount: counts targets only for lists whose unit names are unique, the invariant the store keeps.
- The gocheck harness and fixture setup and teardown are left out.
