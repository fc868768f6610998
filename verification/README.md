# clog — a model of the tagged-line logger

`clog` is a small Go logging facade. A logger (`Clog`) holds an ordered list
of context extractors, which are functions from a request context to a string.
Every log call evaluates the extractors against the call's context. It then
writes one line: `|LEVEL|tag1|...|tagN|$ message`. The level tokens are the
constants `DEBUG`, `INFO`, `WARN` and `ERROR`. The package also keeps
process-wide state:
- a global extractor list, set by `SetDefaultOpts`, which seeds any logger
  built without explicit extractors;
- a default logger, built once by the first free-standing `Debug`, `Info`,
  `Warn` or `Error` call.

The Dafny project models this core as pure functions over immutable values.

- `options.dfy` — module `Options`: `Option<T>`, the model of a Go value that
  may be `nil`.
- `text.dfy` — module `Text`: Go's `strings.Join`, plus what is needed to read
  a joined line back. That is a cut at the first occurrence of a character and
  a reader for delimiter-terminated fields. It also holds the prefix, suffix
  and containment predicates.
- `clog.dfy` — module `Clog`: the level constants and the `Logger` datatype.
  It has the line assembly (`Tags`, `Prefix`, `Line`, `Output` and the four
  severities) and a decoder `ParseLine`. The decoder inverts line assembly
  only when no field contains the delimiter `|`. With a `|` inside a tag,
  two different tag lists can give the same line, so no decoder can recover
  them. It also has logger construction (`Compact`, `NewClog`).
- `facade.dfy` — module `Facade`: the process state (global options, default
  logger, once-guard) as a value `State`. It has `SetDefaultOpts`, the guarded
  initializer and the free-standing logging functions. `Run` performs a
  sequence of calls and returns the lines written.
- `scenarios.dfy` — module `Scenarios`: the package's test fixture, a logger
  with one extractor that reads a request id from the context.

The context is a type parameter `C`, so the logger never looks inside it.
Extractors are total functions `C -> string`. A possibly-`nil` extractor
passed by a caller is an `Option<C -> string>`. A logger's own extractor list
never holds absent entries. The message body is the already formatted string.

## Model

| member | source | states |
|---|---|---|
| Clog.Tags | clog.go:53-55 | one tag per extractor, in binding order: tag `i` is extractor `i` applied to the call's context |
| Clog.Prefix | clog.go:52-55 | the prefix has `1 + |optional|` fields; field 0 is the level and field `i+1` is `optional[i](ctx)` |
| Text.Join | clog.go:58 | `strings.Join`: empty for no elements; for one or more, putting one more delimiter in front puts a delimiter before every element, and putting one behind puts a delimiter after every element |
| Clog.Line | clog.go:58 | with at least one field, the message is every field preceded by `|`, then `|$ ` and the body; equivalently `|`, every field followed by `|`, then `$ ` and the body |
| Clog.Output | clog.go:51-59 | the emitted line starts with `|level|` and ends with `|$ ` plus the body; when no field holds `|`, `ParseLine` recovers exactly the level, the tags and the body |
| Clog.Debug | clog.go:31-33 | a DEBUG line starts with `|DEBUG|` and ends with `|$ ` plus the body; when no field holds `|`, it reads back as exactly DEBUG, the logger's tags for the context, and the body |
| Clog.Info | clog.go:36-38 | an INFO line starts with `|INFO|` and ends with `|$ ` plus the body; when no field holds `|`, it reads back as exactly INFO, the logger's tags for the context, and the body |
| Clog.Warn | clog.go:41-43 | a WARN line starts with `|WARN|` and ends with `|$ ` plus the body; when no field holds `|`, it reads back as exactly WARN, the logger's tags for the context, and the body |
| Clog.Error | clog.go:46-48 | an ERROR line starts with `|ERROR|` and ends with `|$ ` plus the body; when no field holds `|`, it reads back as exactly ERROR, the logger's tags for the context, and the body |
| Clog.LevelOnlyDiffers | clog.go:31-48 | two severities produce lines that agree after the bracket and the level token; the level is the only difference |
| Clog.SeverityLinesDistinct | clog.go:12-48 | for one logger, context and body, the DEBUG, INFO, WARN and ERROR lines are pairwise different |
| Clog.ParseLine | clog.go:58 | any record read back from a line renders to that same line, has the requested tag count, and has no field containing `|` |
| Clog.LineRoundTrip | clog.go:58 | rendering a level, tags and body with no `|` in any field, then reading it back, gives the same level, tags and body |
| Clog.FieldAt | clog.go:58 | every prefix field occurs in the line right after a `|`, at an offset that grows strictly with the field's index |
| Clog.OutputContainsFields | clog_test.go:27-97 | the level, every tag and the body occur in the emitted line, whatever the tags contain |
| Scenarios.RequestIdScenario | clog_test.go:13-43 | a logger with one request-id extractor writes `|LEVEL|test-request-id|$ ` followed by the body |
| Clog.AmbiguousWithDelimiterInTag | clog.go:58 | a tag that contains `|` gives the same line as two tags: the format is not injective without the delimiter-free condition |
| Clog.Compact | clog.go:102-106 | the result holds only present entries and every present entry, and is no longer than the input; it is empty exactly when every entry is absent |
| Clog.CompactAppend | clog.go:102-106 | filtering keeps order: filtering a concatenation gives the concatenation of the filtered parts |
| Clog.CompactAllPresent | clog.go:102-106 | a list with no absent entry is kept element by element |
| Clog.NewClog | clog.go:93-109 | the logger's extractors are the explicit list filtered by `Compact` (present entries only, in order) when that list is non-empty, otherwise the global list filtered the same way |
| Clog.ExplicitOptionsWin | clog.go:98-106 | with a non-empty explicit list the global list is ignored, and the extractors are that list with absent entries removed |
| Clog.NoOptionsUseGlobals | clog.go:98-100 | with no explicit list the extractors are the global list with absent entries removed; with empty globals there are none |
| Clog.AllAbsentDoesNotFallBack | clog.go:98-106 | a non-empty explicit list of only absent entries gives no extractors and does not fall back to the globals |
| Clog.SingleOption | clog_test.go:108-118 | one explicit extractor gives a logger whose extractors are exactly that one |
| Facade.Start | clog.go:19-23 | at process start there are no global options and no default logger, and the guard has not run |
| Facade.SetDefaultOpts | clog.go:112-114 | the global list becomes exactly the given list; the default logger and the guard are untouched |
| Facade.InitDefaultLogger | clog.go:62-66 | an existing default logger is kept; a missing one is built from the current global list with absent entries removed |
| Facade.OnceInit | clog.go:69-70 | the guard runs the initializer only on its first call; afterwards the state is returned unchanged |
| Facade.Log | clog.go:69-90 | a free-standing call initializes at most once, leaves the global list alone, and logs through the default logger |
| Facade.Debug | clog.go:69-72 | a free-standing DEBUG call is the default logger's DEBUG line after the once-guard |
| Facade.Info | clog.go:75-78 | a free-standing INFO call is the default logger's INFO line after the once-guard |
| Facade.Warn | clog.go:81-84 | a free-standing WARN call is the default logger's WARN line after the once-guard |
| Facade.Error | clog.go:87-90 | a free-standing ERROR call is the default logger's ERROR line after the once-guard |
| Facade.Run | clog.go:62-114 | every sequence of calls keeps the invariant that the guard has run exactly when the default logger exists, and writes exactly one line per free-standing call and none per configuration call |
| Facade.DefaultLoggerStable | clog.go:62-90 | once the default logger exists, no sequence of configuration or logging calls replaces it |
| Facade.LinesAfterInit | clog.go:69-90 | once the default logger exists, every later free-standing call writes that logger's line, whatever global options are set in between |
| Facade.ConfigurationOnly | clog.go:112-114 | configuration calls alone build no default logger and write nothing; the global list ends as the last one set |
| Facade.FirstCallFixesLogger | clog.go:62-90 | the default logger is built from the global list current at the first free-standing call, and no later call rebuilds it |
| Facade.LinesFromFirstCall | clog.go:62-90 | a run from the uninitialized state writes, from its first free-standing call on, exactly the lines of the logger built from the global list current at that call |
| Facade.SetReplacesNotMerges | clog_test.go:121-141 | after setting global options, a logger built without explicit options has only the new ones; setting none clears them |

## Left out

- The `log.Logger` sink is not modelled: standard output, the timestamp and short-file flags, and the call-depth argument of `Output(2, ...)`. The model returns the message string that would be handed to the sink (clog.go:58, clog.go:95).
- `fmt.Sprintf` formatting of the body is not modelled: `content` is the already formatted string (clog.go:57).
- Extractor panics are not modelled, for example a failed type assertion on a missing context key. Extractors are total functions.
- `sync.Once` atomicity under concurrent first calls is not modelled. Calls happen one after another, and the guard is the `initialized` flag of the state.
- Go slice aliasing is not modelled: `SetDefaultOpts` keeps the caller's slice without copying it, so a caller that later mutates that slice changes the globals. In the model all lists are values.
- The calls a program makes are an input list (`Facade.Call`) rather than a Go program's control flow.
- Go strings are byte strings; the model uses `seq<char>`. The only character the format relies on, `|`, and the separator `$ ` are ASCII, so lines agree character for byte on ASCII input. Multi-byte UTF-8 text is not modelled byte by byte.
- example/main.go is left out because it only demonstrates usage.
- Clog.Compact: its own contract states which entries it keeps, not their order; order is stated by `Clog.CompactAppend` and `Clog.CompactAllPresent`.
