/**
  The process-wide part of the logger: the global option list, the lazily
  built default logger and the free-standing logging functions that use it.

  The process state is an explicit value threaded through every call. The
  `initialized` flag is the one-time guard; `defaultLogger` is the logger
  it builds. Initialization is sequential here: the guard's atomicity under
  concurrent first calls is not modelled.
 */
module Facade {
  import opened Options
  import Clog

  datatype State<!C> = State(
    globalOpts: seq<Option<Clog.Extractor<C>>>,
    defaultLogger: Option<Clog.Logger<C>>,
    initialized: bool)

  /** The state at process start: no global options, no default logger. */
  function Start<C>(): (s: State<C>)
    ensures Valid(s) && !s.initialized && s.globalOpts == []
  {
    State([], None, false)
  }

  /** The guard has run exactly when the default logger exists. */
  predicate Valid<C>(s: State<C>)
  {
    s.initialized <==> s.defaultLogger.Some?
  }

  /** Replaces the global option list wholesale; nothing else changes. */
  function SetDefaultOpts<C>(s: State<C>, opts: seq<Option<Clog.Extractor<C>>>): (r: State<C>)
    ensures r.globalOpts == opts
    ensures r.defaultLogger == s.defaultLogger && r.initialized == s.initialized
    ensures Valid(s) ==> Valid(r)
  {
    s.(globalOpts := opts)
  }

  /** Builds the default logger from the current global options unless it already exists. */
  function InitDefaultLogger<C>(s: State<C>): (r: State<C>)
    ensures r.defaultLogger.Some?
    ensures s.defaultLogger.Some? ==> r == s
    ensures s.defaultLogger.None? ==> r.defaultLogger.value.optional == Clog.Compact(s.globalOpts)
    ensures r.globalOpts == s.globalOpts && r.initialized == s.initialized
  {
    if s.defaultLogger.None? then
      Clog.NoOptionsUseGlobals(s.globalOpts);
      s.(defaultLogger := Some(Clog.NewClog(s.globalOpts, [])))
    else s
  }

  /** The one-time guard: runs the initializer on the first call only. */
  function OnceInit<C>(s: State<C>): (r: State<C>)
    ensures r.initialized && r.globalOpts == s.globalOpts
    ensures s.initialized ==> r == s
    ensures Valid(s) ==> Valid(r)
    ensures Valid(s) && !s.initialized ==> r.defaultLogger == Some(Clog.NewClog(s.globalOpts, []))
  {
    if s.initialized then s
    else InitDefaultLogger(s).(initialized := true)
  }

  /**
    A free-standing logging call at `level`: initializes the default logger
    if needed, then logs through it. Returns the new state and the line.
   */
  function Log<C>(s: State<C>, level: string, ctx: C, content: string): (r: (State<C>, string))
    requires Valid(s)
    ensures Valid(r.0) && r.0.initialized && r.0.globalOpts == s.globalOpts
    ensures s.initialized ==> r.0 == s
    ensures !s.initialized ==> r.0.defaultLogger.value.optional == Clog.Compact(s.globalOpts)
    ensures r.1 == Clog.Output(r.0.defaultLogger.value, ctx, level, content)
  {
    var s' := OnceInit(s);
    (s', Clog.Output(s'.defaultLogger.value, ctx, level, content))
  }

  /** Free-standing DEBUG: the default logger's DEBUG line. */
  function Debug<C>(s: State<C>, ctx: C, content: string): (r: (State<C>, string))
    requires Valid(s)
    ensures r.0 == OnceInit(s) && r.1 == Clog.Debug(r.0.defaultLogger.value, ctx, content)
  {
    Log(s, Clog.DEBUG, ctx, content)
  }

  /** Free-standing INFO: the default logger's INFO line. */
  function Info<C>(s: State<C>, ctx: C, content: string): (r: (State<C>, string))
    requires Valid(s)
    ensures r.0 == OnceInit(s) && r.1 == Clog.Info(r.0.defaultLogger.value, ctx, content)
  {
    Log(s, Clog.INFO, ctx, content)
  }

  /** Free-standing WARN: the default logger's WARN line. */
  function Warn<C>(s: State<C>, ctx: C, content: string): (r: (State<C>, string))
    requires Valid(s)
    ensures r.0 == OnceInit(s) && r.1 == Clog.Warn(r.0.defaultLogger.value, ctx, content)
  {
    Log(s, Clog.WARN, ctx, content)
  }

  /** Free-standing ERROR: the default logger's ERROR line. */
  function Error<C>(s: State<C>, ctx: C, content: string): (r: (State<C>, string))
    requires Valid(s)
    ensures r.0 == OnceInit(s) && r.1 == Clog.Error(r.0.defaultLogger.value, ctx, content)
  {
    Log(s, Clog.ERROR, ctx, content)
  }

  // ---------------------------------------------------------------------
  // Sequences of calls
  // ---------------------------------------------------------------------

  /** One call against the process state: a configuration call or a free-standing log call. */
  datatype Call<!C> =
    | SetOpts(opts: seq<Option<Clog.Extractor<C>>>)
    | Emit(level: string, ctx: C, content: string)

  /** Performs the calls in order; returns the final state and the lines written. */
  function Run<C>(s: State<C>, calls: seq<Call<C>>): (r: (State<C>, seq<string>))
    requires Valid(s)
    ensures Valid(r.0)
    ensures |r.1| == Emits(calls)
    decreases |calls|
  {
    if |calls| == 0 then (s, [])
    else
      match calls[0]
      case SetOpts(opts) => Run(SetDefaultOpts(s, opts), calls[1..])
      case Emit(level, ctx, content) =>
        var (s', line) := Log(s, level, ctx, content);
        var (s'', lines) := Run(s', calls[1..]);
        (s'', [line] + lines)
  }

  /** How many of the calls are free-standing log calls. */
  function Emits<C>(calls: seq<Call<C>>): nat
    decreases |calls|
  {
    if |calls| == 0 then 0 else (if calls[0].Emit? then 1 else 0) + Emits(calls[1..])
  }

  /** The global options after a run of configuration calls: the last one set, or `opts` if none. */
  function GlobalsAfter<C>(opts: seq<Option<Clog.Extractor<C>>>, calls: seq<Call<C>>): seq<Option<Clog.Extractor<C>>>
    decreases |calls|
  {
    if |calls| == 0 then opts
    else GlobalsAfter(if calls[0].SetOpts? then calls[0].opts else opts, calls[1..])
  }

  /** The lines a fixed logger writes for the log calls among `calls`, in order. */
  function LinesOf<C>(l: Clog.Logger<C>, calls: seq<Call<C>>): seq<string>
    decreases |calls|
  {
    if |calls| == 0 then []
    else if calls[0].Emit? then
      [Clog.Output(l, calls[0].ctx, calls[0].level, calls[0].content)] + LinesOf(l, calls[1..])
    else LinesOf(l, calls[1..])
  }

  /** Once the default logger exists, no sequence of calls replaces it. */
  lemma {:induction false} DefaultLoggerStable<C>(s: State<C>, calls: seq<Call<C>>)
    requires Valid(s) && s.initialized
    ensures Run(s, calls).0.initialized
    ensures Run(s, calls).0.defaultLogger == s.defaultLogger
    decreases |calls|
  {
    if |calls| > 0 {
      match calls[0]
      case SetOpts(opts) => DefaultLoggerStable(SetDefaultOpts(s, opts), calls[1..]);
      case Emit(level, ctx, content) => DefaultLoggerStable(s, calls[1..]);
    }
  }

  /**
    Once the default logger exists, every free-standing call logs through
    it, whatever global options are set afterwards.
   */
  lemma {:induction false} LinesAfterInit<C>(s: State<C>, calls: seq<Call<C>>)
    requires Valid(s) && s.initialized
    ensures Run(s, calls).1 == LinesOf(s.defaultLogger.value, calls)
    decreases |calls|
  {
    if |calls| > 0 {
      match calls[0]
      case SetOpts(opts) => LinesAfterInit(SetDefaultOpts(s, opts), calls[1..]);
      case Emit(level, ctx, content) => LinesAfterInit(s, calls[1..]);
    }
  }

  /** Configuration calls alone never build the default logger; they only move the global list. */
  lemma {:induction false} ConfigurationOnly<C>(s: State<C>, calls: seq<Call<C>>)
    requires Valid(s)
    requires forall j :: 0 <= j < |calls| ==> calls[j].SetOpts?
    ensures Run(s, calls).0 == s.(globalOpts := GlobalsAfter(s.globalOpts, calls))
    ensures Run(s, calls).1 == []
    decreases |calls|
  {
    if |calls| > 0 {
      ConfigurationOnly(SetDefaultOpts(s, calls[0].opts), calls[1..]);
    }
  }

  /**
    The first free-standing call builds the default logger from the global
    options current at that call, and the logger is never rebuilt afterwards.
   */
  lemma {:induction false} FirstCallFixesLogger<C>(s: State<C>, calls: seq<Call<C>>, k: nat)
    requires Valid(s) && !s.initialized
    requires k < |calls| && calls[k].Emit?
    requires forall j :: 0 <= j < k ==> calls[j].SetOpts?
    ensures Run(s, calls).0.defaultLogger == Some(Clog.NewClog(GlobalsAfter(s.globalOpts, calls[..k]), []))
    decreases k
  {
    if k == 0 {
      var s' := Log(s, calls[0].level, calls[0].ctx, calls[0].content).0;
      DefaultLoggerStable(s', calls[1..]);
    } else {
      var s' := SetDefaultOpts(s, calls[0].opts);
      FirstCallFixesLogger(s', calls[1..], k - 1);
      assert calls[1..][..k - 1] == calls[..k][1..];
    }
  }

  /**
    A run from the uninitialized state writes, from the first free-standing
    call on, exactly the lines of the logger built from the global options
    current at that call.
   */
  lemma {:induction false} LinesFromFirstCall<C>(s: State<C>, calls: seq<Call<C>>, k: nat)
    requires Valid(s) && !s.initialized
    requires k < |calls| && calls[k].Emit?
    requires forall j :: 0 <= j < k ==> calls[j].SetOpts?
    ensures Run(s, calls).1 == LinesOf(Clog.NewClog(GlobalsAfter(s.globalOpts, calls[..k]), []), calls[k..])
    decreases k
  {
    if k == 0 {
      var s' := Log(s, calls[0].level, calls[0].ctx, calls[0].content).0;
      LinesAfterInit(s', calls[1..]);
      assert calls[0..] == calls;
    } else {
      var s' := SetDefaultOpts(s, calls[0].opts);
      LinesFromFirstCall(s', calls[1..], k - 1);
      assert calls[1..][..k - 1] == calls[..k][1..];
      assert calls[1..][k - 1..] == calls[k..];
    }
  }

  /** Setting global options replaces them: a logger built afterwards sees only the new list. */
  lemma SetReplacesNotMerges<C>(s: State<C>, opts: seq<Option<Clog.Extractor<C>>>)
    ensures Clog.NewClog(SetDefaultOpts(s, opts).globalOpts, []).optional == Clog.Compact(opts)
    ensures Clog.NewClog(SetDefaultOpts(s, []).globalOpts, []).optional == []
  {
  }
}
