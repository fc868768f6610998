/**
  A tagged-line logger. A logger holds an ordered list of context
  extractors; every log call evaluates them, in order, against the call's
  context and emits `|LEVEL|tag1|...|tagN|$ content`.

  The context is a type parameter `C`: the logger never looks inside it, only
  hands it to the extractors. The message body `content` stands for the
  already formatted string (the printf-style formatting is not modelled).
 */
module Clog {
  import opened Options
  import opened Text

  /** The severity tokens written as the first field of every line. */
  const DEBUG: string := "DEBUG"
  const INFO: string := "INFO"
  const WARN: string := "WARN"
  const ERROR: string := "ERROR"

  /** Derives one tag from the call's context. */
  type Extractor<-C> = C -> string

  /** A logger owns its extractors; none of them is absent. */
  datatype Logger<-C> = Logger(optional: seq<Extractor<C>>)

  /** A line read back into its parts. */
  datatype Record = Record(level: string, tags: seq<string>, content: string)

  /** The separator between the bracketed prefix and the message body. */
  const Separator: string := "|$ "

  /** The tags of one call: each extractor applied to the context, appended in binding order. */
  function Tags<C>(optional: seq<Extractor<C>>, ctx: C): (tags: seq<string>)
    ensures |tags| == |optional|
    ensures forall i :: 0 <= i < |optional| ==> tags[i] == optional[i](ctx)
  {
    if |optional| == 0 then []
    else Tags(optional[..|optional| - 1], ctx) + [optional[|optional| - 1](ctx)]
  }

  /** The prefix fields of one call: the level token first, then the tags. */
  function Prefix<C>(l: Logger<C>, ctx: C, level: string): (prefix: seq<string>)
    ensures |prefix| == 1 + |l.optional|
    ensures prefix[0] == level
    ensures forall i :: 0 <= i < |l.optional| ==> prefix[i + 1] == l.optional[i](ctx)
  {
    [level] + Tags(l.optional, ctx)
  }

  /**
    The message handed to the sink for a prefix and a formatted body. With
    at least one field, it is every field preceded by `|`, then the
    separator and the body; equivalently a `|`, every field followed by
    `|`, then `$ ` and the body.
   */
  function Line(prefix: seq<string>, content: string): (line: string)
    ensures |prefix| > 0 ==> line == Prefixed(prefix, "|") + Separator + content
    ensures |prefix| > 0 ==> line == "|" + Terminated(prefix, "|") + "$ " + content
  {
    var j := Join(prefix, "|");
    assert Separator == "|" + "$ ";
    assert "|" + j + Separator + content == ("|" + j) + Separator + content;
    assert "|" + j + Separator + content == "|" + (j + "|") + "$ " + content;
    "|" + j + Separator + content
  }

  /** A record written out in the line format. */
  function Render(rec: Record): string
  {
    Line([rec.level] + rec.tags, rec.content)
  }

  /** True when no field holds the delimiter, so the line can be read back unambiguously. */
  predicate Unambiguous(fields: seq<string>)
  {
    forall i :: 0 <= i < |fields| ==> '|' !in fields[i]
  }

  /** The line one log call emits at `level`. */
  function Output<C>(l: Logger<C>, ctx: C, level: string, content: string): (line: string)
    ensures StartsWith(line, "|" + level + "|")
    ensures EndsWith(line, Separator + content)
    ensures Unambiguous(Prefix(l, ctx, level)) ==>
              ParseLine(line, |l.optional|) == Some(Record(level, Tags(l.optional, ctx), content))
  {
    var tags := Tags(l.optional, ctx);
    LineEnds([level] + tags, content);
    LineRoundTrip(level, tags, content);
    Line([level] + tags, content)
  }

  /** Logs at DEBUG. */
  function Debug<C>(l: Logger<C>, ctx: C, content: string): (line: string)
    ensures StartsWith(line, "|DEBUG|")
    ensures EndsWith(line, Separator + content)
    ensures Unambiguous(Prefix(l, ctx, DEBUG)) ==>
              ParseLine(line, |l.optional|) == Some(Record(DEBUG, Tags(l.optional, ctx), content))
  {
    Output(l, ctx, DEBUG, content)
  }

  /** Logs at INFO. */
  function Info<C>(l: Logger<C>, ctx: C, content: string): (line: string)
    ensures StartsWith(line, "|INFO|")
    ensures EndsWith(line, Separator + content)
    ensures Unambiguous(Prefix(l, ctx, INFO)) ==>
              ParseLine(line, |l.optional|) == Some(Record(INFO, Tags(l.optional, ctx), content))
  {
    Output(l, ctx, INFO, content)
  }

  /** Logs at WARN. */
  function Warn<C>(l: Logger<C>, ctx: C, content: string): (line: string)
    ensures StartsWith(line, "|WARN|")
    ensures EndsWith(line, Separator + content)
    ensures Unambiguous(Prefix(l, ctx, WARN)) ==>
              ParseLine(line, |l.optional|) == Some(Record(WARN, Tags(l.optional, ctx), content))
  {
    Output(l, ctx, WARN, content)
  }

  /** Logs at ERROR. */
  function Error<C>(l: Logger<C>, ctx: C, content: string): (line: string)
    ensures StartsWith(line, "|ERROR|")
    ensures EndsWith(line, Separator + content)
    ensures Unambiguous(Prefix(l, ctx, ERROR)) ==>
              ParseLine(line, |l.optional|) == Some(Record(ERROR, Tags(l.optional, ctx), content))
  {
    Output(l, ctx, ERROR, content)
  }

  /**
    Reads a line back, given how many tags follow the level. Fields are
    delimited by `|`; after the last field comes `$ ` and the body.
   */
  function ParseLine(line: string, tagCount: nat): (r: Option<Record>)
    ensures r.Some? ==> |r.value.tags| == tagCount && Render(r.value) == line
    ensures r.Some? ==> Unambiguous([r.value.level] + r.value.tags)
  {
    if |line| == 0 || line[0] != '|' then None
    else
      match SplitFields(line[1..], '|', tagCount + 1)
      case None => None
      case Some((fields, rest)) =>
        if StartsWith(rest, "$ ") then
          var rec := Record(fields[0], fields[1..], rest[2..]);
          ParsedFields(line, fields, rest);
          assert [rec.level] + rec.tags == fields;
          Some(rec)
        else None
  }

  /** A line cut into a bracket, terminated fields and the separator's tail is the rendered fields. */
  lemma ParsedFields(line: string, fields: seq<string>, rest: string)
    requires |fields| > 0 && StartsWith(rest, "$ ")
    requires |line| > 0 && line[0] == '|' && line[1..] == Terminated(fields, "|") + rest
    ensures Line(fields, rest[2..]) == line
  {
    var t, body := Terminated(fields, "|"), rest[2..];
    assert Line(fields, body) == "|" + t + "$ " + body;
    Rebracket(line, t, rest, body);
  }

  /** A bracket followed by `t`, `$ ` and a body, regrouped; stated over plain variables. */
  lemma Rebracket(line: string, t: string, rest: string, body: string)
    requires |line| > 0 && line[0] == '|' && line[1..] == t + rest
    requires StartsWith(rest, "$ ") && body == rest[2..]
    ensures line == "|" + t + "$ " + body
  {
    assert rest == "$ " + body;
    assert line == "|" + line[1..];
  }

  /** With at least one field, the line is the bracketed first field followed by the rest of the line. */
  lemma LineHead(fields: seq<string>, content: string)
    requires |fields| > 0
    ensures Line(fields, content) == "|" + fields[0] + (Prefixed(fields[1..], "|") + Separator + content)
  {
    var p := Prefixed(fields, "|");
    var q := Prefixed(fields[1..], "|");
    assert p == ("|" + fields[0]) + q;
    Regroup(p, "|" + fields[0], q, Separator, content);
  }

  /** A line starts with the bracketed first field and ends with the separator and the body. */
  lemma LineEnds(fields: seq<string>, content: string)
    requires |fields| > 0
    ensures StartsWith(Line(fields, content), "|" + fields[0] + "|")
    ensures EndsWith(Line(fields, content), Separator + content)
  {
    LineHead(fields, content);
    var line := Line(fields, content);
    var rest := Prefixed(fields[1..], "|") + Separator + content;
    assert StartsWith(rest, "|") by {
      if |fields| > 1 {
        assert Prefixed(fields[1..], "|") == "|" + fields[1] + Prefixed(fields[2..], "|");
      }
    }
    assert rest == "|" + rest[1..];
    assert line == ("|" + fields[0] + "|") + rest[1..];
    assert line == (Prefixed(fields, "|")) + (Separator + content);
  }

  /**
    `kept` holds present entries of `opts` only, at most as many as there are
    entries, and every present entry of `opts` is among them.
   */
  ghost predicate Kept<T>(kept: seq<T>, opts: seq<Option<T>>)
  {
    && |kept| <= |opts|
    && (forall i :: 0 <= i < |kept| ==> Some(kept[i]) in opts)
    && (forall j :: 0 <= j < |opts| && opts[j].Some? ==> opts[j].value in kept)
  }

  /** Drops the absent entries of an option list and keeps the others in order. */
  function Compact<T>(opts: seq<Option<T>>): (r: seq<T>)
    ensures Kept(r, opts)
    ensures r == [] <==> forall i :: 0 <= i < |opts| ==> opts[i].None?
  {
    if |opts| == 0 then []
    else
      var init := Compact(opts[..|opts| - 1]);
      assert opts == opts[..|opts| - 1] + [opts[|opts| - 1]];
      match opts[|opts| - 1]
      case Some(f) => init + [f]
      case None => init
  }

  /**
    Builds a logger. An empty explicit list falls back to the global list;
    either way the absent entries are dropped.
   */
  function NewClog<C>(globalOpts: seq<Option<Extractor<C>>>, opts: seq<Option<Extractor<C>>>): (l: Logger<C>)
    ensures |opts| > 0 ==> Kept(l.optional, opts) && l.optional == Compact(opts)
    ensures |opts| == 0 ==> Kept(l.optional, globalOpts) && l.optional == Compact(globalOpts)
  {
    var chosen := if |opts| == 0 then globalOpts else opts;
    Logger(Compact(chosen))
  }

  // ---------------------------------------------------------------------
  // Lemmas about line assembly
  // ---------------------------------------------------------------------

  /**
    Position of field `i` in a line: the bracket, then for every earlier
    field its text and one delimiter.
   */
  function FieldOffset(prefix: seq<string>, i: nat): nat
    requires i <= |prefix|
  {
    |Prefixed(prefix[..i], "|")| + 1
  }

  /** Field `i` stands at its offset, right after a delimiter; offsets grow with `i`. */
  lemma FieldAt(prefix: seq<string>, content: string, i: nat)
    requires i < |prefix|
    ensures OccursAt(Line(prefix, content), prefix[i], FieldOffset(prefix, i))
    ensures Line(prefix, content)[FieldOffset(prefix, i) - 1] == '|'
    ensures i + 1 < |prefix| ==> FieldOffset(prefix, i + 1) == FieldOffset(prefix, i) + |prefix[i]| + 1
  {
    PrefixedAt(prefix, "|", i);
    var before := Prefixed(prefix[..i], "|");
    var rest := Prefixed(prefix[i + 1..], "|");
    var after := rest + Separator + content;
    var p := Prefixed(prefix, "|");
    assert Line(prefix, content) == p + Separator + content;
    assert p == ((before + "|") + prefix[i]) + rest;
    Regroup(p, (before + "|") + prefix[i], rest, Separator, content);
    ContainsParts(before + "|", prefix[i], after);
    if i + 1 < |prefix| {
      assert prefix[..i + 1] == prefix[..i] + [prefix[i]];
      PrefixedAppend(prefix[..i], [prefix[i]], "|");
      assert Prefixed([prefix[i]], "|") == "|" + prefix[i];
    }
  }

  /** Writing a record and reading it back with the right tag count gives the record. */
  lemma LineRoundTrip(level: string, tags: seq<string>, content: string)
    ensures Unambiguous([level] + tags) ==>
              ParseLine(Render(Record(level, tags, content)), |tags|) == Some(Record(level, tags, content))
  {
    if Unambiguous([level] + tags) {
      var fields := [level] + tags;
      var line := Render(Record(level, tags, content));
      assert line[1..] == Terminated(fields, "|") + ("$ " + content);
      SplitTerminated(fields, '|', "$ " + content);
      assert fields[0] == level && fields[1..] == tags;
      assert ("$ " + content)[2..] == content;
    }
  }

  /**
    The level, every tag and the body occur in the emitted line, whatever
    the tags hold: the observations the package's own tests make.
   */
  lemma OutputContainsFields<C>(l: Logger<C>, ctx: C, level: string, content: string)
    ensures Contains(Output(l, ctx, level, content), level)
    ensures forall i :: 0 <= i < |l.optional| ==> Contains(Output(l, ctx, level, content), l.optional[i](ctx))
    ensures Contains(Output(l, ctx, level, content), content)
  {
    var prefix := Prefix(l, ctx, level);
    var line := Output(l, ctx, level, content);
    FieldAt(prefix, content, 0);
    forall i | 0 <= i < |l.optional|
      ensures Contains(line, l.optional[i](ctx))
    {
      FieldAt(prefix, content, i + 1);
    }
    assert line == line[..|line| - |content|] + content + "";
    ContainsParts(line[..|line| - |content|], content, "");
  }

  /**
    The level is the only thing that differs between severities: past the
    bracket and the level token, the lines agree.
   */
  lemma LevelOnlyDiffers<C>(l: Logger<C>, ctx: C, a: string, b: string, content: string)
    ensures StartsWith(Output(l, ctx, a, content), "|" + a)
    ensures Output(l, ctx, a, content)[1 + |a|..] == Output(l, ctx, b, content)[1 + |b|..]
  {
    var tags := Tags(l.optional, ctx);
    LineHead([a] + tags, content);
    LineHead([b] + tags, content);
    assert ([a] + tags)[1..] == tags;
    assert ([b] + tags)[1..] == tags;
    var rest := Prefixed(tags, "|") + Separator + content;
    assert Output(l, ctx, a, content) == ("|" + a) + rest;
    assert Output(l, ctx, b, content) == ("|" + b) + rest;
  }

  /** For one logger, context and body, the four severities write four different lines. */
  lemma SeverityLinesDistinct<C>(l: Logger<C>, ctx: C, content: string)
    ensures Debug(l, ctx, content) != Info(l, ctx, content)
    ensures Debug(l, ctx, content) != Warn(l, ctx, content)
    ensures Debug(l, ctx, content) != Error(l, ctx, content)
    ensures Info(l, ctx, content) != Warn(l, ctx, content)
    ensures Info(l, ctx, content) != Error(l, ctx, content)
    ensures Warn(l, ctx, content) != Error(l, ctx, content)
  {
    var d, i, w, e := Debug(l, ctx, content), Info(l, ctx, content), Warn(l, ctx, content), Error(l, ctx, content);
    StartsWithAt(d, "|DEBUG|", 1);
    StartsWithAt(i, "|INFO|", 1);
    StartsWithAt(w, "|WARN|", 1);
    StartsWithAt(e, "|ERROR|", 1);
  }

  /**
    Without the delimiter-free condition the format is ambiguous: two
    different tag lists can produce the same line.
   */
  lemma AmbiguousWithDelimiterInTag()
    ensures Line(["INFO", "a|b"], "m") == Line(["INFO", "a", "b"], "m")
  {
  }

  // ---------------------------------------------------------------------
  // Lemmas about construction
  // ---------------------------------------------------------------------

  /** Compacting is order preserving: it distributes over concatenation. */
  lemma {:induction false} CompactAppend<T>(a: seq<Option<T>>, b: seq<Option<T>>)
    ensures Compact(a + b) == Compact(a) + Compact(b)
    decreases |b|
  {
    if |b| == 0 {
      assert a + b == a;
    } else {
      var b' := b[..|b| - 1];
      assert (a + b)[..|a + b| - 1] == a + b';
      assert (a + b)[|a + b| - 1] == b[|b| - 1];
      CompactAppend(a, b');
    }
  }

  /** A list without absent entries is kept as is, element by element. */
  lemma {:induction false} CompactAllPresent<T>(opts: seq<Option<T>>)
    requires forall i :: 0 <= i < |opts| ==> opts[i].Some?
    ensures |Compact(opts)| == |opts|
    ensures forall i :: 0 <= i < |opts| ==> Compact(opts)[i] == opts[i].value
  {
    if |opts| > 0 {
      CompactAllPresent(opts[..|opts| - 1]);
    }
  }

  /** A non-empty explicit list decides the extractors; the global list is ignored. */
  lemma ExplicitOptionsWin<C>(globalOpts: seq<Option<Extractor<C>>>, opts: seq<Option<Extractor<C>>>)
    requires |opts| > 0
    ensures NewClog(globalOpts, opts) == NewClog([], opts)
    ensures NewClog(globalOpts, opts).optional == Compact(opts)
  {
  }

  /** With no explicit options the global list, minus absent entries, is used. */
  lemma NoOptionsUseGlobals<C>(globalOpts: seq<Option<Extractor<C>>>)
    ensures NewClog(globalOpts, []).optional == Compact(globalOpts)
    ensures globalOpts == [] ==> NewClog(globalOpts, []).optional == []
  {
  }

  /**
    An explicit list made only of absent entries yields no extractors; it
    does not fall back to the global list, because the fallback is decided
    before filtering.
   */
  lemma AllAbsentDoesNotFallBack<C>(globalOpts: seq<Option<Extractor<C>>>, opts: seq<Option<Extractor<C>>>)
    requires |opts| > 0
    requires forall i :: 0 <= i < |opts| ==> opts[i].None?
    ensures NewClog(globalOpts, opts).optional == []
  {
  }

  /** One explicit extractor gives a logger with exactly that extractor. */
  lemma SingleOption<C>(globalOpts: seq<Option<Extractor<C>>>, f: Extractor<C>)
    ensures NewClog(globalOpts, [Some(f)]).optional == [f]
  {
    assert [Some(f)][..0] == [];
  }
}
