/**
  String helpers used to assemble a log line: Go's `strings.Join`, and the
  pieces needed to read a joined line back (a first-occurrence cut and a
  reader for delimiter-terminated fields).
 */
module Text {
  import opened Options

  /** Every element preceded by `sep`: sep x0 sep x1 ... sep xn. */
  function Prefixed(xs: seq<string>, sep: string): string
  {
    if |xs| == 0 then "" else sep + xs[0] + Prefixed(xs[1..], sep)
  }

  /** Every element followed by `sep`: x0 sep x1 sep ... xn sep. */
  function Terminated(xs: seq<string>, sep: string): string
  {
    if |xs| == 0 then "" else xs[0] + sep + Terminated(xs[1..], sep)
  }

  /**
    `strings.Join`: the elements separated by `sep`; empty for no elements.
    With one more separator in front every element is preceded by one, and
    with one more behind every element is followed by one.
   */
  function Join(xs: seq<string>, sep: string): (r: string)
    ensures |xs| == 0 ==> r == ""
    ensures |xs| > 0 ==> sep + r == Prefixed(xs, sep)
    ensures |xs| > 0 ==> r + sep == Terminated(xs, sep)
  {
    if |xs| == 0 then ""
    else if |xs| == 1 then
      assert Prefixed(xs[1..], sep) == "" && Terminated(xs[1..], sep) == "";
      xs[0]
    else
      var rest := Join(xs[1..], sep);
      var r := xs[0] + sep + rest;
      assert sep + r == (sep + xs[0]) + (sep + rest);
      assert r + sep == (xs[0] + sep) + (rest + sep);
      r
  }

  /** Splits `s` at the first occurrence of `c`, or None when `c` does not occur. */
  function Cut(s: string, c: char): (r: Option<(string, string)>)
    ensures r.None? <==> c !in s
    ensures r.Some? ==> s == r.value.0 + [c] + r.value.1 && c !in r.value.0
  {
    if |s| == 0 then None
    else if s[0] == c then Some(([], s[1..]))
    else
      match Cut(s[1..], c)
      case None => None
      case Some((before, after)) =>
        assert s == [s[0]] + s[1..];
        Some(([s[0]] + before, after))
  }

  /** Reads `n` fields, each terminated by `c`; returns them with the unread tail. */
  function SplitFields(s: string, c: char, n: nat): (r: Option<(seq<string>, string)>)
    ensures r.Some? ==> |r.value.0| == n
    ensures r.Some? ==> s == Terminated(r.value.0, [c]) + r.value.1
    ensures r.Some? ==> forall i :: 0 <= i < n ==> c !in r.value.0[i]
    decreases n
  {
    if n == 0 then Some(([], s))
    else
      match Cut(s, c)
      case None => None
      case Some((field, rest)) =>
        match SplitFields(rest, c, n - 1)
        case None => None
        case Some((fields, tail)) =>
          assert ([field] + fields)[1..] == fields;
          Some(([field] + fields, tail))
  }

  /** Prefixing distributes over concatenation of the element lists. */
  lemma {:induction false} PrefixedAppend(a: seq<string>, b: seq<string>, sep: string)
    ensures Prefixed(a + b, sep) == Prefixed(a, sep) + Prefixed(b, sep)
  {
    if |a| == 0 {
      assert a + b == b;
    } else {
      assert (a + b)[1..] == a[1..] + b;
      PrefixedAppend(a[1..], b, sep);
    }
  }

  /** Element `i` sits, after its separator, between the prefixed elements before and after it. */
  lemma PrefixedAt(xs: seq<string>, sep: string, i: nat)
    requires i < |xs|
    ensures Prefixed(xs, sep) == Prefixed(xs[..i], sep) + sep + xs[i] + Prefixed(xs[i + 1..], sep)
  {
    assert xs == xs[..i] + ([xs[i]] + xs[i + 1..]);
    PrefixedAppend(xs[..i], [xs[i]] + xs[i + 1..], sep);
    assert ([xs[i]] + xs[i + 1..])[1..] == xs[i + 1..];
  }

  /** Cutting a string at `c` finds the first `c`: the part before it cannot hold one. */
  lemma {:induction false} CutFirst(a: string, c: char, b: string)
    requires c !in a
    ensures Cut(a + [c] + b, c) == Some((a, b))
  {
    var s := a + [c] + b;
    if |a| == 0 {
      assert s == [c] + b;
      assert s[1..] == b;
    } else {
      assert s[0] == a[0];
      assert s[1..] == a[1..] + [c] + b;
      CutFirst(a[1..], c, b);
      assert [a[0]] + a[1..] == a;
    }
  }

  /** Regrouping a concatenation; stated over plain variables so that no definition is unfolded. */
  lemma Regroup(p: string, a: string, b: string, c: string, d: string)
    requires p == a + b
    ensures p + c + d == a + (b + c + d)
  {
  }

  /** `p` is a prefix of `s`. */
  predicate StartsWith(s: string, p: string)
  {
    |p| <= |s| && s[..|p|] == p
  }

  /** A string with a given prefix agrees with it at every position of the prefix. */
  lemma StartsWithAt(s: string, p: string, k: nat)
    requires StartsWith(s, p) && k < |p|
    ensures s[k] == p[k]
  {
    assert s[..|p|][k] == s[k];
  }

  /** `q` is a suffix of `s`. */
  predicate EndsWith(s: string, q: string)
  {
    |q| <= |s| && s[|s| - |q|..] == q
  }

  /** `t` occurs in `s` at position `k`. */
  predicate OccursAt(s: string, t: string, k: nat)
  {
    k + |t| <= |s| && s[k..k + |t|] == t
  }

  /** `t` occurs somewhere in `s`. */
  predicate Contains(s: string, t: string)
  {
    exists k: nat :: k <= |s| && OccursAt(s, t, k)
  }

  /** Every part of a concatenation occurs in it, the middle one after the first. */
  lemma ContainsParts(a: string, t: string, b: string)
    ensures OccursAt(a + t + b, t, |a|)
    ensures Contains(a + t + b, t)
  {
    assert (a + t + b)[|a|..|a| + |t|] == t;
    assert OccursAt(a + t + b, t, |a|);
  }

  /** Reading back delimiter-terminated fields that hold no delimiter returns exactly those fields. */
  lemma {:induction false} SplitTerminated(xs: seq<string>, c: char, tail: string)
    requires forall i :: 0 <= i < |xs| ==> c !in xs[i]
    ensures SplitFields(Terminated(xs, [c]) + tail, c, |xs|) == Some((xs, tail))
  {
    if |xs| == 0 {
      assert Terminated(xs, [c]) + tail == tail;
    } else {
      var rest := Terminated(xs[1..], [c]) + tail;
      assert Terminated(xs, [c]) + tail == xs[0] + [c] + rest;
      CutFirst(xs[0], c, rest);
      SplitTerminated(xs[1..], c, tail);
      assert [xs[0]] + xs[1..] == xs;
    }
  }
}
