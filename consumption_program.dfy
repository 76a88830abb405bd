/** The string normalisers the consumption-results converter applies to branch names,
    user names, scenario names and run dates. */
module ConsumptionProgram {
  import opened Wrappers

  /** `target` without `prefix` when it starts with it, `target` itself otherwise. */
  function WithoutPrefix(target: string, prefix: string): (r: string)
    ensures prefix <= target ==> prefix + r == target
    ensures !(prefix <= target) ==> r == target
  {
    if prefix <= target then
      assert target == target[..|prefix|] + target[|prefix|..];
      target[|prefix|..]
    else target
  }

  /** `RemovePrefix`: strips `prefix` once from the front of `target`; what is left is
      always a suffix of `target`. */
  method RemovePrefix(target: string, prefix: string) returns (r: string)
    ensures r == WithoutPrefix(target, prefix)
    ensures |r| <= |target| && r == target[|target| - |r|..]
  {
    r := target;
    if prefix <= r {
      r := r[|prefix|..];
    }
  }

  /** Only one copy of the prefix is stripped. */
  lemma WithoutPrefixOnce(prefix: string, rest: string)
    ensures WithoutPrefix(prefix + prefix + rest, prefix) == prefix + rest
  {
    var s := prefix + prefix + rest;
    assert prefix <= s by {
      assert s[..|prefix|] == prefix;
    }
    assert s[|prefix|..] == prefix + rest;
  }

  const RoslynPrefix: string := "Roslyn-"

  /** `NormalizeBranch`: strips one leading `Roslyn-` and then names `HEAD` `master`. */
  function NormalizeBranch(s: string): (r: string)
    ensures r != "HEAD"
    ensures r == "master" <==> WithoutPrefix(s, RoslynPrefix) == "HEAD" || WithoutPrefix(s, RoslynPrefix) == "master"
    ensures WithoutPrefix(s, RoslynPrefix) != "HEAD" ==> r == WithoutPrefix(s, RoslynPrefix)
  {
    var stripped := WithoutPrefix(s, RoslynPrefix);
    if stripped == "HEAD" then "master" else stripped
  }

  /** The build of the `HEAD` branch reports under `master`. */
  lemma RoslynHeadIsMaster()
    ensures NormalizeBranch("Roslyn-HEAD") == "master"
    ensures NormalizeBranch("HEAD") == "master"
  {
    assert RoslynPrefix <= "Roslyn-HEAD";
    assert "Roslyn-HEAD"[|RoslynPrefix|..] == "HEAD";
  }

  const DomainPrefix: string := "redmond\\"

  /** `NormalizeUsername`: strips one leading `redmond\` domain. */
  function NormalizeUsername(s: string): (r: string)
    ensures DomainPrefix <= s ==> DomainPrefix + r == s
    ensures !(DomainPrefix <= s) ==> r == s
  {
    WithoutPrefix(s, DomainPrefix)
  }

  /** `char.IsNumber` on the Latin-1 range: the decimal digits and the characters of
      category No (superscripts two, three and one, and the vulgar fractions). */
  predicate IsNumber(c: char) {
    ('0' <= c <= '9') ||
    c == '\U{00B2}' || c == '\U{00B3}' || c == '\U{00B9}' ||
    c == '\U{00BC}' || c == '\U{00BD}' || c == '\U{00BE}'
  }

  /** `s` without its trailing numeric characters: a prefix of `s` that does not end in a
      numeric character, followed in `s` only by numeric characters. */
  function TrailingNumbersStripped(s: string): (r: string)
    ensures r <= s
    ensures |r| == 0 || !IsNumber(r[|r| - 1])
    ensures forall k :: |r| <= k < |s| ==> IsNumber(s[k])
  {
    if |s| == 0 || !IsNumber(s[|s| - 1]) then s
    else TrailingNumbersStripped(s[..|s| - 1])
  }

  /** The three properties of `TrailingNumbersStripped` determine its result. */
  lemma {:induction false} TrailingNumbersStrippedUnique(s: string, r: string)
    requires r <= s
    requires |r| == 0 || !IsNumber(r[|r| - 1])
    requires forall k :: |r| <= k < |s| ==> IsNumber(s[k])
    ensures r == TrailingNumbersStripped(s)
    decreases |s|
  {
    if |r| < |s| {
      var t := s[..|s| - 1];
      assert r <= t by {
        assert r == s[..|r|] == t[..|r|];
      }
      TrailingNumbersStrippedUnique(t, r);
    } else {
      assert r == s;
    }
  }

  /** Normalising a normalised scenario name changes nothing. */
  lemma TrailingNumbersStrippedIdempotent(s: string)
    ensures TrailingNumbersStripped(TrailingNumbersStripped(s)) == TrailingNumbersStripped(s)
  {
    TrailingNumbersStrippedUnique(TrailingNumbersStripped(s), TrailingNumbersStripped(s));
  }

  /** `NormalizeScenario`: drops the last character while it is numeric. */
  method NormalizeScenario(input: string) returns (s: string)
    ensures s <= input
    ensures |s| == 0 || !IsNumber(s[|s| - 1])
    ensures forall k :: |s| <= k < |input| ==> IsNumber(input[k])
    ensures s == TrailingNumbersStripped(input)
  {
    s := input;
    while |s| != 0 && IsNumber(s[|s| - 1])
      invariant s <= input
      invariant forall k :: |s| <= k < |input| ==> IsNumber(input[k])
      decreases |s|
    {
      s := s[..|s| - 1];
    }
    TrailingNumbersStrippedUnique(input, s);
  }

  /** The index of the first `sep` in `s`. */
  function IndexOf(s: string, sep: char): (i: nat)
    requires sep in s
    ensures i < |s| && s[i] == sep && sep !in s[..i]
  {
    if s[0] == sep then 0
    else
      var j := IndexOf(s[1..], sep);
      assert s[..j + 1] == [s[0]] + s[1..][..j];
      j + 1
  }

  lemma IndexOfAfter(a: string, sep: char, b: string)
    requires sep !in a
    ensures sep in a + [sep] + b && IndexOf(a + [sep] + b, sep) == |a|
  {
    var s := a + [sep] + b;
    assert s[|a|] == sep;
    assert s[..|a|] == a;
  }

  /** `s.Split(sep)`: the pieces between the separators, empty pieces included. */
  function Split(s: string, sep: char): (parts: seq<string>)
    ensures |parts| >= 1
    ensures forall k :: 0 <= k < |parts| ==> sep !in parts[k]
    decreases |s|
  {
    if sep !in s then [s]
    else
      var i := IndexOf(s, sep);
      [s[..i]] + Split(s[i + 1..], sep)
  }

  /** The pieces put back together with the separator between them. */
  function Join(parts: seq<string>, sep: char): string
    requires |parts| >= 1
  {
    if |parts| == 1 then parts[0] else parts[0] + [sep] + Join(parts[1..], sep)
  }

  /** Splitting loses nothing: joining the pieces gives the string back. */
  lemma {:induction false} JoinSplit(s: string, sep: char)
    ensures Join(Split(s, sep), sep) == s
    decreases |s|
  {
    if sep in s {
      var i := IndexOf(s, sep);
      var rest := s[i + 1..];
      JoinSplit(rest, sep);
      var parts := Split(s, sep);
      assert parts == [s[..i]] + Split(rest, sep);
      assert parts[0] == s[..i] && parts[1..] == Split(rest, sep) && |parts| > 1;
      assert Join(parts, sep) == s[..i] + [sep] + Join(Split(rest, sep), sep);
      assert s == s[..i] + [sep] + rest;
    } else {
      assert Split(s, sep) == [s];
    }
  }

  /** A piece without the separator, then the separator, is split off first. */
  lemma SplitCons(a: string, rest: string, sep: char)
    requires sep !in a
    ensures Split(a + [sep] + rest, sep) == [a] + Split(rest, sep)
  {
    IndexOfAfter(a, sep, rest);
    var s := a + [sep] + rest;
    assert s[..|a|] == a;
    assert s[|a| + 1..] == rest;
  }

  /** Pieces without the separator are split apart again exactly. */
  lemma {:induction false} SplitJoin(parts: seq<string>, sep: char)
    requires |parts| >= 1
    requires forall k :: 0 <= k < |parts| ==> sep !in parts[k]
    ensures Split(Join(parts, sep), sep) == parts
  {
    if |parts| > 1 {
      var rest := Join(parts[1..], sep);
      assert Join(parts, sep) == parts[0] + [sep] + rest;
      SplitCons(parts[0], rest, sep);
      SplitJoin(parts[1..], sep);
      assert [parts[0]] + parts[1..] == parts;
    } else {
      assert Join(parts, sep) == parts[0];
    }
  }

  /** There is one piece more than there are separators. */
  lemma {:induction false} SplitCount(s: string, sep: char)
    ensures |Split(s, sep)| == multiset(s)[sep] + 1
    decreases |s|
  {
    if sep in s {
      var i := IndexOf(s, sep);
      SplitCount(s[i + 1..], sep);
      assert s == s[..i] + [sep] + s[i + 1..];
      assert multiset(s[..i])[sep] == 0;
    } else {
      assert multiset(s)[sep] == 0;
    }
  }

  /** A piece without the separator, followed by nothing or by a separator, is the first
      piece. */
  lemma SplitFirst(a: string, tail: string, sep: char)
    requires sep !in a
    requires tail == [] || tail[0] == sep
    ensures Split(a + tail, sep)[0] == a
  {
    if tail == [] {
      assert a + tail == a;
    } else {
      assert a + tail == a + [sep] + tail[1..];
      SplitCons(a, tail[1..], sep);
    }
  }

  /** `NormalizeDate`: `D_H-M-S[-rest]` becomes `D H:M:S`. The date is the piece before
      the first `_`, the time the piece after it; the time's first three `-`-separated
      fields are hour, minute and second. A missing piece is an index out of range in
      the source, `None` here. */
  function NormalizeDate(s: string): (r: Option<string>)
    ensures '_' !in s ==> r.None?
  {
    var dateTimeSplit := Split(s, '_');
    if |dateTimeSplit| < 2 then None
    else
      var date := dateTimeSplit[0];
      var time := dateTimeSplit[1];
      var hourMinuteSecondSplit := Split(time, '-');
      if |hourMinuteSecondSplit| < 3 then None
      else
        var hour := hourMinuteSecondSplit[0];
        var min := hourMinuteSecondSplit[1];
        var sec := hourMinuteSecondSplit[2];
        Some(date + " " + hour + ":" + min + ":" + sec)
  }

  /** A string with exactly one separator splits into the pieces around it. */
  lemma SplitOnce(a: string, b: string, sep: char)
    requires sep !in a && sep !in b
    ensures Split(a + [sep] + b, sep) == [a, b]
  {
    SplitCons(a, b, sep);
  }

  /** The first three `-` fields of `H-M-S[-rest]` are hour, minute and second. */
  lemma TimeFields(hour: string, min: string, sec: string, tail: string)
    requires '-' !in hour && '-' !in min && '-' !in sec
    requires tail == [] || tail[0] == '-'
    ensures var fields := Split(hour + "-" + min + "-" + sec + tail, '-');
            |fields| >= 3 && fields[0] == hour && fields[1] == min && fields[2] == sec
  {
    var rest := sec + tail;
    var time := hour + "-" + min + "-" + sec + tail;
    assert time == hour + ['-'] + (min + ['-'] + rest);
    SplitCons(hour, min + ['-'] + rest, '-');
    SplitCons(min, rest, '-');
    SplitFirst(sec, tail, '-');
    assert Split(time, '-') == [hour] + ([min] + Split(rest, '-'));
  }

  /** A date written as `D_H-M-S`, optionally followed by more `-` fields (the AM/PM
      designator of the trace folder names), normalises to `D H:M:S`. */
  lemma NormalizeDateRoundTrip(date: string, hour: string, min: string, sec: string, tail: string)
    requires '_' !in date && '_' !in hour && '_' !in min && '_' !in sec && '_' !in tail
    requires '-' !in hour && '-' !in min && '-' !in sec
    requires tail == [] || tail[0] == '-'
    ensures NormalizeDate(date + "_" + hour + "-" + min + "-" + sec + tail) == Some(date + " " + hour + ":" + min + ":" + sec)
  {
    var time := hour + "-" + min + "-" + sec + tail;
    assert date + "_" + hour + "-" + min + "-" + sec + tail == date + "_" + time;
    assert '_' !in time;
    SplitOnce(date, time, '_');
    TimeFields(hour, min, sec, tail);
  }

  /** Without a time of three fields there is no date to report. */
  lemma NormalizeDateTooFewFields(date: string, time: string)
    requires '_' !in date && '_' !in time
    requires multiset(time)['-'] < 2
    ensures NormalizeDate(date + "_" + time).None?
  {
    SplitOnce(date, time, '_');
    SplitCount(time, '-');
  }
}
