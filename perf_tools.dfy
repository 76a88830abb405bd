/** Helpers of the performance harness: the first line of a process's output, the
    outcome of a process, and the exit-code check after a Robocopy directory copy. */
module PerfTools {
  import opened Wrappers

  /** The line terminators `FirstLine` splits on, in the order they are tried. */
  const LineSeparators: seq<string> := ["\r\n", "\r", "\n"]

  predicate IsLineBreak(c: char) {
    c == '\r' || c == '\n'
  }

  /** The length of the first non-empty separator, in the order given, that occurs in
      `s` at position `i` (empty separators are ignored, as `String.Split` does). */
  function MatchAt(s: string, i: nat, separators: seq<string>): (r: Option<nat>)
    requires i <= |s|
    ensures r.Some? ==> 0 < r.value <= |s| - i
    ensures r.Some? ==> exists k :: 0 <= k < |separators| && |separators[k]| == r.value && separators[k] <= s[i..]
  {
    if separators == [] then None
    else if 0 < |separators[0]| && separators[0] <= s[i..] then Some(|separators[0]|)
    else
      var r := MatchAt(s, i, separators[1..]);
      assert forall k :: 1 <= k < |separators| ==> separators[1..][k - 1] == separators[k];
      r
  }

  /** `s.Split(separators, StringSplitOptions.None)`, scanning from position `i` with the
      current piece starting at `start`: at each position the separators are tried in
      order, a match ends the piece and the scan resumes after it; empty pieces are kept. */
  function SplitFrom(s: string, separators: seq<string>, start: nat, i: nat): (parts: seq<string>)
    requires start <= i <= |s|
    ensures |parts| >= 1
    decreases |s| - i
  {
    if i == |s| then [s[start..]]
    else
      match MatchAt(s, i, separators)
      case Some(n) => [s[start..i]] + SplitFrom(s, separators, i + n, i + n)
      case None => SplitFrom(s, separators, start, i + 1)
  }

  function SplitStrings(s: string, separators: seq<string>): (parts: seq<string>)
    ensures |parts| >= 1
  {
    SplitFrom(s, separators, 0, 0)
  }

  /** At a position, one of the line terminators matches exactly when the character
      there is a carriage return or a line feed; `"\r\n"` is preferred to `"\r"`. */
  lemma MatchAtLineSeparators(s: string, i: nat)
    requires i < |s|
    ensures MatchAt(s, i, LineSeparators).Some? <==> IsLineBreak(s[i])
    ensures s[i] == '\r' && i + 1 < |s| && s[i + 1] == '\n' ==> MatchAt(s, i, LineSeparators) == Some(2)
  {
    var rest := s[i..];
    assert rest[0] == s[i];
    if i + 1 < |s| {
      assert rest[1] == s[i + 1];
    }
    assert "\r\n" <= rest <==> |rest| >= 2 && rest[0] == '\r' && rest[1] == '\n';
    assert "\r" <= rest <==> rest[0] == '\r';
    assert "\n" <= rest <==> rest[0] == '\n';
    assert LineSeparators[1..] == ["\r", "\n"] && ["\r", "\n"][1..] == ["\n"] && ["\n"][1..] == [];
    assert MatchAt(s, i, ["\n"]) == if "\n" <= rest then Some(1) else None;
    assert MatchAt(s, i, ["\r", "\n"]) == if "\r" <= rest then Some(1) else MatchAt(s, i, ["\n"]);
  }

  /** The position of the first carriage return or line feed at or after `i`, or the end
      of `s`. */
  function LineEnd(s: string, i: nat): (j: nat)
    requires i <= |s|
    ensures i <= j <= |s|
    ensures forall k :: i <= k < j ==> !IsLineBreak(s[k])
    ensures j < |s| ==> IsLineBreak(s[j])
    decreases |s| - i
  {
    if i == |s| || IsLineBreak(s[i]) then i else LineEnd(s, i + 1)
  }

  /** The first piece of the line split ends at the first line terminator. */
  lemma {:induction false} SplitFromFirstPiece(s: string, start: nat, i: nat)
    requires start <= i <= |s|
    ensures SplitFrom(s, LineSeparators, start, i)[0] == s[start..LineEnd(s, i)]
    decreases |s| - i
  {
    if i < |s| {
      MatchAtLineSeparators(s, i);
      if !IsLineBreak(s[i]) {
        SplitFromFirstPiece(s, start, i + 1);
      }
    }
  }

  /** `FirstLine`: the first piece of the output split at its line terminators. It is the
      part of the input before the first carriage return or line feed, or the whole input
      when there is none. */
  function FirstLine(input: string): (r: string)
    ensures r <= input
    ensures forall k :: 0 <= k < |r| ==> !IsLineBreak(r[k])
    ensures |r| < |input| ==> IsLineBreak(input[|r|])
    ensures (forall k :: 0 <= k < |input| ==> !IsLineBreak(input[k])) ==> r == input
    ensures input == "" ==> r == ""
  {
    SplitFromFirstPiece(input, 0, 0);
    SplitStrings(input, LineSeparators)[0]
  }

  /** A carriage return followed by a line feed is one terminator, not two: the text
      between them is not an empty line. */
  lemma CrLfIsOneTerminator(a: string, b: string)
    requires forall k :: 0 <= k < |a| ==> !IsLineBreak(a[k])
    requires forall k :: 0 <= k < |b| ==> !IsLineBreak(b[k])
    ensures SplitStrings(a + "\r\n" + b, LineSeparators) == [a, b]
  {
    var s := a + "\r\n" + b;
    var n := |a|;
    assert s[n] == '\r' && s[n + 1] == '\n';
    MatchAtLineSeparators(s, n);
    assert s[..n] == a;
    assert s[n + 2..] == b;
    forall j | n + 2 <= j < |s|
      ensures MatchAt(s, j, LineSeparators).None?
    {
      assert s[j] == b[j - n - 2];
      MatchAtLineSeparators(s, j);
    }
    NoTerminatorFrom(s, n + 2, n + 2);
    forall j | 0 <= j < n
      ensures MatchAt(s, j, LineSeparators).None?
    {
      assert s[j] == a[j];
      MatchAtLineSeparators(s, j);
    }
    ScanTo(s, 0, 0, n);
  }

  /** With no separator matching from `i` on, the rest of the string is one piece. */
  lemma {:induction false} NoTerminatorFrom(s: string, start: nat, i: nat)
    requires start <= i <= |s|
    requires forall j :: i <= j < |s| ==> MatchAt(s, j, LineSeparators).None?
    ensures SplitFrom(s, LineSeparators, start, i) == [s[start..]]
    decreases |s| - i
  {
    if i < |s| {
      NoTerminatorFrom(s, start, i + 1);
    }
  }

  /** The scan passes over positions where no separator matches. */
  lemma {:induction false} ScanTo(s: string, start: nat, i: nat, j: nat)
    requires start <= i <= j <= |s|
    requires forall k :: i <= k < j ==> MatchAt(s, k, LineSeparators).None?
    ensures SplitFrom(s, LineSeparators, start, i) == SplitFrom(s, LineSeparators, start, j)
    decreases j - i
  {
    if i < j {
      ScanTo(s, start, i + 1, j);
    }
  }

  /** The outcome of a finished process. */
  datatype ProcessResult = ProcessResult(executablePath: string, args: string, code: int, stdOut: string, stdErr: string)
  {
    predicate Failed() {
      code != 0
    }

    /** A process succeeded exactly when it exited with code 0. */
    predicate Succeeded(): (r: bool)
      ensures r <==> code == 0
    {
      !Failed()
    }
  }

  datatype IOException = IOException(message: string)

  /** The Robocopy switches `CopyDirectory` passes when its caller gives none: mirror the
      source tree. */
  const DefaultCopyArgument: string := "/mir"

  /** `CopyDirectory`: copies `source` to `destination` with Robocopy and the switches
      `argument` (`DefaultCopyArgument` when the caller gives none), run by `shellOut`
      (executable, arguments); exit codes 0 to 7 are success, anything above is an
      `IOException` naming both directories. */
  function CopyDirectory(source: string, destination: string, argument: string,
                         shellOut: (string, string) -> ProcessResult): (r: Result<(), IOException>)
    ensures r.Failure? <==> shellOut("Robocopy", argument + " " + source + " " + destination).code > 7
    ensures r.Failure? ==> r.error.message == "Failed to copy \"" + source + "\" to \"" + destination + "\"."
  {
    var result := shellOut("Robocopy", argument + " " + source + " " + destination);
    if result.code > 7 then Failure(IOException("Failed to copy \"" + source + "\" to \"" + destination + "\"."))
    else Success(())
  }

  /** Robocopy's success codes are not process success: codes 1 to 7 (files copied,
      extra files, mismatches) count as a failed process yet as a successful copy. */
  lemma CopySucceedsWhereProcessFails(source: string, destination: string, argument: string,
                                      shellOut: (string, string) -> ProcessResult)
    requires 1 <= shellOut("Robocopy", argument + " " + source + " " + destination).code <= 7
    ensures CopyDirectory(source, destination, argument, shellOut).Success?
    ensures shellOut("Robocopy", argument + " " + source + " " + destination).Failed()
  {
  }
}
