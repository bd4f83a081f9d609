/**
 * The result handling of the `!eval` and `!timeit` commands: how the answer of the evaluation
 * service is classified and decorated, how its output is made safe to post, numbered and cut
 * down, and the guard that lets each author run one job at a time.
 */
module Snekbox {
  import opened Wrappers
  import opened PyStr

  /**
   * The JSON answer of the evaluation service: the captured standard output and the exit
   * status, `null` when the process could not be run at all.
   */
  datatype EvalResults = EvalResults(stdout: string, returncode: Option<int>)

  /** The names of the host's signals by number, as `signal.Signals` has them. */
  type SignalTable = map<int, string>

  /** Signal numbers are positive: `Signals(n)` fails for every other `n`. */
  predicate ValidSignals(signals: SignalTable)
  {
    forall n :: n in signals ==> n > 0
  }

  const SigKill: int := 9
  const MaxPasteLen: nat := 1000

  const FailedMessage: string := "Your eval job has failed"
  const TimeoutMessage: string := "Your eval job timed out or ran out of memory"
  const CompletedPrefix: string := "Your eval job has completed with return code "
  const NsJailError: string := "A fatal NsJail error occurred"

  // ----------------------------------------------------------------------------
  // Return code and status
  // ----------------------------------------------------------------------------

  /** The job ran and ended with a code that is neither the kill code nor NsJail's own. */
  predicate Completed(results: EvalResults)
  {
    results.returncode.Some? && results.returncode.value != 128 + SigKill && results.returncode.value != 255
  }

  /** The decimal digits `s` starts with. */
  function LeadingDigits(s: string): (r: string)
    ensures IsDigits(r) && r <= s
    ensures r == s || !('0' <= s[|r|] <= '9')
  {
    if s != [] && '0' <= s[0] <= '9' then [s[0]] + LeadingDigits(s[1..]) else []
  }

  /** The integer written at the start of `s`, with an optional minus sign. */
  function ReadInt(s: string): int
  {
    if s != [] && s[0] == '-' then 0 - DecimalValue(LeadingDigits(s[1..])) else DecimalValue(LeadingDigits(s))
  }

  lemma {:induction false} LeadingDigitsOf(d: string, t: string)
    requires IsDigits(d)
    requires t == [] || !('0' <= t[0] <= '9')
    ensures LeadingDigits(d + t) == d
  {
    if d != [] {
      assert (d + t)[1..] == d[1..] + t;
      LeadingDigitsOf(d[1..], t);
    } else {
      assert d + t == t;
    }
  }

  /** A decimal rendering followed by text that does not continue the number reads back as the number. */
  lemma ReadIntBack(i: int, t: string)
    requires t == [] || !('0' <= t[0] <= '9')
    ensures ReadInt(IntToString(i) + t) == i
  {
    if i < 0 {
      ReadNegativeBack(-i, t);
    } else {
      ReadNatBack(i, t);
    }
  }

  lemma ReadNatBack(n: nat, t: string)
    requires t == [] || !('0' <= t[0] <= '9')
    ensures ReadInt(NatToString(n) + t) == n
  {
    var d := NatToString(n);
    LeadingDigitsOf(d, t);
    NatToStringValue(n);
    assert (d + t)[0] == d[0] != '-';
  }

  lemma ReadNegativeBack(n: nat, t: string)
    requires t == [] || !('0' <= t[0] <= '9')
    ensures ReadInt("-" + NatToString(n) + t) == -(n as int)
  {
    var d := NatToString(n);
    var u := "-" + d + t;
    assert u[0] == '-' && u[1..] == d + t;
    LeadingDigitsOf(d, t);
    NatToStringValue(n);
  }

  /**
   * `get_results_message`: the sentence that tells how the job ended, and the error to show
   * instead of the output. An error is only ever reported for a failed job; a job that could
   * not run reports its stripped output as the error; a completed job's sentence carries its
   * return code, readable back from the text, and the signal's name when the code is 128 plus
   * a signal number.
   */
  function GetResultsMessage(results: EvalResults, signals: SignalTable): (r: (string, string))
    ensures r.1 != "" ==> r.0 == FailedMessage
    ensures r.0 == FailedMessage <==> results.returncode.None? || results.returncode == Some(255)
    ensures r.0 == TimeoutMessage <==> results.returncode == Some(128 + SigKill)
    ensures results.returncode.None? ==> r.1 == Strip(results.stdout, Whitespace)
    ensures results.returncode == Some(255) ==> r.1 == NsJailError
    ensures Completed(results) ==>
      && r.1 == ""
      && CompletedPrefix <= r.0
      && ReadInt(r.0[|CompletedPrefix|..]) == results.returncode.value
    ensures Completed(results) && results.returncode.value - 128 in signals ==>
      var name := signals[results.returncode.value - 128];
      |r.0| >= |name| + 3 && r.0[|r.0| - |name| - 3..] == " (" + name + ")"
    ensures Completed(results) && results.returncode.value - 128 !in signals ==>
      r.0 == CompletedPrefix + IntToString(results.returncode.value)
  {
    assert FailedMessage[14] == 'h' && TimeoutMessage[14] == 't';
    match results.returncode
    case None => (FailedMessage, Strip(results.stdout, Whitespace))
    case Some(code) =>
      if code == 128 + SigKill then (TimeoutMessage, "")
      else if code == 255 then (FailedMessage, NsJailError)
      else (CompletedMessage(code, signals), "")
  }

  /** The sentence of a completed job: the code, and the signal's name when there is one. */
  function CompletedMessage(code: int, signals: SignalTable): (r: string)
    ensures r != FailedMessage && r != TimeoutMessage
    ensures CompletedPrefix <= r && ReadInt(r[|CompletedPrefix|..]) == code
    ensures code - 128 in signals ==>
      var name := signals[code - 128];
      |r| >= |name| + 3 && r[|r| - |name| - 3..] == " (" + name + ")"
    ensures code - 128 !in signals ==> r == CompletedPrefix + IntToString(code)
  {
    var suffix := if code - 128 in signals then " (" + signals[code - 128] + ")" else "";
    var msg := CompletedPrefix + IntToString(code) + suffix;
    Pieces(CompletedPrefix, IntToString(code), suffix);
    ReadIntBack(code, suffix);
    PrefixedDiffers(msg);
    msg
  }

  /** The three pieces of a concatenation can be read back off it. */
  lemma Pieces(a: string, b: string, c: string)
    ensures a <= a + b + c
    ensures (a + b + c)[|a|..] == b + c
    ensures |a + b + c| >= |c| && (a + b + c)[|a + b + c| - |c|..] == c
  {
    var m := a + b + c;
    assert m[..|a|] == a;
    assert m[|a|..] == b + c;
    assert m[|m| - |c|..] == c;
  }

  lemma PrefixedDiffers(m: string)
    requires CompletedPrefix <= m
    ensures m != FailedMessage && m != TimeoutMessage
  {
    assert m[14] == CompletedPrefix[14] == 'h';
    assert m[18] == CompletedPrefix[18] == 'c';
  }

  /** Nothing but whitespace: `not s.strip()`. */
  predicate Blank(s: string)
  {
    forall i :: 0 <= i < |s| ==> s[i] in Whitespace
  }

  /**
   * `get_status_emoji`: a warning whenever there is no output, whatever the code; otherwise a
   * check mark for a zero return code and a cross for any other.
   */
  function GetStatusEmoji(results: EvalResults): (r: string)
    ensures r == ":warning:" <==> Blank(results.stdout)
    ensures r == ":white_check_mark:" <==> !Blank(results.stdout) && results.returncode == Some(0)
    ensures r == ":x:" <==> !Blank(results.stdout) && results.returncode != Some(0)
  {
    if Strip(results.stdout, Whitespace) == [] then ":warning:"
    else if results.returncode == Some(0) then ":white_check_mark:"
    else ":x:"
  }

  /**
   * The emoji and the sentence agree: a check mark goes with the sentence for return code 0,
   * and a job that could not run shows an error exactly when it shows no warning.
   */
  lemma StatusAgreesWithMessage(results: EvalResults, signals: SignalTable)
    requires ValidSignals(signals)
    ensures GetStatusEmoji(results) == ":white_check_mark:" ==>
      GetResultsMessage(results, signals) == (CompletedPrefix + "0", "")
    ensures results.returncode.None? ==>
      (GetResultsMessage(results, signals).1 == "" <==> GetStatusEmoji(results) == ":warning:")
  {
    if results.returncode == Some(0) {
      assert -128 !in signals;
      assert IntToString(0) == "0";
    }
  }

  // ----------------------------------------------------------------------------
  // The timing line of `!timeit`
  // ----------------------------------------------------------------------------

  /**
   * `get_time`: the output without surrounding newlines, split on success before its last
   * newline into the program's output and the timing line (newline included); a failed run
   * gives the whole output and no timing. The two parts always put back together.
   */
  function GetTime(results: EvalResults): (r: (string, Option<string>))
    ensures results.returncode != Some(0) ==> r == (Strip(results.stdout, {'\n'}), None)
    ensures results.returncode == Some(0) ==> r.1.Some? && LastLineSplit(Strip(results.stdout, {'\n'}), r.0, r.1.value)
  {
    var output := Strip(results.stdout, {'\n'});
    if results.returncode == Some(0) then
      var (before, last) := SplitAtLastNewline(output);
      (before, Some(last))
    else
      (output, None)
  }

  /** `output.rfind("\n")` and the two slices at it; everything goes to the second part without a newline. */
  function SplitAtLastNewline(output: string): (r: (string, string))
    ensures LastLineSplit(output, r.0, r.1)
  {
    var timeIndex := RFind(output, '\n');
    if timeIndex != -1 then
      var before := output[..timeIndex];
      var last := output[timeIndex..];
      assert before + last == output;
      assert last[0] == '\n';
      assert forall j :: 0 <= j < |last| - 1 ==> last[1..][j] == output[timeIndex + 1 + j];
      (before, last)
    else
      ("", output)
  }

  /**
   * `before + last` puts `output` back together, and `last` is its last line with the newline
   * before it, or the whole of an output without a newline.
   */
  predicate LastLineSplit(output: string, before: string, last: string)
  {
    && before + last == output
    && (last == [] || '\n' !in last[1..])
    && ('\n' in output ==> last != [] && last[0] == '\n')
    && ('\n' !in output ==> before == "")
  }

  // ----------------------------------------------------------------------------
  // Formatting the output
  // ----------------------------------------------------------------------------

  const ZeroWidthSpace: char := '\U{200B}'

  /** The characters of which a run of three is taken for an attempt to close the code block. */
  const EscapeChars: set<char> := {'`', '\U{202E}', '\U{200B}'}

  const UserMention: string := "<@"
  const OtherMention: string := "<!@"
  const EscapeNotice: string := "Code block escape attempt detected; will not output result"
  const NoOutput: string := "[No output]"
  const TooLongNotice: string := "\n... (truncated - too long)"
  const TooManyLinesNotice: string := "\n... (truncated - too many lines)"
  const TooLongManyLinesNotice: string := "\n... (truncated - too long, too many lines)"
  const TooLongToUpload: string := "too long to upload"

  /** Every occurrence of `pat` in `s` is directly followed by a zero-width space. */
  predicate Defused(s: string, pat: string)
    decreases |s|
  {
    && (|s| >= |pat| && s[..|pat|] == pat ==> |s| > |pat| && s[|pat|] == ZeroWidthSpace)
    && (|s| > 0 ==> Defused(s[1..], pat))
  }

  /** `s` without its zero-width spaces: the text as it reads. */
  function Visible(s: string): (r: string)
    ensures |r| <= |s|
  {
    if s == [] then [] else (if s[0] == ZeroWidthSpace then [] else [s[0]]) + Visible(s[1..])
  }

  lemma {:induction false} VisibleAppend(a: string, b: string)
    ensures Visible(a + b) == Visible(a) + Visible(b)
  {
    if a != [] {
      assert (a + b)[1..] == a[1..] + b;
      VisibleAppend(a[1..], b);
    } else {
      assert a + b == b;
    }
  }

  /** A replacement leaves a string that does not start with the pattern's first character alone at its head. */
  lemma ReplaceSkip(t: string, pat: string, rep: string)
    requires |pat| > 0 && t != [] && t[0] != pat[0]
    ensures Replace(t, pat, rep) == [t[0]] + Replace(t[1..], pat, rep)
  {
    if |t| < |pat| {
      assert [t[0]] + t[1..] == t;
    } else {
      assert t[..|pat|][0] == t[0];
    }
  }

  /**
   * When the replacement starts like the pattern, a text free of the pattern's first character
   * at the head of the result was already at the head of the input.
   */
  lemma {:induction false} ReplaceHead(t: string, pat: string, rep: string, q: string)
    requires |pat| > 0 && rep != [] && rep[0] == pat[0] && pat[0] !in q
    ensures |Replace(t, pat, rep)| >= |q| && Replace(t, pat, rep)[..|q|] == q ==> |t| >= |q| && t[..|q|] == q
    decreases |t|
  {
    var r := Replace(t, pat, rep);
    if q != [] && |r| >= |q| && r[..|q|] == q {
      assert r[0] == q[0] && q[0] != pat[0];
      if |t| >= |pat| {
        assert t[..|pat|] != pat;
        var rest := Replace(t[1..], pat, rep);
        assert r == [t[0]] + rest;
        assert rest[..|q| - 1] == q[1..];
        ReplaceHead(t[1..], pat, rep, q[1..]);
        assert t[..|q|] == [t[0]] + t[1..][..|q| - 1];
      }
    }
  }

  /** No occurrence can start inside a text free of the pattern's first character. */
  lemma {:induction false} DefusedAfterFree(q: string, t: string, pat: string)
    requires |pat| > 0 && pat[0] !in q && Defused(t, pat)
    ensures Defused(q + t, pat)
  {
    if q != [] {
      assert (q + t)[1..] == q[1..] + t;
      DefusedAfterFree(q[1..], t, pat);
      assert (q + t)[0] == q[0];
    } else {
      assert q + t == t;
    }
  }

  lemma {:induction false} DefusedAbsent(s: string, pat: string)
    requires !Contains(s, pat)
    ensures Defused(s, pat)
    decreases |s|
  {
    if |s| > 0 {
      DefusedAbsent(s[1..], pat);
    }
  }

  /**
   * Putting a zero-width space after every occurrence of a pattern that starts with a
   * character it does not repeat leaves every occurrence followed by one.
   */
  lemma {:induction false} ReplaceDefuses(s: string, pat: string)
    requires |pat| > 0 && pat[0] !in pat[1..] && pat[0] != ZeroWidthSpace
    ensures Defused(Replace(s, pat, pat + [ZeroWidthSpace]), pat)
    decreases |s|
  {
    var rep := pat + [ZeroWidthSpace];
    var r := Replace(s, pat, rep);
    if |s| < |pat| {
      DefusedShort(s, pat);
    } else if s[..|pat|] == pat {
      var rest := Replace(s[|pat|..], pat, rep);
      ReplaceDefuses(s[|pat|..], pat);
      assert r == rep + rest;
      assert r[1..] == (pat[1..] + [ZeroWidthSpace]) + rest;
      assert pat[0] !in pat[1..] + [ZeroWidthSpace];
      DefusedAfterFree(pat[1..] + [ZeroWidthSpace], rest, pat);
      assert r[..|pat|] == pat && r[|pat|] == ZeroWidthSpace;
    } else {
      var rest := Replace(s[1..], pat, rep);
      ReplaceDefuses(s[1..], pat);
      assert r == [s[0]] + rest && r[1..] == rest;
      ReplaceHead(s[1..], pat, rep, pat[1..]);
      if |r| >= |pat| {
        assert r[..|pat|] == [s[0]] + rest[..|pat| - 1];
        assert s[..|pat|] == [s[0]] + s[1..][..|pat| - 1];
      }
      assert !(|r| >= |pat| && r[..|pat|] == pat);
    }
  }

  /** Defusing `<!@` keeps every `<@` defused. */
  lemma {:induction false} ReplaceKeepsDefused(s: string)
    requires Defused(s, UserMention)
    ensures Defused(Replace(s, OtherMention, OtherMention + [ZeroWidthSpace]), UserMention)
    decreases |s|
  {
    var rep := OtherMention + [ZeroWidthSpace];
    var r := Replace(s, OtherMention, rep);
    if |s| < 3 {
    } else if s[..3] == OtherMention {
      DefusedDrop(s, 3, UserMention);
      var rest := Replace(s[3..], OtherMention, rep);
      ReplaceKeepsDefused(s[3..]);
      assert r == ['<'] + ("!@" + [ZeroWidthSpace] + rest);
      DefusedAfterFree("!@" + [ZeroWidthSpace], rest, UserMention);
      assert r[1..] == "!@" + [ZeroWidthSpace] + rest;
      assert r[..2] != UserMention by { assert r[1] == '!'; }
    } else {
      var rest := Replace(s[1..], OtherMention, rep);
      ReplaceKeepsDefused(s[1..]);
      assert r == [s[0]] + rest && r[1..] == rest;
      if |r| >= 2 && r[..2] == UserMention {
        ReplaceHead(s[1..], OtherMention, rep, "@");
        assert s[..2] == UserMention;
        assert s[2] == ZeroWidthSpace;
        ReplaceSkip(s[1..], OtherMention, rep);
        assert s[1..][1..] == s[2..];
        ReplaceSkip(s[2..], OtherMention, rep);
        assert r[2] == s[2];
      }
    }
  }

  lemma {:induction false} DefusedShort(s: string, pat: string)
    requires |s| < |pat|
    ensures Defused(s, pat)
  {
    if |s| > 0 {
      DefusedShort(s[1..], pat);
    }
  }

  lemma {:induction false} DefusedDrop(s: string, k: nat, pat: string)
    requires Defused(s, pat) && k <= |s|
    ensures Defused(s[k..], pat)
  {
    if k > 0 {
      DefusedDrop(s[1..], k - 1, pat);
      assert s[1..][k - 1..] == s[k..];
    }
  }

  /**
   * Undoes the defusing of `pat`: scanning from the left, the zero-width space right after an
   * occurrence of `pat` is dropped; every other character, zero-width spaces included, stays.
   */
  function Restore(s: string, pat: string): string
    requires |pat| > 0
    decreases |s|
  {
    if |s| > |pat| && s[..|pat|] == pat && s[|pat|] == ZeroWidthSpace then pat + Restore(s[|pat| + 1..], pat)
    else if s == [] then []
    else [s[0]] + Restore(s[1..], pat)
  }

  /** Up to the pattern's length, the replacement does not yet show: the text starts as it did. */
  lemma {:induction false} ReplacePrefix(t: string, pat: string, rep: string, j: nat)
    requires |pat| > 0 && |rep| >= |pat| && rep[..|pat|] == pat
    requires j < |pat| && j <= |t|
    ensures |Replace(t, pat, rep)| >= j && Replace(t, pat, rep)[..j] == t[..j]
    decreases |t|
  {
    if |t| < |pat| {
    } else if t[..|pat|] == pat {
      assert Replace(t, pat, rep)[..j] == rep[..j];
      assert rep[..j] == rep[..|pat|][..j];
      assert t[..j] == t[..|pat|][..j];
    } else if j > 0 {
      ReplacePrefix(t[1..], pat, rep, j - 1);
      var out := Replace(t, pat, rep);
      assert out == [t[0]] + Replace(t[1..], pat, rep);
      assert out[..j] == [t[0]] + Replace(t[1..], pat, rep)[..j - 1];
      assert t[..j] == [t[0]] + t[1..][..j - 1];
    }
  }

  /** A text without the pattern is left as it is. */
  lemma {:induction false} ReplaceAbsent(s: string, pat: string, rep: string)
    requires |pat| > 0 && !Contains(s, pat)
    ensures Replace(s, pat, rep) == s
    decreases |s|
  {
    if |s| >= |pat| {
      ReplaceAbsent(s[1..], pat, rep);
      assert [s[0]] + s[1..] == s;
    }
  }

  /**
   * Defusing loses nothing: restoring the defused text gives back the original, zero-width
   * spaces it already had included. So the replacement only inserts.
   */
  lemma {:induction false} RestoreReplace(s: string, pat: string)
    requires |pat| > 0
    ensures Restore(Replace(s, pat, pat + [ZeroWidthSpace]), pat) == s
    decreases |s|
  {
    var rep := pat + [ZeroWidthSpace];
    if |s| < |pat| {
      if s != [] {
        RestoreReplace(s[1..], pat);
        RestoreShort(s, pat);
      }
    } else if s[..|pat|] == pat {
      RestoreReplace(s[|pat|..], pat);
      RestoreMatch(s, pat);
    } else {
      ReplacePrefix(s[1..], pat, rep, |pat| - 1);
      RestoreReplace(s[1..], pat);
      RestoreMiss(s, pat);
    }
  }

  /** The step of `RestoreReplace` for a text shorter than the pattern. */
  lemma RestoreShort(s: string, pat: string)
    requires 0 < |s| < |pat|
    requires Restore(Replace(s[1..], pat, pat + [ZeroWidthSpace]), pat) == s[1..]
    ensures Restore(Replace(s, pat, pat + [ZeroWidthSpace]), pat) == s
  {
    assert Replace(s[1..], pat, pat + [ZeroWidthSpace]) == s[1..];
    assert [s[0]] + s[1..] == s;
  }

  /** The step of `RestoreReplace` for a text that starts with the pattern. */
  lemma RestoreMatch(s: string, pat: string)
    requires 0 < |pat| <= |s| && s[..|pat|] == pat
    requires Restore(Replace(s[|pat|..], pat, pat + [ZeroWidthSpace]), pat) == s[|pat|..]
    ensures Restore(Replace(s, pat, pat + [ZeroWidthSpace]), pat) == s
  {
    var rep := pat + [ZeroWidthSpace];
    var rest := Replace(s[|pat|..], pat, rep);
    var out := Replace(s, pat, rep);
    assert out == rep + rest;
    assert out[..|pat|] == pat && out[|pat|] == ZeroWidthSpace;
    assert out[|pat| + 1..] == rest;
    assert s == pat + s[|pat|..];
  }

  /** The step of `RestoreReplace` for a text that does not start with the pattern. */
  lemma RestoreMiss(s: string, pat: string)
    requires 0 < |pat| <= |s| && s[..|pat|] != pat
    requires Restore(Replace(s[1..], pat, pat + [ZeroWidthSpace]), pat) == s[1..]
    requires |Replace(s[1..], pat, pat + [ZeroWidthSpace])| >= |pat| - 1
    requires Replace(s[1..], pat, pat + [ZeroWidthSpace])[..|pat| - 1] == s[1..][..|pat| - 1]
    ensures Restore(Replace(s, pat, pat + [ZeroWidthSpace]), pat) == s
  {
    var rest := Replace(s[1..], pat, pat + [ZeroWidthSpace]);
    var out := Replace(s, pat, pat + [ZeroWidthSpace]);
    assert out == [s[0]] + rest;
    assert out[..|pat|] == [s[0]] + rest[..|pat| - 1];
    assert s[..|pat|] == [s[0]] + s[1..][..|pat| - 1];
    assert out[1..] == rest;
    assert [s[0]] + s[1..] == s;
  }

  /**
   * Inserting zero-width spaces after a pattern free of them leaves the visible text alone, and
   * inserts nothing else: restoring gives back the original.
   */
  lemma {:induction false} ReplaceVisible(s: string, pat: string)
    requires |pat| > 0 && ZeroWidthSpace !in pat
    ensures Visible(Replace(s, pat, pat + [ZeroWidthSpace])) == Visible(s)
    ensures Restore(Replace(s, pat, pat + [ZeroWidthSpace]), pat) == s
    decreases |s|
  {
    RestoreReplace(s, pat);
    var rep := pat + [ZeroWidthSpace];
    if |s| < |pat| {
    } else if s[..|pat|] == pat {
      var tail := s[|pat|..];
      ReplaceVisible(tail, pat);
      assert s == pat + tail;
      assert Replace(s, pat, rep) == rep + Replace(tail, pat, rep);
      VisibleAppend(pat, [ZeroWidthSpace]);
      assert Visible([ZeroWidthSpace]) == [];
      assert Visible(rep) == Visible(pat) + [] == Visible(pat);
      VisibleSame(rep, pat, Replace(tail, pat, rep), tail);
    } else {
      var tail := s[1..];
      ReplaceVisible(tail, pat);
      assert s == [s[0]] + tail;
      assert Replace(s, pat, rep) == [s[0]] + Replace(tail, pat, rep);
      VisibleSame([s[0]], [s[0]], Replace(tail, pat, rep), tail);
    }
  }

  /** Texts that read the same, each after a head that reads the same, read the same. */
  lemma VisibleSame(h1: string, h2: string, t1: string, t2: string)
    requires Visible(h1) == Visible(h2) && Visible(t1) == Visible(t2)
    ensures Visible(h1 + t1) == Visible(h2 + t2)
  {
    VisibleAppend(h1, t1);
    VisibleAppend(h2, t2);
  }

  lemma {:induction false} VisibleFree(s: string)
    requires ZeroWidthSpace !in s
    ensures Visible(s) == s
  {
    if s != [] {
      VisibleFree(s[1..]);
      assert [s[0]] + s[1..] == s;
    }
  }

  /**
   * The two replacements of `format_output`: a zero-width space after every `<@` and every
   * `<!@`, so that no mention survives; what the text reads as is unchanged.
   */
  function Defuse(s: string): (r: string)
    ensures Defused(r, UserMention) && Defused(r, OtherMention)
    ensures Visible(r) == Visible(s)
    ensures Restore(Restore(r, OtherMention), UserMention) == s
  {
    var a := if Contains(s, UserMention) then Replace(s, UserMention, UserMention + [ZeroWidthSpace]) else s;
    var b := if Contains(a, OtherMention) then Replace(a, OtherMention, OtherMention + [ZeroWidthSpace]) else a;
    assert Defused(a, UserMention) && Visible(a) == Visible(s) && Restore(a, UserMention) == s by {
      if Contains(s, UserMention) {
        ReplaceDefuses(s, UserMention);
        ReplaceVisible(s, UserMention);
      } else {
        DefusedAbsent(s, UserMention);
        ReplaceAbsent(s, UserMention, UserMention + [ZeroWidthSpace]);
        RestoreReplace(s, UserMention);
      }
    }
    assert Defused(b, UserMention) && Defused(b, OtherMention) && Visible(b) == Visible(a) && Restore(b, OtherMention) == a by {
      if Contains(a, OtherMention) {
        ReplaceDefuses(a, OtherMention);
        ReplaceKeepsDefused(a);
        ReplaceVisible(a, OtherMention);
      } else {
        DefusedAbsent(a, OtherMention);
        ReplaceAbsent(a, OtherMention, OtherMention + [ZeroWidthSpace]);
        RestoreReplace(a, OtherMention);
      }
    }
    b
  }

  /** `ESCAPE_REGEX.findall(s)` finds something: three characters of the escape set in a row. */
  predicate EscapeAttempt(s: string)
  {
    exists i :: 0 <= i && i + 3 <= |s| && s[i] in EscapeChars && s[i + 1] in EscapeChars && s[i + 2] in EscapeChars
  }

  /** `f"{i:03d} | {line}"` for every line, counting from 1. */
  function NumberLines(lines: seq<string>): (r: seq<string>)
    ensures |r| == |lines|
    ensures forall k :: 0 <= k < |r| ==> r[k] == Pad3(k + 1) + " | " + lines[k]
  {
    seq(|lines|, k requires 0 <= k < |lines| => Pad3(k + 1) + " | " + lines[k])
  }

  /** The first eleven numbered lines, joined by newlines; a single line is left as it is. */
  function Numbered(s: string): string
  {
    if Count(s, '\n') > 0 then
      var numbered := NumberLines(Split(s, '\n'));
      Join(numbered[..Min(11, |numbered|)], "\n")
    else s
  }

  /**
   * Numbering keeps at most eleven lines; line `k` of the result is the number `k + 1`,
   * zero-padded to three digits (`Pad3Value` reads it back), then ` | `, then line `k` of the input.
   */
  lemma NumberedLines(s: string)
    requires Count(s, '\n') > 0
    ensures |Split(s, '\n')| == Count(s, '\n') + 1
    ensures |Split(Numbered(s), '\n')| == Min(11, Count(s, '\n') + 1)
    ensures forall k :: 0 <= k < |Split(Numbered(s), '\n')| ==>
      Split(Numbered(s), '\n')[k] == Pad3(k + 1) + " | " + Split(s, '\n')[k]
  {
    var split := Split(s, '\n');
    var numbered := NumberLines(split);
    var kept := numbered[..Min(11, |numbered|)];
    SplitPieces(s, '\n');
    assert Numbered(s) == Join(kept, "\n");
    forall k | 0 <= k < |kept|
      ensures '\n' !in kept[k]
    {
      assert kept[k] == Pad3(k + 1) + " | " + split[k];
      assert '\n' !in Pad3(k + 1);
    }
    SplitJoin(kept, '\n');
    var lines := Split(Numbered(s), '\n');
    assert lines == kept;
    forall k | 0 <= k < |lines|
      ensures lines[k] == Pad3(k + 1) + " | " + split[k]
    {
      assert lines[k] == numbered[k];
    }
  }

  /**
   * The notice a cut text ends with: too many lines, too long, or both, as the text has more
   * than ten newlines, at least `MaxPasteLen` characters, or both.
   */
  function CutNotice(lines: nat, length: nat): string
  {
    if lines > 10 then (if length >= MaxPasteLen then TooLongManyLinesNotice else TooManyLinesNotice)
    else TooLongNotice
  }

  /** The cut of `format_output` on the numbered text: the text, and whether it was cut. */
  function Truncate(s: string, lines: nat): (r: (string, bool))
    ensures r.1 <==> lines > 10 || |s| >= MaxPasteLen
    ensures !r.1 ==> r.0 == s
    ensures r.1 ==> r.0 == s[..Min(|s|, MaxPasteLen)] + CutNotice(lines, |s|)
    ensures r.1 ==> |r.0| > Min(|s|, MaxPasteLen)
    ensures r.1 ==> |r.0| >= Min(|s|, MaxPasteLen) && r.0[..Min(|s|, MaxPasteLen)] == s[..Min(|s|, MaxPasteLen)]
    ensures |r.0| <= |s| + |TooLongManyLinesNotice| && |r.0| <= MaxPasteLen + |TooLongManyLinesNotice|
  {
    if lines > 10 then
      if |s| >= MaxPasteLen then (s[..MaxPasteLen] + TooLongManyLinesNotice, true)
      else (s + TooManyLinesNotice, true)
    else if |s| >= MaxPasteLen then (s[..MaxPasteLen] + TooLongNotice, true)
    else (s, false)
  }

  /** The paste service: a link to the pasted text, or nothing when the upload failed. */
  type PasteService = string -> Option<string>

  /** `upload_output`: outputs longer than the paste limit are not sent at all. */
  function UploadOutput(output: string, paste: PasteService): (r: Option<string>)
    ensures |output| > MaxPasteLen ==> r == Some(TooLongToUpload)
    ensures |output| <= MaxPasteLen ==> r == paste(output)
  {
    if |output| > MaxPasteLen then Some(TooLongToUpload) else paste(output)
  }

  /**
   * `format_output`: the text to post and the link to the full output. An escape attempt
   * posts only the notice; otherwise the defused text is numbered and cut, and an empty text
   * becomes `[No output]`. The full output, without trailing newlines and before any
   * replacement, is uploaded exactly when the text was suspect or cut.
   */
  function FormatOutput(output: string, paste: PasteService): (r: (string, Option<string>))
    ensures r.0 != ""
    ensures var original := RStrip(output, {'\n'});
      EscapeAttempt(Defuse(original)) ==> r == (EscapeNotice, UploadOutput(original, paste))
    ensures var original := RStrip(output, {'\n'});
      var text := Defuse(original);
      !EscapeAttempt(text) ==>
        var cut := Count(text, '\n') > 10 || |Numbered(text)| >= MaxPasteLen;
        && r.1 == (if cut then UploadOutput(original, paste) else None)
        && (!cut ==> r.0 == (if Numbered(text) == "" then NoOutput else Numbered(text)))
        && (cut ==> r.0 == Numbered(text)[..Min(|Numbered(text)|, MaxPasteLen)] + CutNotice(Count(text, '\n'), |Numbered(text)|))
        && (cut ==> |r.0| >= Min(|Numbered(text)|, MaxPasteLen))
        && (cut ==> r.0[..Min(|Numbered(text)|, MaxPasteLen)] == Numbered(text)[..Min(|Numbered(text)|, MaxPasteLen)])
        && |r.0| <= MaxPasteLen + |TooLongManyLinesNotice|
  {
    var original := RStrip(output, {'\n'});
    var text := Defuse(original);
    if EscapeAttempt(text) then (EscapeNotice, UploadOutput(original, paste))
    else
      var lines := Count(text, '\n');
      var cut := Truncate(Numbered(text), lines);
      var link := if cut.1 then UploadOutput(original, paste) else None;
      (if cut.0 == "" then NoOutput else cut.0, link)
  }

  // ----------------------------------------------------------------------------
  // Re-evaluation triggers
  // ----------------------------------------------------------------------------

  const ReevalEmoji: string := "\U{1F501}"

  datatype ChatMessage = ChatMessage(id: nat, content: string)
  datatype EvalContext = EvalContext(message: ChatMessage, authorId: nat)
  datatype Reaction = Reaction(messageId: nat, emoji: string)

  /** `predicate_eval_message_edit`: the invoking message was edited and its content changed. */
  predicate IsReevalEdit(ctx: EvalContext, before: ChatMessage, after: ChatMessage)
  {
    after.id == ctx.message.id && before.content != after.content
  }

  /** `predicate_eval_emoji_reaction`: the invoker put the re-run emoji on the invoking message. */
  predicate IsReevalReaction(ctx: EvalContext, reaction: Reaction, userId: nat)
  {
    reaction.messageId == ctx.message.id && userId == ctx.authorId && reaction.emoji == ReevalEmoji
  }

  /**
   * `bot.wait_for(event, check=...)` before its timeout: the position of the first event, in
   * arrival order, that the check accepts, or nothing when none does and the wait times out.
   */
  function FirstAccepted<T>(events: seq<T>, check: T -> bool): (r: Option<nat>)
    ensures r.Some? ==> r.value < |events| && check(events[r.value])
    ensures r.Some? ==> forall j :: 0 <= j < r.value ==> !check(events[j])
    ensures r.None? ==> forall j :: 0 <= j < |events| ==> !check(events[j])
  {
    if events == [] then None
    else if check(events[0]) then Some(0)
    else
      var rest := FirstAccepted(events[1..], check);
      assert forall j :: 1 <= j < |events| ==> events[j] == events[1..][j - 1];
      if rest.None? then None else Some(rest.value + 1)
  }

  /**
   * The edit that restarts a session is one of the invoking message that changed its content;
   * every edit before it was of another message or left the content as it was.
   */
  lemma ReevalEditAwaited(ctx: EvalContext, edits: seq<(ChatMessage, ChatMessage)>)
    ensures var r := FirstAccepted(edits, (e: (ChatMessage, ChatMessage)) => IsReevalEdit(ctx, e.0, e.1));
      && (r.Some? ==> edits[r.value].1.id == ctx.message.id && edits[r.value].0.content != edits[r.value].1.content)
      && forall j :: 0 <= j < (if r.Some? then r.value else |edits|) ==>
           edits[j].1.id != ctx.message.id || edits[j].0.content == edits[j].1.content
  {
  }

  /**
   * The reaction that confirms a re-run is the re-run emoji, put by the invoker on the invoking
   * message; every reaction before it was by someone else, on another message, or another emoji.
   */
  lemma ReevalReactionAwaited(ctx: EvalContext, reactions: seq<(Reaction, nat)>)
    ensures var r := FirstAccepted(reactions, (e: (Reaction, nat)) => IsReevalReaction(ctx, e.0, e.1));
      && (r.Some? ==>
            reactions[r.value].0.messageId == ctx.message.id && reactions[r.value].1 == ctx.authorId &&
            reactions[r.value].0.emoji == ReevalEmoji)
      && forall j :: 0 <= j < (if r.Some? then r.value else |reactions|) ==>
           reactions[j].0.messageId != ctx.message.id || reactions[j].1 != ctx.authorId || reactions[j].0.emoji != ReevalEmoji
  {
  }

  // ----------------------------------------------------------------------------
  // One job per author
  // ----------------------------------------------------------------------------

  /** What the cog posts itself, outside the evaluation replies. */
  datatype Post = AlreadyRunning(mention: string) | Help

  /** The text of the refusal. */
  function AlreadyRunningText(mention: string): string
  {
    mention + " You've already got a job running - please wait for it to finish!"
  }

  /** `not code`: no code, or the empty string. */
  predicate NoCode(code: Option<string>)
  {
    code.None? || code.value == ""
  }

  /**
   * The codes an eval session runs: the first, then each new code the author supplies by
   * editing, until the answer is no code (the wait timed out, or the edit held none).
   */
  function Rounds(code: string, edits: seq<Option<string>>): (r: seq<string>)
    ensures 1 <= |r| <= |edits| + 1 && r[0] == code
    ensures forall k :: 0 <= k < |r| - 1 ==> edits[k].Some? && edits[k].value != "" && r[k + 1] == edits[k].value
    decreases |edits|
  {
    if edits == [] || NoCode(edits[0]) then [code]
    else
      var rest := Rounds(edits[0].value, edits[1..]);
      assert forall k :: 0 < k < |rest| ==> edits[k] == edits[1..][k - 1] && rest[k] == ([code] + rest)[k + 1];
      [code] + rest
  }

  /** Each code as `prepare_input` hands it to the send function. */
  function Prepared(codes: seq<string>, prepare: string -> string): (r: seq<string>)
    ensures |r| == |codes|
    ensures forall k :: 0 <= k < |r| ==> r[k] == prepare(codes[k])
  {
    seq(|codes|, k requires 0 <= k < |codes| => prepare(codes[k]))
  }

  /** The send function raised while sending, or posting the refusal or the help text raised. */
  datatype SendError = SendRaised | PostRaised

  /** The jobs table of the cog: who has an evaluation in flight, and since when. */
  class EvalJobs {
    var jobs: map<nat, nat>
    var posts: seq<Post>
    var sentCodes: seq<(nat, string)>

    constructor ()
      ensures jobs == map[] && posts == [] && sentCodes == []
    {
      jobs := map[];
      posts := [];
      sentCodes := [];
    }

    /**
     * The send function (`send_eval` or `send_timeit`), reduced to what the guard needs: it is
     * only ever called while the author's entry is in the table, and it raises or not as the
     * environment has it.
     */
    method Send(author: nat, code: string, raises: bool) returns (r: Result<(), SendError>)
      requires author in jobs
      modifies this
      ensures sentCodes == old(sentCodes) + [(author, code)]
      ensures r.Err? <==> raises
      ensures jobs == old(jobs) && posts == old(posts)
    {
      sentCodes := sentCodes + [(author, code)];
      r := if raises then Err(SendRaised) else Ok(());
    }

    /** `ctx.send` or `send_help`: the post is made unless it raises. */
    method Reply(post: Post, raises: bool) returns (r: Result<(), SendError>)
      modifies this
      ensures r.Err? <==> raises
      ensures r.Err? ==> r.error == PostRaised
      ensures posts == old(posts) + (if raises then [] else [post])
      ensures jobs == old(jobs) && sentCodes == old(sentCodes)
    {
      if raises {
        return Err(PostRaised);
      }
      posts := posts + [post];
      r := Ok(());
    }

    /**
     * `run_eval`: refused while the author has a job in the table; only the help text without
     * code; otherwise one round per code of the session, each sent with the author's entry in
     * the table and the entry removed after the send, even when the send raised (`raiseAt` is
     * the round at which it does). The refusal and the help text are posted unless posting raises
     * (`postRaises`). Afterwards the table is as it was.
     */
    method RunEval(author: nat, mention: string, code: Option<string>, now: nat, prepare: string -> string,
                   edits: seq<Option<string>>, raiseAt: Option<nat>, postRaises: bool)
      returns (r: Result<(), SendError>)
      modifies this
      ensures jobs == old(jobs)
      ensures author in old(jobs) ==>
        sentCodes == old(sentCodes) &&
        (r.Err? <==> postRaises) && (r.Err? ==> r.error == PostRaised) &&
        posts == old(posts) + (if postRaises then [] else [AlreadyRunning(mention)])
      ensures author !in old(jobs) && NoCode(code) ==>
        sentCodes == old(sentCodes) &&
        (r.Err? <==> postRaises) && (r.Err? ==> r.error == PostRaised) &&
        posts == old(posts) + (if postRaises then [] else [Help])
      ensures author !in old(jobs) && !NoCode(code) ==>
        var rounds := Rounds(code.value, edits);
        var ran := if raiseAt.Some? && raiseAt.value < |rounds| then raiseAt.value + 1 else |rounds|;
        && posts == old(posts)
        && (r.Err? <==> raiseAt.Some? && raiseAt.value < |rounds|)
        && sentCodes == old(sentCodes) + Tagged(author, Prepared(rounds, prepare)[..ran])
    {
      if author in jobs {
        r := Reply(AlreadyRunning(mention), postRaises);
        return;
      }
      if NoCode(code) {
        r := Reply(Help, postRaises);
        return;
      }
      r := Session(author, code.value, now, prepare, edits, raiseAt);
    }

    /** The rounds of one session, for an author without a job and with code to run. */
    method Session(author: nat, code: string, now: nat, prepare: string -> string,
                   edits: seq<Option<string>>, raiseAt: Option<nat>)
      returns (r: Result<(), SendError>)
      requires author !in jobs
      modifies this
      ensures jobs == old(jobs) && posts == old(posts)
      ensures var rounds := Rounds(code, edits);
        var ran := if raiseAt.Some? && raiseAt.value < |rounds| then raiseAt.value + 1 else |rounds|;
        && (r.Err? <==> raiseAt.Some? && raiseAt.value < |rounds|)
        && sentCodes == old(sentCodes) + Tagged(author, Prepared(rounds, prepare)[..ran])
    {
      ghost var rounds := Rounds(code, edits);
      var current := code;
      var i := 0;
      while true
        invariant i < |rounds| && current == rounds[i]
        invariant raiseAt.None? || raiseAt.value >= i
        invariant jobs == old(jobs) && posts == old(posts)
        invariant sentCodes == old(sentCodes) + Tagged(author, Prepared(rounds, prepare)[..i])
        decreases |edits| - i
      {
        jobs := jobs[author := now];
        var prepared := prepare(current);
        var sent := Send(author, prepared, raiseAt == Some(i));
        jobs := jobs - {author};
        assert jobs == old(jobs);
        TaggedStep(author, Prepared(rounds, prepare), i);
        if sent.Err? {
          return sent;
        }
        assert raiseAt.None? || raiseAt.value != i;
        RoundsNext(code, edits, i);
        var next := if i < |edits| then edits[i] else None;
        if NoCode(next) {
          return Ok(());
        }
        current := next.value;
        i := i + 1;
      }
    }
  }

  /** The codes of one author, as the send function saw them. */
  function Tagged(author: nat, codes: seq<string>): (r: seq<(nat, string)>)
    ensures |r| == |codes|
    ensures forall k :: 0 <= k < |r| ==> r[k] == (author, codes[k])
  {
    seq(|codes|, k requires 0 <= k < |codes| => (author, codes[k]))
  }

  lemma TaggedStep(author: nat, codes: seq<string>, i: nat)
    requires i < |codes|
    ensures Tagged(author, codes[..i + 1]) == Tagged(author, codes[..i]) + [(author, codes[i])]
  {
  }

  /** The round after round `i` is the next edit's code, and there is none when that edit holds no code. */
  lemma {:induction false} RoundsNext(code: string, edits: seq<Option<string>>, i: nat)
    requires i < |Rounds(code, edits)|
    ensures var next := if i < |edits| then edits[i] else None;
      && (NoCode(next) <==> i + 1 == |Rounds(code, edits)|)
      && (!NoCode(next) ==> Rounds(code, edits)[i + 1] == next.value)
    decreases i
  {
    if i > 0 {
      RoundsNext(edits[0].value, edits[1..], i - 1);
    }
  }
}
