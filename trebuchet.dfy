/** Calibration values: the first and last decimal digit of each line,
    read either literally (part 1) or after spelled digits have been
    rewritten into the line (part 2). */
module Trebuchet {
  import opened Wrappers
  import opened Text

  /** The ASCII digits of `line`, in order. */
  function Digits(line: string): (d: string)
    ensures AllDigits(d)
    decreases |line|
  {
    if line == [] then []
    else Digits(line[..|line| - 1]) + (if IsDigit(line[|line| - 1]) then [line[|line| - 1]] else [])
  }

  predicate HasDigit(line: string) {
    exists k :: 0 <= k < |line| && IsDigit(line[k])
  }

  /** 10 times the first digit plus the last digit. */
  function CalibrationValue(line: string): nat
    requires Digits(line) != []
  {
    var d := Digits(line);
    10 * DigitValue(d[0]) + DigitValue(d[|d| - 1])
  }

  /** `Digits` is empty exactly when the line has no digit. */
  lemma {:induction false} DigitsEmpty(line: string)
    ensures Digits(line) == [] <==> !HasDigit(line)
    decreases |line|
  {
    if line != [] {
      var init := line[..|line| - 1];
      DigitsEmpty(init);
      if HasDigit(init) {
        var k :| 0 <= k < |init| && IsDigit(init[k]);
        assert line[k] == init[k];
      } else if !IsDigit(line[|line| - 1]) {
        forall k | 0 <= k < |line| ensures !IsDigit(line[k]) {
          if k < |init| { assert line[k] == init[k]; }
        }
      }
    }
  }

  /** The first entry of `Digits` is the first digit of the line. */
  lemma {:induction false} DigitsFirst(line: string, i: nat)
    requires i < |line| && IsDigit(line[i]) && forall k :: 0 <= k < i ==> !IsDigit(line[k])
    ensures Digits(line) != [] && Digits(line)[0] == line[i]
    decreases |line|
  {
    var init := line[..|line| - 1];
    if i < |init| {
      assert init[i] == line[i];
      DigitsFirst(init, i);
    } else {
      DigitsEmpty(init);
      assert !HasDigit(init) by {
        forall k | 0 <= k < |init| ensures !IsDigit(init[k]) { assert init[k] == line[k]; }
      }
    }
  }

  /** The last entry of `Digits` is the last digit of the line. */
  lemma {:induction false} DigitsLast(line: string, j: nat)
    requires j < |line| && IsDigit(line[j]) && forall k :: j < k < |line| ==> !IsDigit(line[k])
    ensures Digits(line) != [] && Digits(line)[|Digits(line)| - 1] == line[j]
    decreases |line|
  {
    var init := line[..|line| - 1];
    if j < |init| {
      assert init[j] == line[j];
      assert forall k :: j < k < |init| ==> init[k] == line[k];
      DigitsLast(init, j);
    }
  }

  /** The calibration value of a line whose first digit sits at i and last digit at j
      is 10 * line[i] + line[j], a number in 0..99. */
  lemma CalibrationValueIsFirstAndLast(line: string, i: nat, j: nat)
    requires i <= j < |line| && IsDigit(line[i]) && IsDigit(line[j])
    requires forall k :: 0 <= k < i ==> !IsDigit(line[k])
    requires forall k :: j < k < |line| ==> !IsDigit(line[k])
    ensures Digits(line) != []
    ensures CalibrationValue(line) == 10 * DigitValue(line[i]) + DigitValue(line[j]) <= 99
  {
    DigitsFirst(line, i);
    DigitsLast(line, j);
  }

  /** A line holding the single digit d (anywhere, among letters) gives 11 * d. */
  lemma SingleDigitLine(pre: string, d: char, post: string)
    requires IsDigit(d) && !HasDigit(pre) && !HasDigit(post)
    ensures Digits(pre + [d] + post) != [] && CalibrationValue(pre + [d] + post) == 11 * DigitValue(d)
  {
    var line := pre + [d] + post;
    forall k | 0 <= k < |line| && k != |pre| ensures !IsDigit(line[k]) {
      if k < |pre| { assert line[k] == pre[k]; } else { assert line[k] == post[k - |pre| - 1]; }
    }
    CalibrationValueIsFirstAndLast(line, |pre|, |pre|);
  }

  /** `extract_digits` of part 1: collect the digits, then combine the first and the
      last one; a line without a digit makes `unwrap` panic. */
  method ExtractDigits(line: string) returns (r: Result<nat>)
    ensures r.Err? <==> !HasDigit(line)
    ensures r.Ok? ==> Digits(line) != [] && r.value == CalibrationValue(line)
  {
    var caps: string := [];
    for i := 0 to |line|
      invariant caps == Digits(line[..i])
    {
      assert line[..i + 1][..i] == line[..i];
      if IsDigit(line[i]) {
        caps := caps + [line[i]];
      }
    }
    assert line[..|line|] == line;
    DigitsEmpty(line);
    if |caps| == 0 {
      return Err("called `Option::unwrap()` on a `None` value");
    }
    r := Ok(10 * DigitValue(caps[0]) + DigitValue(caps[|caps| - 1]));
  }

  /** `part1`: the sum of the calibration values of all lines. */
  method Part1(lines: seq<string>) returns (r: Result<int>)
    ensures r.Err? <==> exists k :: 0 <= k < |lines| && !HasDigit(lines[k])
    ensures r.Ok? ==> r.value == Sum(CalibrationValues(lines))
  {
    var res := 0;
    for k := 0 to |lines|
      invariant forall m :: 0 <= m < k ==> HasDigit(lines[m])
      invariant res == Sum(CalibrationValues(lines[..k]))
    {
      var v := ExtractDigits(lines[k]);
      if v.Err? {
        return Err(v.error);
      }
      assert lines[..k + 1][..k] == lines[..k];
      res := res + v.value;
    }
    assert lines[..|lines|] == lines;
    r := Ok(res);
  }

  /** The calibration value of every line, in order (lines without a digit give 0;
      `Part1` fails on them before summing). */
  function CalibrationValues(lines: seq<string>): (vs: seq<int>)
    ensures |vs| == |lines|
    decreases |lines|
  {
    if lines == [] then []
    else
      var last := lines[|lines| - 1];
      CalibrationValues(lines[..|lines| - 1]) + [if Digits(last) != [] then CalibrationValue(last) else 0]
  }

  // ---------------------------------------------------------------- part 2

  /** `str::replace`: every non-overlapping occurrence of `from`, scanning left to
      right, is replaced by `to`. */
  function ReplaceAll(s: string, from: string, to: string): string
    requires |from| > 0
    decreases |s|
  {
    if |s| < |from| then s
    else if s[..|from|] == from then to + ReplaceAll(s[|from|..], from, to)
    else [s[0]] + ReplaceAll(s[1..], from, to)
  }

  /** A replacement that keeps the length and only puts digits where it changes a
      character. */
  predicate DigitPatch(from: string, to: string) {
    |from| == |to| > 0 && forall k :: 0 <= k < |to| ==> to[k] == from[k] || IsDigit(to[k])
  }

  /** Such a replacement keeps the length, and every position either keeps its
      character or now holds a digit. */
  lemma {:induction false} ReplaceAllPatches(s: string, from: string, to: string)
    requires DigitPatch(from, to)
    ensures |ReplaceAll(s, from, to)| == |s|
    ensures forall i :: 0 <= i < |s| ==> ReplaceAll(s, from, to)[i] == s[i] || IsDigit(ReplaceAll(s, from, to)[i])
    decreases |s|
  {
    if |s| >= |from| {
      var r := ReplaceAll(s, from, to);
      if s[..|from|] == from {
        ReplaceAllPatches(s[|from|..], from, to);
        forall i | 0 <= i < |s| ensures r[i] == s[i] || IsDigit(r[i]) {
          if i < |from| { assert r[i] == to[i] && s[i] == from[i]; }
          else { assert r[i] == ReplaceAll(s[|from|..], from, to)[i - |from|]; }
        }
      } else {
        ReplaceAllPatches(s[1..], from, to);
        forall i | 0 <= i < |s| ensures r[i] == s[i] || IsDigit(r[i]) {
          if i > 0 { assert r[i] == ReplaceAll(s[1..], from, to)[i - 1]; }
        }
      }
    }
  }

  /** A pattern without digits never overwrites a digit of the input. */
  lemma {:induction false} ReplaceAllKeepsDigits(s: string, from: string, to: string)
    requires DigitPatch(from, to) && forall k :: 0 <= k < |from| ==> !IsDigit(from[k])
    ensures |ReplaceAll(s, from, to)| == |s|
    ensures forall i :: 0 <= i < |s| && IsDigit(s[i]) ==> ReplaceAll(s, from, to)[i] == s[i]
    decreases |s|
  {
    ReplaceAllPatches(s, from, to);
    if |s| >= |from| {
      var r := ReplaceAll(s, from, to);
      if s[..|from|] == from {
        ReplaceAllKeepsDigits(s[|from|..], from, to);
        assert forall k :: 0 <= k < |from| ==> s[k] == from[k] && !IsDigit(s[k]);
        forall i | 0 <= i < |s| && IsDigit(s[i]) ensures r[i] == s[i] {
          if i >= |from| { assert r[i] == ReplaceAll(s[|from|..], from, to)[i - |from|]; }
        }
      } else {
        ReplaceAllKeepsDigits(s[1..], from, to);
        forall i | 0 <= i < |s| && IsDigit(s[i]) ensures r[i] == s[i] {
          if i > 0 { assert r[i] == ReplaceAll(s[1..], from, to)[i - 1]; }
        }
      }
    }
  }

  /** The nine rewrites of `replace_spelled_digits`, in the order they are applied:
      each keeps the first and last letter of the word and puts the digit inside. */
  const SpelledDigits: seq<(string, string)> := [
    ("one", "o1e"), ("two", "t2o"), ("three", "th3ee"), ("four", "f4ur"), ("five", "f5ve"),
    ("six", "s6x"), ("seven", "se7en"), ("eight", "ei8ht"), ("nine", "n9ne")]

  /** Applies the rewrites `SpelledDigits[..n]`, first to last. */
  function ReplaceFirst(line: string, n: nat): string
    requires n <= |SpelledDigits|
  {
    if n == 0 then line
    else ReplaceAll(ReplaceFirst(line, n - 1), SpelledDigits[n - 1].0, SpelledDigits[n - 1].1)
  }

  function ReplaceSpelledDigits(line: string): string {
    ReplaceFirst(line, |SpelledDigits|)
  }

  /** The n-th replacement writes the digit n + 1 over one inner letter of its word and
      keeps every other letter, the first and the last among them. */
  lemma SpelledDigitsArePatches(n: nat)
    requires n < |SpelledDigits|
    ensures DigitPatch(SpelledDigits[n].0, SpelledDigits[n].1)
    ensures forall k :: 0 <= k < |SpelledDigits[n].0| ==> !IsDigit(SpelledDigits[n].0[k])
    ensures var (word, patch) := SpelledDigits[n];
            && patch[0] == word[0] && patch[|patch| - 1] == word[|word| - 1]
            && exists p :: 0 < p < |patch| - 1 && patch[p] == DigitChar(n + 1)
                           && forall k :: 0 <= k < |patch| && k != p ==> patch[k] == word[k]
  {
    var p := if n == 2 || n == 6 || n == 7 then 2 else 1;
    assert SpelledDigits[n].1[p] == DigitChar(n + 1);
  }

  /** The rewritten line has the length of the original, every digit of the original is
      still in place, and every other position keeps its letter or now holds a digit. */
  lemma {:induction false} ReplaceFirstPreserves(line: string, n: nat)
    requires n <= |SpelledDigits|
    ensures |ReplaceFirst(line, n)| == |line|
    ensures forall i :: 0 <= i < |line| && IsDigit(line[i]) ==> ReplaceFirst(line, n)[i] == line[i]
    ensures forall i :: 0 <= i < |line| ==> ReplaceFirst(line, n)[i] == line[i] || IsDigit(ReplaceFirst(line, n)[i])
  {
    if n > 0 {
      ReplaceFirstPreserves(line, n - 1);
      var prev := ReplaceFirst(line, n - 1);
      SpelledDigitsArePatches(n - 1);
      ReplaceAllPatches(prev, SpelledDigits[n - 1].0, SpelledDigits[n - 1].1);
      ReplaceAllKeepsDigits(prev, SpelledDigits[n - 1].0, SpelledDigits[n - 1].1);
    }
  }

  /** Hence a line that has a digit still has one after the rewriting: part 2 never
      fails on a line part 1 accepts. */
  lemma ReplaceSpelledDigitsKeepsDigits(line: string)
    ensures |ReplaceSpelledDigits(line)| == |line|
    ensures forall i :: 0 <= i < |line| && IsDigit(line[i]) ==> ReplaceSpelledDigits(line)[i] == line[i]
    ensures HasDigit(line) ==> HasDigit(ReplaceSpelledDigits(line))
  {
    ReplaceFirstPreserves(line, |SpelledDigits|);
  }

  /** `extract_digits` of part 2: the part-1 extraction on the rewritten line. */
  method ExtractSpelledDigits(line: string) returns (r: Result<nat>)
    ensures r.Err? <==> !HasDigit(ReplaceSpelledDigits(line))
    ensures r.Ok? ==> Digits(ReplaceSpelledDigits(line)) != [] && r.value == CalibrationValue(ReplaceSpelledDigits(line))
  {
    r := ExtractDigits(ReplaceSpelledDigits(line));
  }

  /** `part1` of part 2: the sum over all lines of the rewritten calibration values. */
  method Part2(lines: seq<string>) returns (r: Result<int>)
    ensures r.Err? <==> exists k :: 0 <= k < |lines| && !HasDigit(ReplaceSpelledDigits(lines[k]))
    ensures r.Ok? ==> r.value == Sum(CalibrationValues(Rewritten(lines)))
  {
    r := Part1(Rewritten(lines));
  }

  function Rewritten(lines: seq<string>): (rs: seq<string>)
    ensures |rs| == |lines| && forall k :: 0 <= k < |lines| ==> rs[k] == ReplaceSpelledDigits(lines[k])
  {
    seq(|lines|, k requires 0 <= k < |lines| => ReplaceSpelledDigits(lines[k]))
  }

  /** The example line "toto1titit" has the value 11. */
  lemma ExampleToto()
    ensures Digits("toto1titit") != [] && CalibrationValue("toto1titit") == 11
  {
    assert "toto1titit" == "toto" + ['1'] + "titit";
    assert !HasDigit("toto") && !HasDigit("titit");
    SingleDigitLine("toto", '1', "titit");
  }

  /** `from` does not occur in `s` at any position. */
  predicate Absent(s: string, from: string)
    requires |from| > 0
    decreases |s|
  {
    |s| < |from| || (s[..|from|] != from && Absent(s[1..], from))
  }

  /** A rewrite whose word does not occur in the line leaves the line as it is. */
  lemma {:induction false} ReplaceAllAbsent(s: string, from: string, to: string)
    requires |from| > 0 && Absent(s, from)
    ensures ReplaceAll(s, from, to) == s
    decreases |s|
  {
    if |s| >= |from| {
      ReplaceAllAbsent(s[1..], from, to);
    }
  }

  /** A word whose first letter is not in the line does not occur in it. */
  lemma {:induction false} AbsentLetter(s: string, from: string)
    requires |from| > 0 && forall k :: 0 <= k < |s| ==> s[k] != from[0]
    ensures Absent(s, from)
    decreases |s|
  {
    if |s| >= |from| {
      assert s[..|from|][0] == s[0];
      AbsentLetter(s[1..], from);
    }
  }

  lemma StepTwo()
    ensures ReplaceAll("two3four", "two", "t2o") == "t2o3four"
  {
    var s := "two3four";
    assert s[..3] == "two" && s[3..] == "3four";
    assert Absent("3four", "two") by {
      var t := "3four";
      assert t[..3] != "two" && t[1..] == "four" && "four"[..3] != "two" && "four"[1..] == "our"
        && "our"[..3] != "two" && |"our"[1..]| < 3;
    }
    ReplaceAllAbsent("3four", "two", "t2o");
  }

  lemma StepFour()
    ensures ReplaceAll("t2o3four", "four", "f4ur") == "t2o3f4ur"
  {
    ReplaceWordAfter("t2o3", "four", "f4ur");
    assert "t2o3" + "four" == "t2o3four";
  }

  /** A word preceded only by characters that cannot start it is rewritten once. */
  lemma {:induction false} ReplaceWordAfter(p: string, w: string, r: string)
    requires |w| > 0 && forall k :: 0 <= k < |p| ==> p[k] != w[0]
    ensures ReplaceAll(p + w, w, r) == p + r
    decreases |p|
  {
    if p == [] {
      assert p + w == w && w[..|w|] == w && w[|w|..] == [];
    } else {
      ReplaceWordAfter(p[1..], w, r);
      ReplaceSkip(p[0], p[1..] + w, w, r);
      assert p + w == [p[0]] + (p[1..] + w);
      assert p + r == [p[0]] + (p[1..] + r);
    }
  }

  /** A character that does not start the word is copied and the rewriting goes on
      after it. */
  lemma ReplaceSkip(c: char, t: string, from: string, to: string)
    requires |from| > 0 && |t| + 1 >= |from| && c != from[0]
    ensures ReplaceAll([c] + t, from, to) == [c] + ReplaceAll(t, from, to)
  {
    var s := [c] + t;
    assert s[..|from|][0] == c;
    assert s[1..] == t;
  }

  /** One more rewrite step, from a known intermediate line. */
  lemma RewriteStep(line: string, n: nat, before: string, after: string)
    requires 0 < n <= |SpelledDigits| && ReplaceFirst(line, n - 1) == before
    requires ReplaceAll(before, SpelledDigits[n - 1].0, SpelledDigits[n - 1].1) == after
    ensures ReplaceFirst(line, n) == after
  {
  }

  /** A word whose first two letters never stand side by side in the line does not
      occur in it. */
  lemma {:induction false} AbsentPair(s: string, from: string)
    requires |from| >= 2 && forall k :: 0 <= k < |s| - 1 ==> !(s[k] == from[0] && s[k + 1] == from[1])
    ensures Absent(s, from)
    decreases |s|
  {
    if |s| >= |from| {
      assert s[..|from|][0] == s[0] && s[..|from|][1] == s[1];
      AbsentPair(s[1..], from);
    }
  }

  /** The rewrites that leave the example line alone: "one" and "three" before "four"
      is rewritten, and "five" to "nine" after. */
  lemma StepsAbsent(n: nat)
    requires n in {1, 3, 5, 6, 7, 8, 9}
    ensures var line := if n == 1 then "two3four" else if n < 4 then "t2o3four" else "t2o3f4ur";
      ReplaceAll(line, SpelledDigits[n - 1].0, SpelledDigits[n - 1].1) == line
  {
    var line := if n == 1 then "two3four" else if n < 4 then "t2o3four" else "t2o3f4ur";
    if n < 6 {
      AbsentPair(line, SpelledDigits[n - 1].0);
    } else {
      AbsentLetter(line, SpelledDigits[n - 1].0);
    }
    ReplaceAllAbsent(line, SpelledDigits[n - 1].0, SpelledDigits[n - 1].1);
  }

  /** The spelled-out example "two3four" has the value 24: "two" and "four" become
      "t2o" and "f4ur", and the digits 2, 3 and 4 are read. */
  lemma ExampleSpelled()
    ensures Digits(ReplaceSpelledDigits("two3four")) != []
    ensures CalibrationValue(ReplaceSpelledDigits("two3four")) == 24
  {
    ExampleFirstFour();
    ExampleLastFive("two3four", "t2o3f4ur");
    RewrittenValue();
  }

  /** The first four rewrites turn "two3four" into "t2o3f4ur". */
  lemma ExampleFirstFour()
    ensures ReplaceFirst("two3four", 4) == "t2o3f4ur"
  {
    ExampleFirstTwo();
    ExampleNextTwo("two3four", "t2o3four");
  }

  /** The rewrites "one" and "two" turn "two3four" into "t2o3four". */
  lemma ExampleFirstTwo()
    ensures ReplaceFirst("two3four", 2) == "t2o3four"
  {
    var s0 :| s0 == "two3four";
    StepsAbsent(1);
    RewriteStep(s0, 1, s0, s0);
    StepTwo();
    RewriteStep(s0, 2, s0, "t2o3four");
  }

  /** The rewrites "three" and "four" turn "t2o3four" into "t2o3f4ur". */
  lemma ExampleNextTwo(line: string, s2: string)
    requires s2 == "t2o3four" && ReplaceFirst(line, 2) == s2
    ensures ReplaceFirst(line, 4) == "t2o3f4ur"
  {
    StepsAbsent(3);
    RewriteStep(line, 3, s2, s2);
    StepFour();
    RewriteStep(line, 4, s2, "t2o3f4ur");
  }

  /** The rewrites "five" to "nine" leave "t2o3f4ur" as it is. */
  lemma ExampleLastFive(line: string, s4: string)
    requires s4 == "t2o3f4ur" && ReplaceFirst(line, 4) == s4
    ensures ReplaceFirst(line, 9) == s4
  {
    StepsAbsent(5);
    RewriteStep(line, 5, s4, s4);
    StepsAbsent(6);
    RewriteStep(line, 6, s4, s4);
    StepsAbsent(7);
    RewriteStep(line, 7, s4, s4);
    StepsAbsent(8);
    RewriteStep(line, 8, s4, s4);
    StepsAbsent(9);
    RewriteStep(line, 9, s4, s4);
  }

  lemma RewrittenValue()
    ensures Digits("t2o3f4ur") != [] && CalibrationValue("t2o3f4ur") == 24
  {
    var s4 := "t2o3f4ur";
    CalibrationValueIsFirstAndLast(s4, 1, 5);
  }
}
