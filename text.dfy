/** Character classes, decimal numbers and sums shared by the puzzle solvers.
    Characters are compared as Unicode scalar values. The text is taken to be ASCII,
    where these classes agree with the byte-level tests some solvers apply. */
module Text {
  import opened Wrappers

  /** `char::is_ascii_digit`, nom's `digit1` and `char::is_digit(10)`. */
  predicate IsDigit(c: char) {
    '0' <= c <= '9'
  }

  /** nom's `space0`/`space1` accept spaces and tabs. */
  predicate IsSpace(c: char) {
    c == ' ' || c == '\t'
  }

  /** nom's `alpha1` accepts ASCII letters. */
  predicate IsAlpha(c: char) {
    'a' <= c <= 'z' || 'A' <= c <= 'Z'
  }

  /** `char::to_digit(10)` on a decimal digit. */
  function DigitValue(c: char): (d: nat)
    requires IsDigit(c)
    ensures d < 10
  {
    c as int - '0' as int
  }

  predicate AllDigits(s: string) {
    forall i :: 0 <= i < |s| ==> IsDigit(s[i])
  }

  /** The number written by a run of decimal digits (`str::parse` on `digit1`);
      only ever applied to digit runs. */
  function DecimalValue(s: string): (v: nat)
    decreases |s|
  {
    if s == [] then 0
    else DecimalValue(s[..|s| - 1]) * 10 + (if IsDigit(s[|s| - 1]) then DigitValue(s[|s| - 1]) else 0)
  }

  /** Length of the longest prefix of `s` whose characters all satisfy `p`
      (nom's `take_while`, `space0`, `digit1` before their emptiness check). */
  function SpanLength(s: string, p: char -> bool): (n: nat)
    ensures n <= |s|
    decreases |s|
  {
    if s == [] || !p(s[0]) then 0 else 1 + SpanLength(s[1..], p)
  }

  /** The span is the longest prefix satisfying p: all of it satisfies p, and the
      character after it (if any) does not. */
  lemma {:induction false} SpanLengthSpec(s: string, p: char -> bool)
    ensures forall i :: 0 <= i < SpanLength(s, p) ==> p(s[i])
    ensures SpanLength(s, p) < |s| ==> !p(s[SpanLength(s, p)])
    decreases |s|
  {
    if s != [] && p(s[0]) {
      SpanLengthSpec(s[1..], p);
      assert forall i :: 1 <= i < SpanLength(s, p) ==> s[i] == s[1..][i - 1];
    }
  }

  /** The end of the run of characters satisfying p that starts at position i: the
      first position at or after i whose character fails p, or the end of s. */
  function SpanEnd(s: string, i: nat, p: char -> bool): (j: nat)
    requires i <= |s|
    ensures i <= j <= |s|
    decreases |s| - i
  {
    if i == |s| || !p(s[i]) then i else SpanEnd(s, i + 1, p)
  }

  lemma {:induction false} SpanEndSpec(s: string, i: nat, p: char -> bool)
    requires i <= |s|
    ensures forall k :: i <= k < SpanEnd(s, i, p) ==> p(s[k])
    ensures SpanEnd(s, i, p) < |s| ==> !p(s[SpanEnd(s, i, p)])
    decreases |s| - i
  {
    if i < |s| && p(s[i]) {
      SpanEndSpec(s, i + 1, p);
    }
  }

  /** SpanEnd is the first position from i on whose character fails p. */
  lemma {:induction false} SpanEndAt(s: string, i: nat, j: nat, p: char -> bool)
    requires i <= j <= |s|
    requires forall k :: i <= k < j ==> p(s[k])
    requires j == |s| || !p(s[j])
    ensures SpanEnd(s, i, p) == j
    decreases j - i
  {
    if i < j {
      SpanEndAt(s, i + 1, j, p);
    }
  }

  /** A run ends where it ends. */
  lemma SpanEndTwice(s: string, i: nat, p: char -> bool)
    requires i <= |s|
    ensures SpanEnd(s, SpanEnd(s, i, p), p) == SpanEnd(s, i, p)
  {
    SpanEndSpec(s, i, p);
  }

  /** SpanEnd on a suffix is SpanEnd on the whole, shifted. */
  lemma SpanEndShift(s: string, i: nat, p: char -> bool)
    requires i <= |s|
    ensures SpanEnd(s, i, p) == i + SpanEnd(s[i..], 0, p)
  {
    var j := SpanEnd(s[i..], 0, p);
    SpanEndSpec(s[i..], 0, p);
    assert forall k :: i <= k < i + j ==> s[k] == s[i..][k - i];
    if i + j < |s| {
      assert s[i + j] == s[i..][j];
    }
    SpanEndAt(s, i, i + j, p);
  }

  /** nom's `digit1` followed by `str::parse` at position i: the value of the non-empty
      digit run starting there and the position after it. */
  function NumberAt(s: string, i: nat): (r: Option<(nat, nat)>)
    requires i <= |s|
    ensures r.Some? ==> i < r.value.1 <= |s|
  {
    var b := SpanEnd(s, i, IsDigit);
    if b == i then None else Some((DecimalValue(s[i..b]), b))
  }

  /** `NumberAt` fails exactly when no digit is at position i; otherwise it reads the
      whole digit run there. */
  lemma NumberAtSpec(s: string, i: nat)
    requires i <= |s|
    ensures NumberAt(s, i).None? <==> i == |s| || !IsDigit(s[i])
    ensures NumberAt(s, i).Some? ==> var (v, b) := NumberAt(s, i).value;
              && AllDigits(s[i..b]) && v == DecimalValue(s[i..b])
              && (b == |s| || !IsDigit(s[b]))
  {
    SpanEndSpec(s, i, IsDigit);
  }

  /** The decimal digit for d. */
  function DigitChar(d: nat): (c: char)
    requires d < 10
    ensures IsDigit(c) && DigitValue(c) == d
  {
    ('0' as int + d) as char
  }

  /** The decimal notation of n, without leading zeros. */
  function DecimalString(n: nat): (s: string)
    ensures |s| >= 1 && AllDigits(s)
    decreases n
  {
    if n < 10 then [DigitChar(n)] else DecimalString(n / 10) + [DigitChar(n % 10)]
  }

  /** Reading back the decimal notation of n gives n. */
  lemma {:induction false} DecimalStringValue(n: nat)
    ensures DecimalValue(DecimalString(n)) == n
    decreases n
  {
    if n >= 10 {
      DecimalStringValue(n / 10);
      var s := DecimalString(n);
      assert s[..|s| - 1] == DecimalString(n / 10);
    }
  }

  /** `NumberAt` reads back a number written in decimal, when no digit follows it. */
  lemma NumberAtOf(s: string, i: nat, n: nat)
    requires i + |DecimalString(n)| <= |s| && s[i..i + |DecimalString(n)|] == DecimalString(n)
    requires i + |DecimalString(n)| == |s| || !IsDigit(s[i + |DecimalString(n)|])
    ensures NumberAt(s, i) == Some((n, i + |DecimalString(n)|))
  {
    var d := DecimalString(n);
    assert forall k :: i <= k < i + |d| ==> s[k] == d[k - i];
    SpanEndAt(s, i, i + |d|, IsDigit);
    DecimalStringValue(n);
  }

  /** nom's `tuple((space0, digit1, space0))` at position i: the number and the
      position after the spaces that follow it. */
  function SpacedNumber(s: string, i: nat): (r: Option<(nat, nat)>)
    requires i <= |s|
    ensures r.Some? ==> i < r.value.1 <= |s|
  {
    var number := NumberAt(s, SpanEnd(s, i, IsSpace));
    if number.None? then None else Some((number.value.0, SpanEnd(s, number.value.1, IsSpace)))
  }

  /** nom's `many0` of `SpacedNumber` from position i: the numbers read and the position
      where the first failing attempt started. */
  function SpacedNumbers(s: string, i: nat): (r: (seq<nat>, nat))
    requires i <= |s|
    ensures i <= r.1 <= |s|
    decreases |s| - i
  {
    match SpacedNumber(s, i)
    case None => ([], i)
    case Some((v, j)) =>
      var rest := SpacedNumbers(s, j);
      ([v] + rest.0, rest.1)
  }

  /** The numbers written in decimal, each after one space. */
  function Spaced(ns: seq<nat>): string
    decreases |ns|
  {
    if ns == [] then "" else " " + DecimalString(ns[0]) + Spaced(ns[1..])
  }

  /** Spaces in front change nothing about the numbers read, nor, when a number
      follows them, about where reading stops. */
  lemma SpacedNumbersFromSpaces(s: string, i: nat)
    requires i <= |s|
    ensures var q := SpanEnd(s, i, IsSpace);
            && SpacedNumbers(s, i).0 == SpacedNumbers(s, q).0
            && (SpacedNumber(s, i).Some? ==> SpacedNumbers(s, i) == SpacedNumbers(s, q))
  {
    var q := SpanEnd(s, i, IsSpace);
    SpanEndSpec(s, i, IsSpace);
    assert SpanEnd(s, q, IsSpace) == q;
  }

  /** A space in front changes nothing about the numbers read. */
  lemma SpacedNumbersAfterSpace(s: string, i: nat)
    requires i < |s| && IsSpace(s[i])
    ensures SpacedNumbers(s, i).0 == SpacedNumbers(s, i + 1).0
  {
    assert SpanEnd(s, i, IsSpace) == SpanEnd(s, i + 1, IsSpace);
    SpacedNumbersFromSpaces(s, i);
    SpacedNumbersFromSpaces(s, i + 1);
  }

  /** `SpacedNumber` reads back one space and a number written in decimal. */
  lemma SpacedNumberAt(s: string, i: nat, n: nat)
    requires i + 1 + |DecimalString(n)| <= |s| && s[i] == ' '
    requires s[i + 1..i + 1 + |DecimalString(n)|] == DecimalString(n)
    requires i + 1 + |DecimalString(n)| == |s| || !IsDigit(s[i + 1 + |DecimalString(n)|])
    ensures SpacedNumber(s, i) == Some((n, SpanEnd(s, i + 1 + |DecimalString(n)|, IsSpace)))
  {
    var d := DecimalString(n);
    assert s[i + 1] == d[0];
    SpanEndAt(s, i, i + 1, IsSpace);
    NumberAtOf(s, i + 1, n);
  }

  lemma SliceOfSlice<T>(s: seq<T>, i: nat, j: nat, a: nat, b: nat)
    requires i <= j <= |s| && a <= b <= j - i
    ensures s[i..j][a..b] == s[i + a..i + b]
  {
    forall k | 0 <= k < b - a
      ensures s[i..j][a..b][k] == s[i + a..i + b][k]
    {
      assert s[i..j][a..b][k] == s[i..j][a + k];
    }
  }

  /** The pieces of `Spaced(ns)` for a non-empty ns. */
  lemma SpacedPieces(ns: seq<nat>)
    requires ns != []
    ensures var d, t := DecimalString(ns[0]), Spaced(ns);
            && |t| == 1 + |d| + |Spaced(ns[1..])|
            && t[0] == ' '
            && t[1..1 + |d|] == d
            && t[1 + |d|..] == Spaced(ns[1..])
  {
  }

  /** `SpacedNumbers` reads back the numbers of `Spaced(ns)` written at position i, up
      to the first character that is neither a space nor a digit. */
  lemma {:induction false} SpacedNumbersAt(s: string, i: nat, ns: seq<nat>)
    requires i + |Spaced(ns)| <= |s| && s[i..i + |Spaced(ns)|] == Spaced(ns)
    requires var e := SpanEnd(s, i + |Spaced(ns)|, IsSpace); e == |s| || !IsDigit(s[e])
    ensures SpacedNumbers(s, i).0 == ns
    ensures SpacedNumbers(s, i).1 == if ns == [] then i else SpanEnd(s, i + |Spaced(ns)|, IsSpace)
    decreases |ns|
  {
    if ns == [] {
      NoSpacedNumber(s, i);
    } else {
      var rest := ns[1..];
      var j := SpacedStep(s, i, ns);
      SpacedNumbersAt(s, j, rest);
      SpacedNumbersCons(s, i, j, ns[0]);
      ConsRest(ns);
    }
  }

  lemma ConsRest<T>(ns: seq<T>)
    requires ns != []
    ensures ns == [ns[0]] + ns[1..]
  {
  }

  /** Reading from i, where a number v is followed by the spaces before j, gives v and
      then what reading from j gives. */
  lemma SpacedNumbersCons(s: string, i: nat, j: nat, v: nat)
    requires i <= |s| && j <= |s| && SpacedNumber(s, i) == Some((v, SpanEnd(s, j, IsSpace)))
    ensures SpacedNumbers(s, i).0 == [v] + SpacedNumbers(s, j).0
    ensures SpacedNumbers(s, i).1
            == if SpacedNumbers(s, j).0 == [] then SpanEnd(s, j, IsSpace) else SpacedNumbers(s, j).1
  {
    var q := SpanEnd(s, j, IsSpace);
    SpacedNumbersFromSpaces(s, j);
    if SpacedNumbers(s, j).0 == [] {
      assert SpacedNumbers(s, q).0 == [];
    } else {
      assert SpacedNumber(s, j).Some?;
    }
  }

  /** Where the spaces are followed by no digit, no number is read. */
  lemma NoSpacedNumber(s: string, i: nat)
    requires i <= |s|
    requires var e := SpanEnd(s, i, IsSpace); e == |s| || !IsDigit(s[e])
    ensures SpacedNumbers(s, i) == ([], i)
  {
  }

  /** The first number of `Spaced(ns)` written at position i, and where the others
      start. */
  lemma SpacedStep(s: string, i: nat, ns: seq<nat>) returns (j: nat)
    requires ns != []
    requires i + |Spaced(ns)| <= |s| && s[i..i + |Spaced(ns)|] == Spaced(ns)
    requires var e := SpanEnd(s, i + |Spaced(ns)|, IsSpace); e == |s| || !IsDigit(s[e])
    ensures j + |Spaced(ns[1..])| == i + |Spaced(ns)|
    ensures s[j..j + |Spaced(ns[1..])|] == Spaced(ns[1..])
    ensures SpacedNumber(s, i) == Some((ns[0], SpanEnd(s, j, IsSpace)))
  {
    j := SpacedSlices(s, i, ns);
    SpacedNumberAt(s, i, ns[0]);
  }

  /** Where the pieces of `Spaced(ns)` lie when it is written at position i. */
  lemma SpacedSlices(s: string, i: nat, ns: seq<nat>) returns (j: nat)
    requires ns != []
    requires i + |Spaced(ns)| <= |s| && s[i..i + |Spaced(ns)|] == Spaced(ns)
    requires i + |Spaced(ns)| == |s| || !IsDigit(s[i + |Spaced(ns)|])
    ensures j == i + 1 + |DecimalString(ns[0])|
    ensures j + |Spaced(ns[1..])| == i + |Spaced(ns)|
    ensures s[i] == ' ' && s[i + 1..j] == DecimalString(ns[0])
    ensures s[j..j + |Spaced(ns[1..])|] == Spaced(ns[1..])
    ensures j == |s| || !IsDigit(s[j])
  {
    var d := DecimalString(ns[0]);
    var t' := Spaced(ns[1..]);
    j := i + 1 + |d|;
    assert Spaced(ns) == " " + d + t';
    ThreePieces(s, i, " ", d, t');
    if ns[1..] != [] {
      SpacedPieces(ns[1..]);
      assert s[j] == t'[0];
    }
  }

  /** Where the three parts of a text written at position i lie. */
  lemma ThreePieces(s: string, i: nat, a: string, b: string, c: string)
    requires i + |a + b + c| <= |s| && s[i..i + |a + b + c|] == a + b + c
    ensures s[i..i + |a|] == a
    ensures s[i + |a|..i + |a| + |b|] == b
    ensures s[i + |a| + |b|..i + |a| + |b| + |c|] == c
  {
    var t := a + b + c;
    SliceOfSlice(s, i, i + |t|, 0, |a|);
    SliceOfSlice(s, i, i + |t|, |a|, |a| + |b|);
    SliceOfSlice(s, i, i + |t|, |a| + |b|, |t|);
    assert t[..|a|] == a && t[|a|..|a| + |b|] == b && t[|a| + |b|..] == c;
  }

  /** The same, for the text between a prefix and a rest that does not continue the
      list. */
  lemma SpacedNumbersOf(pre: string, ns: seq<nat>, rest: string)
    requires var e := SpanEnd(rest, 0, IsSpace); e == |rest| || !IsDigit(rest[e])
    ensures SpacedNumbers(pre + Spaced(ns) + rest, |pre|).0 == ns
    ensures SpacedNumbers(pre + Spaced(ns) + rest, |pre|).1
            == if ns == [] then |pre| else |pre| + |Spaced(ns)| + SpanEnd(rest, 0, IsSpace)
  {
    var t := Spaced(ns);
    MiddlePiece(pre, t, rest);
    SpacedNumbersBefore(pre + t + rest, |pre|, ns, rest);
  }

  /** Where the middle and the last part of a concatenation lie. */
  lemma MiddlePiece(pre: string, t: string, rest: string)
    ensures var s := pre + t + rest; s[|pre|..|pre| + |t|] == t && s[|pre| + |t|..] == rest
  {
  }

  lemma SpacedNumbersBefore(s: string, i: nat, ns: seq<nat>, rest: string)
    requires i + |Spaced(ns)| <= |s| && s[i..i + |Spaced(ns)|] == Spaced(ns)
    requires s[i + |Spaced(ns)|..] == rest
    requires var e := SpanEnd(rest, 0, IsSpace); e == |rest| || !IsDigit(rest[e])
    ensures SpacedNumbers(s, i).0 == ns
    ensures SpacedNumbers(s, i).1 == if ns == [] then i else i + |Spaced(ns)| + SpanEnd(rest, 0, IsSpace)
  {
    var e := i + |Spaced(ns)|;
    SpanEndShift(s, e, IsSpace);
    var f := SpanEnd(rest, 0, IsSpace);
    if f < |rest| {
      assert s[e + f] == rest[f];
    }
    SpacedNumbersAt(s, i, ns);
  }

  /** The digit run at the front of s. */
  function LeadingDigits(s: string): (d: string)
    ensures |d| <= |s| && d == s[..SpanLength(s, IsDigit)]
  {
    s[..SpanLength(s, IsDigit)]
  }

  lemma LeadingDigitsSpec(s: string)
    ensures AllDigits(LeadingDigits(s))
    ensures |LeadingDigits(s)| < |s| ==> !IsDigit(s[|LeadingDigits(s)|])
  {
    SpanLengthSpec(s, IsDigit);
  }

  function Sum(s: seq<int>): int
    decreases |s|
  {
    if s == [] then 0 else Sum(s[..|s| - 1]) + s[|s| - 1]
  }

  lemma {:induction false} SumNonNegative(s: seq<int>)
    requires forall i :: 0 <= i < |s| ==> s[i] >= 0
    ensures Sum(s) >= 0
    decreases |s|
  {
    if s != [] {
      SumNonNegative(s[..|s| - 1]);
    }
  }

  /** The least element: `Iterator::min` on a non-empty sequence. */
  function Minimum(s: seq<int>): int
    requires s != []
    decreases |s|
  {
    if |s| == 1 then s[0]
    else
      var m := Minimum(s[..|s| - 1]);
      if s[|s| - 1] < m then s[|s| - 1] else m
  }

  /** The minimum is one of the elements and no element is smaller. */
  lemma {:induction false} MinimumSpec(s: seq<int>)
    requires s != []
    ensures Minimum(s) in s
    ensures forall x :: x in s ==> Minimum(s) <= x
    decreases |s|
  {
    if |s| > 1 {
      var init, last := s[..|s| - 1], s[|s| - 1];
      MinimumSpec(init);
      assert s == init + [last];
      assert Minimum(init) in s;
      forall x | x in s
        ensures Minimum(s) <= x
      {
        if x != last {
          assert x in init;
        }
      }
    }
  }

  predicate StartsWith(s: string, prefix: string) {
    |prefix| <= |s| && s[..|prefix|] == prefix
  }

  /** `str::split` on a single separator character: the pieces between separators. */
  function Split(s: string, sep: char): (pieces: seq<string>)
    ensures |pieces| >= 1
    decreases |s|
  {
    if s == [] then [[]]
    else
      var rest := Split(s[1..], sep);
      if s[0] == sep then [[]] + rest else [[s[0]] + rest[0]] + rest[1..]
  }

  /** Gluing pieces back together with the separator between them. */
  function Join(pieces: seq<string>, sep: char): string
    decreases |pieces|
  {
    if pieces == [] then [] else if |pieces| == 1 then pieces[0] else pieces[0] + [sep] + Join(pieces[1..], sep)
  }

  /** `Split` loses nothing: no piece holds the separator, and joining the pieces with it
      gives back the input. */
  lemma {:induction false} SplitJoin(s: string, sep: char)
    ensures Join(Split(s, sep), sep) == s
    ensures forall k :: 0 <= k < |Split(s, sep)| ==> sep !in Split(s, sep)[k]
    decreases |s|
  {
    if s != [] {
      var rest := Split(s[1..], sep);
      SplitJoin(s[1..], sep);
      if s[0] == sep {
        assert Split(s, sep)[1..] == rest;
      } else {
        var pieces := Split(s, sep);
        assert pieces[1..] == rest[1..];
        forall k | 0 <= k < |pieces| ensures sep !in pieces[k] {
          if k > 0 { assert pieces[k] == rest[k]; }
        }
        if |rest| > 1 {
          assert rest[1..][0] == rest[1];
          assert Join(rest, sep) == rest[0] + [sep] + Join(rest[1..], sep);
        }
      }
    }
  }

  /** The sum of f over the items, or the failure of the first item f fails on: a
      solver loop that adds up one value per input line and panics on a bad line. */
  function SumAll<T>(items: seq<T>, f: T -> Result<int>): Result<int>
    decreases |items|
  {
    if items == [] then Ok(0)
    else
      match SumAll(items[..|items| - 1], f)
      case Err(e) => Err(e)
      case Ok(sum) =>
        match f(items[|items| - 1])
        case Err(e) => Err(e)
        case Ok(v) => Ok(sum + v)
  }

  lemma SumAllStep<T>(items: seq<T>, x: T, f: T -> Result<int>)
    requires SumAll(items, f).Ok?
    ensures f(x).Ok? ==> SumAll(items + [x], f) == Ok(SumAll(items, f).value + f(x).value)
    ensures f(x).Err? ==> SumAll(items + [x], f) == Err(f(x).error)
  {
    assert (items + [x])[..|items|] == items;
  }

  /** One step of a summing loop: the value of item k extends the sum of the items
      before it, or its failure is the failure of the whole sum. */
  lemma SumAllPush<T>(items: seq<T>, k: nat, f: T -> Result<int>, sum: int, v: Result<int>)
    requires k < |items| && SumAll(items[..k], f) == Ok(sum) && f(items[k]) == v
    ensures v.Ok? ==> SumAll(items[..k + 1], f) == Ok(sum + v.value)
    ensures v.Err? ==> SumAll(items, f) == Err(v.error)
  {
    assert items[..k + 1] == items[..k] + [items[k]];
    SumAllStep(items[..k], items[k], f);
    if v.Err? {
      SumAllFails(items, k + 1, f);
    }
  }

  /** Once a prefix fails, the whole sequence fails with the same message. */
  lemma {:induction false} SumAllFails<T>(items: seq<T>, n: nat, f: T -> Result<int>)
    requires n <= |items| && SumAll(items[..n], f).Err?
    ensures SumAll(items, f) == SumAll(items[..n], f)
    decreases |items| - n
  {
    if n < |items| {
      assert items[..n + 1][..n] == items[..n];
      SumAllFails(items, n + 1, f);
    } else {
      assert items[..n] == items;
    }
  }

  /** The sum succeeds exactly when every item does. */
  lemma {:induction false} SumAllOk<T>(items: seq<T>, f: T -> Result<int>)
    ensures SumAll(items, f).Ok? <==> forall k :: 0 <= k < |items| ==> f(items[k]).Ok?
    decreases |items|
  {
    if items != [] {
      var init := items[..|items| - 1];
      SumAllOk(init, f);
      assert forall k :: 0 <= k < |init| ==> init[k] == items[k];
    }
  }

  /** The loop shared by the solvers that add up one value per input line and stop at
      the first line that fails: `for line in lines { sum += value(line)?; }`. */
  method SumLines<T>(items: seq<T>, f: T -> Result<int>) returns (r: Result<int>)
    ensures r == SumAll(items, f)
  {
    var sum := 0;
    for k := 0 to |items|
      invariant SumAll(items[..k], f) == Ok(sum)
    {
      assert items[..k + 1] == items[..k] + [items[k]];
      SumAllStep(items[..k], items[k], f);
      var v := f(items[k]);
      if v.Err? {
        SumAllFails(items, k + 1, f);
        return Err(v.error);
      }
      sum := sum + v.value;
    }
    assert items[..|items|] == items;
    r := Ok(sum);
  }
}
