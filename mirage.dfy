/** Mirage Maintenance: every line is a history of integers; its next value is found
    by taking differences until a row is all zero and adding up the last elements of
    the rows on the way back. The answer is the sum of these predictions. */
module Mirage {
  import opened Wrappers
  import opened Text

  // ---------------------------------------------------------------- parsing

  predicate IsDash(c: char) {
    c == '-'
  }

  /** One item of `parse_history`: spaces, any number of dashes, a digit run, spaces.
      The value is negated when at least one dash precedes the digits. */
  function HistoryItem(s: string, i: nat): (r: Option<(int, nat)>)
    requires i <= |s|
    ensures r.Some? ==> i < r.value.1 <= |s|
  {
    var j := SpanEnd(s, i, IsSpace);
    var k := SpanEnd(s, j, IsDash);
    match NumberAt(s, k)
    case None => None
    case Some((v, e)) =>
      var value := if k == j then v as int else -(v as int);
      Some((value, SpanEnd(s, e, IsSpace)))
  }

  /** nom's `many0` loop over the items from position i: the values and where the first
      failing attempt started. */
  function HistoryItems(s: string, i: nat): (r: (seq<int>, nat))
    requires i <= |s|
    ensures i <= r.1 <= |s|
    decreases |s| - i
  {
    match HistoryItem(s, i)
    case None => ([], i)
    case Some((v, j)) =>
      var rest := HistoryItems(s, j);
      ([v] + rest.0, rest.1)
  }

  /** `parse_history` with the panic of `solve`: `many1` fails when not even one item
      can be read; what follows the items is ignored. */
  function ParseHistory(line: string): Result<seq<int>> {
    var (values, _) := HistoryItems(line, 0);
    if values == [] then Err("Could not parse input line") else Ok(values)
  }

  /** The notation of a value: a dash for a negative one, then its digits. */
  function Signed(v: int): (s: string)
    ensures |s| >= 1 && (IsDigit(s[0]) || s[0] == '-')
  {
    (if v < 0 then "-" else "") + DecimalString(if v < 0 then -v else v)
  }

  /** Values written with one space between them. */
  function HistoryLine(values: seq<int>): string
    decreases |values|
  {
    if values == [] then ""
    else if |values| == 1 then Signed(values[0])
    else Signed(values[0]) + " " + HistoryLine(values[1..])
  }

  /** A value written at i, followed by the end of the line or by a space, is read back
      together with the spaces after it. */
  lemma ItemAt(s: string, i: nat, v: int)
    requires i + |Signed(v)| <= |s| && s[i..i + |Signed(v)|] == Signed(v)
    requires i + |Signed(v)| == |s| || s[i + |Signed(v)|] == ' '
    ensures HistoryItem(s, i) == Some((v, SpanEnd(s, i + |Signed(v)|, IsSpace)))
  {
    var n := if v < 0 then -v else v;
    var d := DecimalString(n);
    var k := if v < 0 then i + 1 else i;
    assert s[k..k + |d|] == d by {
      assert Signed(v)[k - i..] == d;
      SliceOfSlice(s, i, i + |Signed(v)|, k - i, |Signed(v)|);
    }
    assert SpanEnd(s, i, IsSpace) == i by {
      assert s[i] == Signed(v)[0];
    }
    assert SpanEnd(s, i, IsDash) == k by {
      assert s[k] == d[0];
      if v < 0 {
        assert s[i] == '-';
        SpanEndAt(s, i, i + 1, IsDash);
      }
    }
    NumberAtOf(s, k, n);
  }

  /** A non-empty list of values written out is read back, to the end of the line. */
  lemma {:induction false} HistoryItemsOf(s: string, i: nat, values: seq<int>)
    requires i <= |s| && s[i..] == HistoryLine(values)
    ensures HistoryItems(s, i) == (values, |s|)
    decreases |values|
  {
    if values == [] {
      NoItemAtEnd(s, i);
    } else if |values| == 1 {
      SingleItemOf(s, i, values);
    } else {
      var next := ItemThenRest(s, i, values);
      HistoryItemsOf(s, next, values[1..]);
      ConsItemsOf(s, i, values, next);
    }
  }

  lemma SingleItemOf(s: string, i: nat, values: seq<int>)
    requires |values| == 1 && i <= |s| && s[i..] == HistoryLine(values)
    ensures HistoryItems(s, i) == (values, |s|)
  {
    var end := LastItem(s, i, values[0]);
    HistoryItemsCons(s, i, values[0], end);
    NoItemAtEnd(s, end);
    assert [values[0]] + [] == values;
  }

  lemma ConsItemsOf(s: string, i: nat, values: seq<int>, next: nat)
    requires |values| >= 1 && i <= |s| && HistoryItem(s, i) == Some((values[0], next))
    requires HistoryItems(s, next) == (values[1..], |s|)
    ensures HistoryItems(s, i) == (values, |s|)
  {
    HistoryItemsCons(s, i, values[0], next);
    assert [values[0]] + values[1..] == values;
  }

  lemma NoItemAtEnd(s: string, i: nat)
    requires i <= |s| && |s[i..]| == 0
    ensures i == |s| && HistoryItems(s, i) == ([], i)
  {
    assert NumberAt(s, i) == None;
  }

  /** The last value of a written history is read back up to the end of the line. */
  lemma LastItem(s: string, i: nat, v: int) returns (end: nat)
    requires i <= |s| && s[i..] == Signed(v)
    ensures end == |s| && HistoryItem(s, i) == Some((v, end))
  {
    end := |s|;
    assert s[i..i + |Signed(v)|] == Signed(v);
    ItemAt(s, i, v);
  }

  /** A value followed by more values is read back with the space after it. */
  lemma ItemThenRest(s: string, i: nat, values: seq<int>) returns (next: nat)
    requires |values| >= 2 && i <= |s| && s[i..] == HistoryLine(values)
    ensures next <= |s| && HistoryItem(s, i) == Some((values[0], next)) && s[next..] == HistoryLine(values[1..])
  {
    var v, rest := values[0], values[1..];
    var e := i + |Signed(v)|;
    next := e + 1;
    HistoryLinePieces(values);
    SuffixPieces(s, i, HistoryLine(values), |Signed(v)|);
    assert s[e + 1] == Signed(rest[0])[0] by {
      assert s[e + 1..][0] == HistoryLine(rest)[0];
    }
    ItemBeforeSpace(s, i, v, e);
  }

  /** A value written at i and followed by one space and then a non-space is read back
      up to that non-space. */
  lemma ItemBeforeSpace(s: string, i: nat, v: int, e: nat)
    requires e == i + |Signed(v)| && e + 1 < |s| && s[i..e] == Signed(v)
    requires s[e] == ' ' && !IsSpace(s[e + 1])
    ensures HistoryItem(s, i) == Some((v, e + 1))
  {
    ItemAt(s, i, v);
    SpanEndAt(s, e, e + 1, IsSpace);
  }

  lemma HistoryItemsCons(s: string, i: nat, v: int, next: nat)
    requires i <= |s| && HistoryItem(s, i) == Some((v, next))
    ensures HistoryItems(s, i) == ([v] + HistoryItems(s, next).0, HistoryItems(s, next).1)
  {
  }

  lemma HistoryLinePieces(values: seq<int>)
    requires |values| >= 2
    ensures var line, a := HistoryLine(values), |Signed(values[0])|;
            a < |line| && line[..a] == Signed(values[0]) && line[a] == ' ' && line[a + 1..] == HistoryLine(values[1..])
  {
  }

  lemma SuffixPieces(s: string, i: nat, h: string, a: nat)
    requires i <= |s| && s[i..] == h && a < |h|
    ensures s[i..i + a] == h[..a] && s[i + a] == h[a] && s[i + a + 1..] == h[a + 1..]
  {
    assert s[i..i + a] == s[i..][..a];
    assert s[i + a + 1..] == s[i..][a + 1..];
  }

  /** Reading a written history gives it back: the sign of each value survives as a dash
      exactly when the value is negative. */
  lemma ParseHistoryRoundTrip(values: seq<int>)
    requires values != []
    ensures ParseHistory(HistoryLine(values)) == Ok(values)
  {
    var s := HistoryLine(values);
    assert s[0..] == s;
    HistoryItemsOf(s, 0, values);
  }

  // ---------------------------------------------------------------- differences

  /** `windows(2).map(|w| w[1] - w[0])`. */
  function Diffs(s: seq<int>): (d: seq<int>)
    ensures |d| == if s == [] then 0 else |s| - 1
    decreases |s|
  {
    if |s| < 2 then [] else [s[1] - s[0]] + Diffs(s[1..])
  }

  /** Entry i of the differences is the step from entry i to entry i + 1. */
  lemma {:induction false} DiffsAt(s: seq<int>, i: nat)
    requires i + 1 < |s|
    ensures Diffs(s)[i] == s[i + 1] - s[i]
    decreases i
  {
    if i > 0 {
      DiffsAt(s[1..], i - 1);
    }
  }

  predicate AllZero(s: seq<int>) {
    forall i :: 0 <= i < |s| ==> s[i] == 0
  }

  /** The n-th difference row. */
  function DiffN(s: seq<int>, n: nat): seq<int>
    decreases n
  {
    if n == 0 then s else DiffN(Diffs(s), n - 1)
  }

  lemma {:induction false} DiffNLength(s: seq<int>, n: nat)
    ensures |DiffN(s, n)| == if n <= |s| then |s| - n else 0
    decreases n
  {
    if n > 0 {
      DiffNLength(Diffs(s), n - 1);
    }
  }

  lemma {:induction false} DiffNSucc(s: seq<int>, n: nat)
    ensures DiffN(s, n + 1) == Diffs(DiffN(s, n))
    decreases n
  {
    if n > 0 {
      DiffNSucc(Diffs(s), n - 1);
    }
  }

  /** The prediction: the last value plus the prediction of the difference row, which
      is zero once that row is all zero. */
  function Predict(h: seq<int>): int
    requires h != []
    decreases |h|
  {
    h[|h| - 1] + if AllZero(Diffs(h)) then 0 else Predict(Diffs(h))
  }

  /** `extrapolate` as a value: it panics unless the history has two values. */
  function Extrapolation(h: seq<int>): Result<int> {
    if |h| < 2 then Err("Should not be empty") else Ok(Predict(h))
  }

  /** The value x must take so that the n-th difference row of h + [x] ends in zero. */
  function Completion(s: seq<int>, n: nat): int
    requires n <= |s|
    decreases n
  {
    if n == 0 then 0 else s[|s| - 1] + Completion(Diffs(s), n - 1)
  }

  lemma {:induction false} DiffsAppend(s: seq<int>, x: int)
    requires s != []
    ensures Diffs(s + [x]) == Diffs(s) + [x - s[|s| - 1]]
    decreases |s|
  {
    if |s| >= 2 {
      assert (s + [x])[1..] == s[1..] + [x];
      DiffsAppend(s[1..], x);
    }
  }

  /** Appending x appends one value to every difference row up to the n-th, and there
      it is x less the completion. */
  lemma {:induction false} AppendDiffN(s: seq<int>, x: int, n: nat)
    requires n <= |s|
    ensures DiffN(s + [x], n) == DiffN(s, n) + [x - Completion(s, n)]
    decreases n
  {
    if n > 0 {
      DiffsAppend(s, x);
      AppendDiffN(Diffs(s), x - s[|s| - 1], n - 1);
    }
  }

  lemma DiffsOfZeros(z: seq<int>)
    requires AllZero(z)
    ensures AllZero(Diffs(z))
  {
  }

  lemma {:induction false} CompletionOfZeros(z: seq<int>, n: nat)
    requires AllZero(z) && n <= |z|
    ensures Completion(z, n) == 0
    decreases n
  {
    if n > 0 {
      DiffsOfZeros(z);
      CompletionOfZeros(Diffs(z), n - 1);
    }
  }

  lemma PredictOfZeros(z: seq<int>)
    requires z != [] && AllZero(z)
    ensures Predict(z) == 0
  {
    DiffsOfZeros(z);
  }

  /** Whenever the n-th differences of h vanish, the prediction is the completion at n. */
  lemma {:induction false} PredictIsCompletion(h: seq<int>, n: nat)
    requires h != [] && n <= |h| && AllZero(DiffN(h, n))
    ensures Predict(h) == Completion(h, n)
    decreases |h|
  {
    if n == 0 {
      PredictOfZeros(h);
    } else if AllZero(Diffs(h)) {
      CompletionOfZeros(Diffs(h), n - 1);
    } else {
      PredictIsCompletion(Diffs(h), n - 1);
    }
  }

  /** The prediction is the one next value that keeps a vanishing row of differences all
      zero: for every n at which the differences of h vanish, the n-th differences of
      h + [x] vanish exactly when x is the prediction. */
  lemma ExtrapolationSpec(h: seq<int>, n: nat, x: int)
    requires |h| >= 2 && n <= |h| && AllZero(DiffN(h, n))
    ensures AllZero(DiffN(h + [x], n)) <==> Extrapolation(h) == Ok(x)
  {
    AppendDiffN(h, x, n);
    PredictIsCompletion(h, n);
    var row := DiffN(h + [x], n);
    assert row[|row| - 1] == x - Completion(h, n);
  }

  /** Such an n always exists: the differences run out after |h| steps. */
  lemma DiffsVanish(h: seq<int>)
    ensures AllZero(DiffN(h, |h|))
  {
    DiffNLength(h, |h|);
  }

  /** The rows `extrapolate` stores for h: the first difference row, then every later
      one that is not all zero, up to the row after which the differences vanish. */
  predicate StoredRows(h: seq<int>, rows: seq<seq<int>>) {
    && |rows| >= 1
    && (forall i :: 0 <= i < |rows| ==> rows[i] == DiffN(h, i + 1))
    && (forall i :: 1 <= i < |rows| ==> !AllZero(rows[i]))
    && AllZero(Diffs(rows[|rows| - 1]))
  }

  /** Popping row m - 1 adds its last element to the prediction of the row below it,
      which gives the prediction of row m - 1. */
  lemma PopStep(h: seq<int>, rows: seq<seq<int>>, m: nat, below: int)
    requires StoredRows(h, rows) && 1 <= m <= |rows| && rows[m - 1] != []
    requires m == |rows| ==> below == 0
    requires m < |rows| ==> rows[m] != [] && below == Predict(rows[m])
    ensures below + rows[m - 1][|rows[m - 1]| - 1] == Predict(rows[m - 1])
  {
    if m < |rows| {
      DiffNSucc(h, m);
      assert Diffs(rows[m - 1]) == rows[m];
    }
  }

  /** `extrapolate`: stores the first difference row and every later one up to the
      first all-zero row, then pops them, adding up their last elements. */
  method Extrapolate(history: seq<int>) returns (r: Result<int>)
    ensures r == Extrapolation(history)
  {
    var interval := Diffs(history);
    var intervals := [interval];
    while true
      invariant |intervals| >= 1
      invariant forall i :: 0 <= i < |intervals| ==> intervals[i] == DiffN(history, i + 1)
      invariant forall i :: 1 <= i < |intervals| ==> !AllZero(intervals[i])
      invariant interval == DiffN(history, |intervals|)
      decreases |interval|
    {
      DiffNSucc(history, |intervals|);
      interval := Diffs(interval);
      if AllZero(interval) {
        break;
      }
      intervals := intervals + [interval];
    }
    ghost var rows := intervals;
    assert StoredRows(history, rows);
    var nextInterval := 0;
    while intervals != []
      invariant |intervals| <= |rows| && intervals == rows[..|intervals|]
      invariant |intervals| == |rows| ==> nextInterval == 0
      invariant |intervals| < |rows| ==> rows[|intervals|] != [] && nextInterval == Predict(rows[|intervals|])
      decreases |intervals|
    {
      var m := |intervals|;
      var row := intervals[m - 1];
      intervals := intervals[..m - 1];
      if row == [] {
        assert m == 1 && Diffs(history) == [];
        return Err("Should not be empty");
      }
      PopStep(history, rows, m, nextInterval);
      nextInterval := nextInterval + row[|row| - 1];
    }
    assert rows[0] == Diffs(history);
    if AllZero(Diffs(history)) {
      PredictOfZeros(Diffs(history));
    }
    r := Ok(history[|history| - 1] + nextInterval);
  }

  // ---------------------------------------------------------------- solve

  /** One line of `solve`: parse it (panicking with "Could not parse input line"),
      then extrapolate. */
  function LineValue(line: string): Result<int> {
    match ParseHistory(line)
    case Err(e) => Err(e)
    case Ok(h) => Extrapolation(h)
  }

  /** `solve`: the sum of the predictions of all lines, each line parsed and then
      extrapolated; the first line that panics ends it. */
  method Solve(lines: seq<string>) returns (r: Result<int>)
    ensures r == SumAll(lines, LineValue)
  {
    r := SumLines(lines, LineValue);
  }

  /** The example: the three histories predict 18, 28 and 68, which add up to 114. */
  lemma Example()
    ensures Extrapolation([0, 3, 6, 9, 12, 15]) == Ok(18)
    ensures Extrapolation([1, 3, 6, 10, 15, 21]) == Ok(28)
    ensures Extrapolation([10, 13, 16, 21, 30, 45]) == Ok(68)
  {
    ExampleFirst();
    ExampleSecond();
    ExampleThird();
  }

  lemma ExampleFirst()
    ensures Predict([0, 3, 6, 9, 12, 15]) == 18
  {
    PredictStep([0, 3, 6, 9, 12, 15], [3, 3, 3, 3, 3]);
    PredictConstant([3, 3, 3, 3, 3]);
  }

  lemma ExampleSecond()
    ensures Predict([1, 3, 6, 10, 15, 21]) == 28
  {
    SecondRows();
    PredictConstant([1, 1, 1, 1]);
  }

  lemma SecondRows()
    ensures Predict([1, 3, 6, 10, 15, 21]) == 27 + Predict([1, 1, 1, 1])
  {
    PredictStep([1, 3, 6, 10, 15, 21], [2, 3, 4, 5, 6]);
    PredictStep([2, 3, 4, 5, 6], [1, 1, 1, 1]);
  }

  lemma ExampleThird()
    ensures Predict([10, 13, 16, 21, 30, 45]) == 68
  {
    ThirdTopRows();
    ThirdBottomRows();
    PredictConstant([2, 2, 2]);
  }

  lemma ThirdTopRows()
    ensures Predict([10, 13, 16, 21, 30, 45]) == 60 + Predict([0, 2, 4, 6])
  {
    PredictStep([10, 13, 16, 21, 30, 45], [3, 3, 5, 9, 15]);
    PredictStep([3, 3, 5, 9, 15], [0, 2, 4, 6]);
  }

  lemma ThirdBottomRows()
    ensures Predict([0, 2, 4, 6]) == 6 + Predict([2, 2, 2])
  {
    PredictStep([0, 2, 4, 6], [2, 2, 2]);
  }

  /** One row of the example: its differences are d, and d is not all zero. */
  lemma PredictStep(h: seq<int>, d: seq<int>)
    requires |h| >= 2 && |d| == |h| - 1 && forall i :: 0 <= i < |d| ==> d[i] == h[i + 1] - h[i]
    requires d[|d| - 1] != 0
    ensures Predict(h) == h[|h| - 1] + Predict(d)
  {
    DiffsEqual(h, d);
  }

  lemma DiffsEqual(h: seq<int>, d: seq<int>)
    requires |h| >= 1 && |d| == |h| - 1 && forall i :: 0 <= i < |d| ==> d[i] == h[i + 1] - h[i]
    ensures Diffs(h) == d
  {
    forall i | 0 <= i < |d|
      ensures Diffs(h)[i] == d[i]
    {
      DiffsAt(h, i);
    }
  }

  lemma PredictConstant(d: seq<int>)
    requires |d| >= 1 && forall i :: 0 <= i < |d| ==> d[i] == d[0]
    ensures Predict(d) == d[0]
  {
    var z := Diffs(d);
    assert AllZero(z) by {
      forall i | 0 <= i < |z|
        ensures z[i] == 0
      {
        DiffsAt(d, i);
      }
    }
  }
}
