/** Engine schematic: a grid of digits, '.' and symbols. Numbers are the maximal runs of
    digits on a line; parts are the symbols. Part 1 sums the numbers next to any part;
    part 2 sums, over the '*' parts next to exactly two numbers, the product of those two
    numbers. Columns and rows are counted from 0. */
module GearRatios {
  import opened Text

  /** `EnginePart`: a symbol and its column and row. */
  datatype EnginePart = EnginePart(x: int, y: int, value: char)

  /** `EnginePartNumber`: the columns of the first and last digit, the row and the value. */
  datatype PartNumber = PartNumber(x_min: int, x_max: int, y: int, value: nat)

  predicate NotDigit(c: char) { !IsDigit(c) }

  /** `is_not_engine_part`: digits and '.' are not parts. */
  predicate NotPart(c: char) { IsDigit(c) || c == '.' }

  /** A character recorded as a part. */
  predicate IsSymbol(c: char) { !NotPart(c) }

  // ------------------------------------------------------------- number parser

  /** The end of `take_till(is_digit)` started at column i: the first digit at or after
      i, or the end of the line. */
  function DigitFrom(line: string, i: nat): (j: nat)
    requires i <= |line|
    ensures i <= j <= |line|
    decreases |line| - i
  {
    if i == |line| || IsDigit(line[i]) then i else DigitFrom(line, i + 1)
  }

  /** The end of `take_while(is_digit)` started at column i. */
  function NonDigitFrom(line: string, i: nat): (j: nat)
    requires i <= |line|
    ensures i <= j <= |line|
    decreases |line| - i
  {
    if i == |line| || !IsDigit(line[i]) then i else NonDigitFrom(line, i + 1)
  }

  lemma {:induction false} DigitFromSpec(line: string, i: nat)
    requires i <= |line|
    ensures forall k :: i <= k < DigitFrom(line, i) ==> !IsDigit(line[k])
    ensures DigitFrom(line, i) < |line| ==> IsDigit(line[DigitFrom(line, i)])
    decreases |line| - i
  {
    if i < |line| && !IsDigit(line[i]) {
      DigitFromSpec(line, i + 1);
    }
  }

  lemma {:induction false} NonDigitFromSpec(line: string, i: nat)
    requires i <= |line|
    ensures forall k :: i <= k < NonDigitFrom(line, i) ==> IsDigit(line[k])
    ensures NonDigitFrom(line, i) < |line| ==> !IsDigit(line[NonDigitFrom(line, i)])
    decreases |line| - i
  {
    if i < |line| && IsDigit(line[i]) {
      NonDigitFromSpec(line, i + 1);
    }
  }

  /** `many0(next_engine_part_number)` on the line from column i on: (length of the
      non-digit gap, following digit run) pairs. `next_engine_part_number` fails only on
      the empty rest, and always consumes something otherwise; only the last pair can
      have an empty digit run. */
  function NumberEntries(line: string, i: nat): seq<(nat, string)>
    requires i <= |line|
    decreases |line| - i
  {
    if i == |line| then []
    else
      var a := DigitFrom(line, i);
      var b := NonDigitFrom(line, a);
      [(a - i, line[a..b])] + NumberEntries(line, b)
  }

  /** `EnginePartNumber::new`: the last digit is at x + width - 1. */
  function NewPartNumber(x: int, y: int, digits: string): PartNumber {
    PartNumber(x, x + |digits| - 1, y, DecimalValue(digits))
  }

  /** The numbers the loop of `engine_part_number_parser` pushes for the given entries
      when the running column is x: a non-empty run is pushed at x plus its gap, and x
      then moves past the run. */
  function NumbersAt(entries: seq<(nat, string)>, x: int, y: int): seq<PartNumber>
    decreases |entries|
  {
    if entries == [] then []
    else
      var (g, d) := entries[0];
      if d != [] then [NewPartNumber(x + g, y, d)] + NumbersAt(entries[1..], x + g + |d|, y)
      else NumbersAt(entries[1..], x, y)
  }

  /** The numbers found from column i on. */
  function NumbersFrom(line: string, i: nat, y: int): seq<PartNumber>
    requires i <= |line|
  {
    NumbersAt(NumberEntries(line, i), i, y)
  }

  function NumbersOf(line: string, y: int): seq<PartNumber> {
    NumbersFrom(line, 0, y)
  }

  /** `engine_part_number_parser`: walks the entries with a running column. */
  method ParseNumbers(line: string, y: int) returns (res: seq<PartNumber>)
    ensures res == NumbersOf(line, y)
  {
    var entries := NumberEntries(line, 0);
    var current_x := 0;
    res := [];
    for k := 0 to |entries|
      invariant res + NumbersAt(entries[k..], current_x, y) == NumbersOf(line, y)
    {
      assert entries[k..] == [entries[k]] + entries[k + 1..];
      var (g, d) := entries[k];
      if d != [] {
        current_x := current_x + g;
        res := res + [NewPartNumber(current_x, y, d)];
      }
      current_x := current_x + |d|;
    }
  }

  /** n is a maximal run of digits of the line, and its value is the number they write. */
  predicate IsRun(line: string, n: PartNumber) {
    0 <= n.x_min <= n.x_max < |line|
    && AllDigits(line[n.x_min..n.x_max + 1])
    && (n.x_min == 0 || !IsDigit(line[n.x_min - 1]))
    && (n.x_max + 1 == |line| || !IsDigit(line[n.x_max + 1]))
    && n.value == DecimalValue(line[n.x_min..n.x_max + 1])
  }

  /** One turn of the loop: the number of the entry at i (if its run is not empty),
      then the numbers after it; the run is empty only when the gap reaches the end. */
  lemma NumbersFromStep(line: string, i: nat, y: int)
    requires i < |line|
    ensures var a := DigitFrom(line, i);
            var b := NonDigitFrom(line, a);
            && (a == b <==> a == |line|)
            && NumbersFrom(line, i, y) ==
                 (if a == b then [] else [NewPartNumber(a, y, line[a..b])] + NumbersFrom(line, b, y))
  {
    var a := DigitFrom(line, i);
    var b := NonDigitFrom(line, a);
    DigitFromSpec(line, i);
    var entries := NumberEntries(line, i);
    assert entries == [(a - i, line[a..b])] + NumberEntries(line, b);
    if a == b {
      assert entries[1..] == [];
      assert entries[0].1 == [];
      assert NumbersAt(entries, i, y) == NumbersAt(entries[1..], i, y);
    } else {
      assert entries[1..] == NumberEntries(line, b);
    }
  }

  /** Every number found from i on is a maximal digit run at or after i. */
  lemma {:induction false} NumbersFromAreRuns(line: string, i: nat, y: int, n: PartNumber)
    requires i <= |line|
    requires i == 0 || i == |line| || !IsDigit(line[i])
    requires n in NumbersFrom(line, i, y)
    ensures n.y == y && IsRun(line, n) && i <= n.x_min
    decreases |line| - i
  {
    NumbersFromStep(line, i, y);
    var a := DigitFrom(line, i);
    var b := NonDigitFrom(line, a);
    DigitFromSpec(line, i);
    NonDigitFromSpec(line, a);
    if n == NewPartNumber(a, y, line[a..b]) {
      assert line[n.x_min..n.x_max + 1] == line[a..b];
    } else {
      NumbersFromAreRuns(line, b, y, n);
    }
  }

  /** A number found from i on starts on a digit at or after i. */
  lemma NumberStartsOnDigit(line: string, i: nat, y: int, n: PartNumber)
    requires i <= |line|
    requires i == 0 || i == |line| || !IsDigit(line[i])
    requires n in NumbersFrom(line, i, y)
    ensures i <= n.x_min < |line| && IsDigit(line[n.x_min])
  {
    NumbersFromAreRuns(line, i, y, n);
    assert line[n.x_min] == line[n.x_min..n.x_max + 1][0];
  }

  /** The numbers found from i on are in increasing column order, with at least one
      column between two of them. */
  lemma {:induction false} NumbersFromOrdered(line: string, i: nat, y: int, k: nat)
    requires i <= |line|
    requires i == 0 || i == |line| || !IsDigit(line[i])
    requires k + 1 < |NumbersFrom(line, i, y)|
    ensures NumbersFrom(line, i, y)[k].x_max + 1 < NumbersFrom(line, i, y)[k + 1].x_min
    decreases |line| - i
  {
    NumbersFromStep(line, i, y);
    var a := DigitFrom(line, i);
    var b := NonDigitFrom(line, a);
    NonDigitFromSpec(line, a);
    var rest := NumbersFrom(line, b, y);
    assert NumbersFrom(line, i, y)[k + 1] == rest[k];
    if k == 0 {
      NumberStartsOnDigit(line, b, y, rest[0]);
    } else {
      NumbersFromOrdered(line, b, y, k - 1);
    }
  }

  /** Every digit from i on lies in a number found from i on. */
  lemma {:induction false} NumbersFromCover(line: string, i: nat, y: int, j: nat)
    requires i <= j < |line| && IsDigit(line[j])
    ensures exists n :: n in NumbersFrom(line, i, y) && n.x_min <= j <= n.x_max
    decreases |line| - i
  {
    NumbersFromStep(line, i, y);
    var a := DigitFrom(line, i);
    var b := NonDigitFrom(line, a);
    DigitFromSpec(line, i);
    if j >= b {
      NumbersFromCover(line, b, y, j);
    } else {
      assert NewPartNumber(a, y, line[a..b]) in NumbersFrom(line, i, y);
    }
  }

  /** The numbers of one line, as `engine_part_number_parser` reports them: exactly the
      maximal digit runs, left to right. */
  lemma NumbersOfSpec(line: string, y: int)
    ensures forall n :: n in NumbersOf(line, y) ==> n.y == y && IsRun(line, n)
    ensures forall k :: 0 <= k < |NumbersOf(line, y)| - 1 ==>
              NumbersOf(line, y)[k].x_max + 1 < NumbersOf(line, y)[k + 1].x_min
    ensures forall j :: 0 <= j < |line| && IsDigit(line[j]) ==>
              exists n :: n in NumbersOf(line, y) && n.x_min <= j <= n.x_max
  {
    forall n | n in NumbersOf(line, y) ensures n.y == y && IsRun(line, n) {
      NumbersFromAreRuns(line, 0, y, n);
    }
    forall k | 0 <= k < |NumbersOf(line, y)| - 1
      ensures NumbersOf(line, y)[k].x_max + 1 < NumbersOf(line, y)[k + 1].x_min
    {
      NumbersFromOrdered(line, 0, y, k);
    }
    forall j | 0 <= j < |line| && IsDigit(line[j])
      ensures exists n :: n in NumbersOf(line, y) && n.x_min <= j <= n.x_max
    {
      NumbersFromCover(line, 0, y, j);
    }
  }

  // --------------------------------------------------------------- part parser

  /** The end of `take_while(is_not_engine_part)` started at column i: the first symbol
      at or after i, or the end of the line. */
  function SymbolFrom(line: string, i: nat): (j: nat)
    requires i <= |line|
    ensures i <= j <= |line|
    decreases |line| - i
  {
    if i == |line| || IsSymbol(line[i]) then i else SymbolFrom(line, i + 1)
  }

  lemma {:induction false} SymbolFromSpec(line: string, i: nat)
    requires i <= |line|
    ensures forall k :: i <= k < SymbolFrom(line, i) ==> NotPart(line[k])
    ensures SymbolFrom(line, i) < |line| ==> IsSymbol(line[SymbolFrom(line, i)])
    decreases |line| - i
  {
    if i < |line| && !IsSymbol(line[i]) {
      SymbolFromSpec(line, i + 1);
    }
  }

  /** `many0(next_engine_part)` on the line from column i on: (gap of digits and '.',
      symbol) pairs; when no symbol follows the gap `anychar` fails and the list ends. */
  function PartEntries(line: string, i: nat): seq<(nat, char)>
    requires i <= |line|
    decreases |line| - i
  {
    if i == |line| then []
    else
      var a := SymbolFrom(line, i);
      if a == |line| then [] else [(a - i, line[a])] + PartEntries(line, a + 1)
  }

  /** The parts the loop of `engine_part_parser` pushes when the running column is x. */
  function PartsAt(entries: seq<(nat, char)>, x: int, y: int): seq<EnginePart>
    decreases |entries|
  {
    if entries == [] then []
    else [EnginePart(x + entries[0].0, y, entries[0].1)] + PartsAt(entries[1..], x + entries[0].0 + 1, y)
  }

  /** The parts found from column i on. */
  function PartsFrom(line: string, i: nat, y: int): seq<EnginePart>
    requires i <= |line|
  {
    PartsAt(PartEntries(line, i), i, y)
  }

  function PartsOf(line: string, y: int): seq<EnginePart> {
    PartsFrom(line, 0, y)
  }

  /** `engine_part_parser`: walks the entries with a running column. */
  method ParseParts(line: string, y: int) returns (res: seq<EnginePart>)
    ensures res == PartsOf(line, y)
  {
    var entries := PartEntries(line, 0);
    var current_x := 0;
    res := [];
    for k := 0 to |entries|
      invariant res + PartsAt(entries[k..], current_x, y) == PartsOf(line, y)
    {
      assert entries[k..] == [entries[k]] + entries[k + 1..];
      var (g, symbol) := entries[k];
      current_x := current_x + g;
      res := res + [EnginePart(current_x, y, symbol)];
      current_x := current_x + 1;
    }
  }

  /** p is a symbol of the line at its own column. */
  predicate IsPartOf(line: string, p: EnginePart) {
    0 <= p.x < |line| && line[p.x] == p.value && IsSymbol(p.value)
  }

  /** Every part found from i on is a symbol at its column, at or after i. */
  lemma {:induction false} PartsFromAreSymbols(line: string, i: nat, y: int, p: EnginePart)
    requires i <= |line| && p in PartsFrom(line, i, y)
    ensures p.y == y && IsPartOf(line, p) && i <= p.x
    decreases |line| - i
  {
    var a := SymbolFrom(line, i);
    SymbolFromSpec(line, i);
    if p != EnginePart(a, y, line[a]) {
      PartsFromAreSymbols(line, a + 1, y, p);
    }
  }

  /** The parts found from i on are in strictly increasing column order. */
  lemma {:induction false} PartsFromOrdered(line: string, i: nat, y: int, k: nat)
    requires i <= |line| && k + 1 < |PartsFrom(line, i, y)|
    ensures PartsFrom(line, i, y)[k].x < PartsFrom(line, i, y)[k + 1].x
    decreases |line| - i
  {
    var a := SymbolFrom(line, i);
    var rest := PartsFrom(line, a + 1, y);
    assert PartsFrom(line, i, y)[k + 1] == rest[k];
    if k == 0 {
      PartsFromAreSymbols(line, a + 1, y, rest[0]);
    } else {
      PartsFromOrdered(line, a + 1, y, k - 1);
    }
  }

  /** Every symbol from i on is found. */
  lemma {:induction false} PartsFromCover(line: string, i: nat, y: int, j: nat)
    requires i <= j < |line| && IsSymbol(line[j])
    ensures EnginePart(j, y, line[j]) in PartsFrom(line, i, y)
    decreases |line| - i
  {
    var a := SymbolFrom(line, i);
    SymbolFromSpec(line, i);
    if j > a {
      PartsFromCover(line, a + 1, y, j);
    }
  }

  /** The parts of one line, as `engine_part_parser` reports them: exactly the symbols,
      left to right. */
  lemma PartsOfSpec(line: string, y: int)
    ensures forall p :: p in PartsOf(line, y) ==> p.y == y && IsPartOf(line, p)
    ensures forall k :: 0 <= k < |PartsOf(line, y)| - 1 ==> PartsOf(line, y)[k].x < PartsOf(line, y)[k + 1].x
    ensures forall j :: 0 <= j < |line| && IsSymbol(line[j]) ==> EnginePart(j, y, line[j]) in PartsOf(line, y)
  {
    forall p | p in PartsOf(line, y) ensures p.y == y && IsPartOf(line, p) {
      PartsFromAreSymbols(line, 0, y, p);
    }
    forall k | 0 <= k < |PartsOf(line, y)| - 1 ensures PartsOf(line, y)[k].x < PartsOf(line, y)[k + 1].x {
      PartsFromOrdered(line, 0, y, k);
    }
    forall j | 0 <= j < |line| && IsSymbol(line[j]) ensures EnginePart(j, y, line[j]) in PartsOf(line, y) {
      PartsFromCover(line, 0, y, j);
    }
  }

  // ---------------------------------------------------------------------- grid

  /** All numbers of the schematic, row by row. */
  function GridNumbers(lines: seq<string>): seq<PartNumber>
    decreases |lines|
  {
    if lines == [] then [] else GridNumbers(lines[..|lines| - 1]) + NumbersOf(lines[|lines| - 1], |lines| - 1)
  }

  /** All parts of the schematic, row by row. */
  function GridParts(lines: seq<string>): seq<EnginePart>
    decreases |lines|
  {
    if lines == [] then [] else GridParts(lines[..|lines| - 1]) + PartsOf(lines[|lines| - 1], |lines| - 1)
  }

  /** The loop shared by `part1` and `solve`: each line's numbers and parts are appended
      to the running lists. */
  method Collect(lines: seq<string>) returns (numbers: seq<PartNumber>, parts: seq<EnginePart>)
    ensures numbers == GridNumbers(lines) && parts == GridParts(lines)
  {
    numbers, parts := [], [];
    for y := 0 to |lines|
      invariant numbers == GridNumbers(lines[..y]) && parts == GridParts(lines[..y])
    {
      assert lines[..y + 1][..y] == lines[..y];
      var ns := ParseNumbers(lines[y], y);
      var ps := ParseParts(lines[y], y);
      numbers := numbers + ns;
      parts := parts + ps;
    }
    assert lines[..|lines|] == lines;
  }

  /** Every number of the grid is a maximal digit run of its row. */
  lemma {:induction false} GridNumberIsRun(lines: seq<string>, n: PartNumber)
    requires n in GridNumbers(lines)
    ensures 0 <= n.y < |lines| && IsRun(lines[n.y], n)
    decreases |lines|
  {
    var init := lines[..|lines| - 1];
    var last := |lines| - 1;
    if n in GridNumbers(init) {
      GridNumberIsRun(init, n);
      assert init[n.y] == lines[n.y];
    } else {
      NumbersOfSpec(lines[last], last);
    }
  }

  /** Every digit of the grid lies in a number of its row. */
  lemma {:induction false} GridDigitCovered(lines: seq<string>, y: nat, i: nat)
    requires y < |lines| && i < |lines[y]| && IsDigit(lines[y][i])
    ensures exists n :: n in GridNumbers(lines) && n.y == y && n.x_min <= i <= n.x_max
    decreases |lines|
  {
    var init := lines[..|lines| - 1];
    var last := |lines| - 1;
    assert GridNumbers(lines) == GridNumbers(init) + NumbersOf(lines[last], last);
    if y < last {
      assert init[y] == lines[y];
      GridDigitCovered(init, y, i);
      var n :| n in GridNumbers(init) && n.y == y && n.x_min <= i <= n.x_max;
      assert n in GridNumbers(lines);
    } else {
      var n := LineDigitCovered(lines[last], last, i);
      assert n in GridNumbers(lines);
    }
  }

  lemma LineDigitCovered(line: string, y: int, i: nat) returns (n: PartNumber)
    requires i < |line| && IsDigit(line[i])
    ensures n in NumbersOf(line, y) && n.y == y && n.x_min <= i <= n.x_max
  {
    NumbersOfSpec(line, y);
    n :| n in NumbersOf(line, y) && n.x_min <= i <= n.x_max;
  }

  /** Every part of the grid is a symbol at its position. */
  lemma {:induction false} GridPartIsSymbol(lines: seq<string>, p: EnginePart)
    requires p in GridParts(lines)
    ensures 0 <= p.y < |lines| && IsPartOf(lines[p.y], p)
    decreases |lines|
  {
    var init := lines[..|lines| - 1];
    var last := |lines| - 1;
    if p in GridParts(init) {
      GridPartIsSymbol(init, p);
      assert init[p.y] == lines[p.y];
    } else {
      PartsOfSpec(lines[last], last);
    }
  }

  /** Every symbol of the grid is a part. */
  lemma {:induction false} GridSymbolFound(lines: seq<string>, y: nat, i: nat)
    requires y < |lines| && i < |lines[y]| && IsSymbol(lines[y][i])
    ensures EnginePart(i, y, lines[y][i]) in GridParts(lines)
    decreases |lines|
  {
    var init := lines[..|lines| - 1];
    var last := |lines| - 1;
    assert GridParts(lines) == GridParts(init) + PartsOf(lines[last], last);
    if y < last {
      assert init[y] == lines[y];
      GridSymbolFound(init, y, i);
    } else {
      PartsOfSpec(lines[last], last);
    }
  }

  // ----------------------------------------------------------------- adjacency

  /** The box of cells around a number, the number's own cells included. */
  predicate InBox(p: EnginePart, n: PartNumber) {
    n.y - 1 <= p.y <= n.y + 1 && n.x_min - 1 <= p.x <= n.x_max + 1
  }

  /** p sits on one of the number's own cells. */
  predicate OnNumber(p: EnginePart, n: PartNumber) {
    p.y == n.y && n.x_min <= p.x <= n.x_max
  }

  /** `is_near` and the closure of `is_near_engine_part`: on the number's row the part
      must be just before or just after it; on the rows above and below anywhere from one
      column before to one column after. That is the box around the number without the
      number's own cells. */
  predicate IsNear(p: EnginePart, n: PartNumber): (near: bool)
    ensures n.x_min <= n.x_max ==> (near <==> InBox(p, n) && !OnNumber(p, n))
  {
    if p.y == n.y then p.x == n.x_min - 1 || p.x == n.x_max + 1
    else if p.y == n.y - 1 || p.y == n.y + 1 then n.x_min - 1 <= p.x <= n.x_max + 1
    else false
  }

  /** A symbol is never on a digit, so for the parts and numbers of a grid nearness is
      simply lying in the box around the number. */
  lemma GridNearIsInBox(lines: seq<string>, p: EnginePart, n: PartNumber)
    requires p in GridParts(lines) && n in GridNumbers(lines)
    ensures IsNear(p, n) <==> InBox(p, n)
  {
    GridPartIsSymbol(lines, p);
    GridNumberIsRun(lines, n);
    var line := lines[n.y];
    forall x | n.x_min <= x <= n.x_max
      ensures IsDigit(line[x])
    {
      assert line[n.x_min..n.x_max + 1][x - n.x_min] == line[x];
    }
  }

  // -------------------------------------------------------------------- part 1

  /** `is_near_engine_part`: some part is near the number. */
  function NearAnyPart(n: PartNumber, parts: seq<EnginePart>): (b: bool)
    ensures b <==> exists k :: 0 <= k < |parts| && IsNear(parts[k], n)
    decreases |parts|
  {
    if parts == [] then false
    else IsNear(parts[|parts| - 1], n) || NearAnyPart(n, parts[..|parts| - 1])
  }

  function ValueSum(numbers: seq<PartNumber>): nat
    decreases |numbers|
  {
    if numbers == [] then 0 else ValueSum(numbers[..|numbers| - 1]) + numbers[|numbers| - 1].value
  }

  /** The final filter and sum of `part1`: each number near at least one part counts
      once. */
  function TouchingSum(numbers: seq<PartNumber>, parts: seq<EnginePart>): nat
    decreases |numbers|
  {
    if numbers == [] then 0
    else
      var n := numbers[|numbers| - 1];
      TouchingSum(numbers[..|numbers| - 1], parts) + (if NearAnyPart(n, parts) then n.value else 0)
  }

  /** A number touching several parts is counted once: the sum never exceeds the sum of
      all numbers, adding parts never lowers it, and when every number touches some
      part it is the sum of all numbers. */
  lemma {:induction false} TouchingSumBounds(numbers: seq<PartNumber>, parts: seq<EnginePart>, more: seq<EnginePart>)
    ensures TouchingSum(numbers, parts) <= TouchingSum(numbers, parts + more) <= ValueSum(numbers)
    ensures (forall k :: 0 <= k < |numbers| ==> NearAnyPart(numbers[k], parts)) ==>
              TouchingSum(numbers, parts) == ValueSum(numbers)
    decreases |numbers|
  {
    if numbers != [] {
      var init := numbers[..|numbers| - 1];
      var n := numbers[|numbers| - 1];
      TouchingSumBounds(init, parts, more);
      assert forall k :: 0 <= k < |init| ==> init[k] == numbers[k];
      if NearAnyPart(n, parts) {
        var k :| 0 <= k < |parts| && IsNear(parts[k], n);
        assert (parts + more)[k] == parts[k];
      }
    }
  }

  /** `part1`: the sum of the numbers next to at least one part. */
  method Part1(lines: seq<string>) returns (r: nat)
    ensures r == TouchingSum(GridNumbers(lines), GridParts(lines))
  {
    var numbers, parts := Collect(lines);
    r := TouchingSum(numbers, parts);
  }

  // -------------------------------------------------------------------- part 2

  /** The numbers near the part, in order (the filter of `gear_ratio`). */
  function NearNumbers(p: EnginePart, numbers: seq<PartNumber>): seq<PartNumber>
    decreases |numbers|
  {
    if numbers == [] then []
    else
      var n := numbers[|numbers| - 1];
      NearNumbers(p, numbers[..|numbers| - 1]) + (if IsNear(p, n) then [n] else [])
  }

  /** `gear_ratio`: the product of the near numbers when there are exactly two of them. */
  function GearRatio(p: EnginePart, numbers: seq<PartNumber>): nat {
    var near := NearNumbers(p, numbers);
    if |near| == 2 then near[0].value * near[1].value else 0
  }

  /** When at most the numbers at i and j are near p (i < j), the filter keeps exactly
      those of them that are near. */
  lemma {:induction false} NearNumbersOfPair(p: EnginePart, numbers: seq<PartNumber>, i: nat, j: nat)
    requires i < j
    requires forall k :: 0 <= k < |numbers| && k != i && k != j ==> !IsNear(p, numbers[k])
    ensures NearNumbers(p, numbers) ==
      (if i < |numbers| && IsNear(p, numbers[i]) then [numbers[i]] else [])
      + (if j < |numbers| && IsNear(p, numbers[j]) then [numbers[j]] else [])
    decreases |numbers|
  {
    if numbers != [] {
      var init := numbers[..|numbers| - 1];
      assert forall k :: 0 <= k < |init| ==> init[k] == numbers[k];
      NearNumbersOfPair(p, init, i, j);
    }
  }

  /** A part near exactly the numbers at i and j is a gear whose ratio is their product. */
  lemma GearRatioOfPair(p: EnginePart, numbers: seq<PartNumber>, i: nat, j: nat)
    requires i < j < |numbers|
    requires IsNear(p, numbers[i]) && IsNear(p, numbers[j])
    requires forall k :: 0 <= k < |numbers| && k != i && k != j ==> !IsNear(p, numbers[k])
    ensures GearRatio(p, numbers) == numbers[i].value * numbers[j].value
  {
    NearNumbersOfPair(p, numbers, i, j);
  }

  /** A part near at most one number has ratio 0. */
  lemma GearRatioOfLone(p: EnginePart, numbers: seq<PartNumber>, i: nat)
    requires forall k :: 0 <= k < |numbers| && k != i ==> !IsNear(p, numbers[k])
    ensures GearRatio(p, numbers) == 0
  {
    NearNumbersOfPair(p, numbers, i, i + 1 + |numbers|);
  }

  /** The sum of `solve`: the gear ratios of the '*' parts. */
  function GearSum(parts: seq<EnginePart>, numbers: seq<PartNumber>): nat
    decreases |parts|
  {
    if parts == [] then 0
    else
      var p := parts[|parts| - 1];
      GearSum(parts[..|parts| - 1], numbers) + (if p.value == '*' then GearRatio(p, numbers) else 0)
  }

  /** `solve` (part 2): the sum of the gear ratios of the '*' parts. */
  method Part2(lines: seq<string>) returns (r: nat)
    ensures r == GearSum(GridParts(lines), GridNumbers(lines))
  {
    var numbers, parts := Collect(lines);
    r := GearSum(parts, numbers);
  }
}
