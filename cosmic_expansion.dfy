/** Day 11 ("Cosmic Expansion"): the galaxies ('#') of an image, every empty row and
    column grown by a factor, and the sum of the Manhattan distances over all pairs
    of galaxies. Part 1 grows empty lines to twice their size, part 2 by a factor
    given by the caller. */
module CosmicExpansion {
  import opened Wrappers
  import opened Sorting

  /** A galaxy at column x and height y, after expansion. */
  datatype Galaxy = Galaxy(x: nat, y: nat)

  const NoFirstLine := "called `Option::unwrap()` on a `None` value"

  predicate HasGalaxy(line: string) {
    '#' in line
  }

  // ---------------------------------------------------------------------------
  // Rows: reading the image from top to bottom
  // ---------------------------------------------------------------------------

  /** The galaxies of one image row, left to right, all at height y. */
  function RowGalaxies(line: string, y: nat): (r: seq<Galaxy>)
    ensures |r| <= |line|
    decreases |line|
  {
    if line == [] then []
    else RowGalaxies(line[..|line| - 1], y) + (if line[|line| - 1] == '#' then [Galaxy(|line| - 1, y)] else [])
  }

  /** A row yields exactly one galaxy per '#', at that column, in increasing column order. */
  lemma {:induction false} RowGalaxiesSpec(line: string, y: nat)
    ensures forall g :: g in RowGalaxies(line, y) <==> g.y == y && g.x < |line| && line[g.x] == '#'
    ensures forall i, j :: 0 <= i < j < |RowGalaxies(line, y)| ==> RowGalaxies(line, y)[i].x < RowGalaxies(line, y)[j].x
    decreases |line|
  {
    if line != [] {
      var init := line[..|line| - 1];
      RowGalaxiesSpec(init, y);
      forall g | g in RowGalaxies(init, y)
        ensures g.x < |init|
      {
      }
    }
  }

  lemma {:induction false} RowWithoutGalaxy(line: string, y: nat)
    requires !HasGalaxy(line)
    ensures RowGalaxies(line, y) == []
    decreases |line|
  {
    if line != [] {
      var init := line[..|line| - 1];
      assert line[|line| - 1] in line;
      assert forall c :: c in init ==> c in line;
      RowWithoutGalaxy(init, y);
    }
  }

  /** How many of the rows hold no galaxy. */
  function EmptyRows(lines: seq<string>): (n: nat)
    ensures n <= |lines|
    decreases |lines|
  {
    if lines == [] then 0
    else EmptyRows(lines[..|lines| - 1]) + (if HasGalaxy(lines[|lines| - 1]) then 0 else 1)
  }

  lemma {:induction false} EmptyRowsAppend(a: seq<string>, b: seq<string>)
    ensures EmptyRows(a + b) == EmptyRows(a) + EmptyRows(b)
    decreases |b|
  {
    if b == [] {
      assert a + b == a;
    } else {
      EmptyRowsAppend(a, b[..|b| - 1]);
      assert (a + b)[..|a + b| - 1] == a + b[..|b| - 1];
    }
  }

  /** The height of row r once every empty row above it has grown by growth. */
  function Height(lines: seq<string>, r: nat, growth: nat): nat
    requires r <= |lines|
  {
    r + growth * EmptyRows(lines[..r])
  }

  lemma Distribute(g: nat, a: nat, b: nat)
    ensures g * (a + b) == g * a + g * b
  {
  }

  /** Moving down from row r1 to row r2 climbs one per row plus growth per empty row
      in between: an empty row raises every later row, and heights never decrease. */
  lemma HeightGap(lines: seq<string>, r1: nat, r2: nat, growth: nat)
    requires r1 <= r2 <= |lines|
    ensures Height(lines, r2, growth) == Height(lines, r1, growth) + (r2 - r1) + growth * EmptyRows(lines[r1..r2])
  {
    assert lines[..r2] == lines[..r1] + lines[r1..r2];
    EmptyRowsAppend(lines[..r1], lines[r1..r2]);
    Distribute(growth, EmptyRows(lines[..r1]), EmptyRows(lines[r1..r2]));
  }

  /** The galaxies in reading order (row by row, left to right), each at its grown height. */
  function Scan(lines: seq<string>, growth: nat): seq<Galaxy>
    decreases |lines|
  {
    if lines == [] then []
    else
      var k := |lines| - 1;
      Scan(lines[..k], growth) + RowGalaxies(lines[k], k + growth * EmptyRows(lines[..k]))
  }

  /** A galaxy is scanned exactly when a row r holds a '#' at its column and its height
      is the grown height of r. */
  lemma ScanSpec(lines: seq<string>, growth: nat)
    ensures forall g :: g in Scan(lines, growth) <==>
      exists r :: 0 <= r < |lines| && g.x < |lines[r]| && lines[r][g.x] == '#' && g.y == Height(lines, r, growth)
  {
    forall g | g in Scan(lines, growth)
      ensures exists r :: 0 <= r < |lines| && g.x < |lines[r]| && lines[r][g.x] == '#' && g.y == Height(lines, r, growth)
    {
      var r := ScanSound(lines, growth, g);
    }
    forall g: Galaxy, r: nat | r < |lines| && g.x < |lines[r]| && lines[r][g.x] == '#' && g.y == Height(lines, r, growth)
      ensures g in Scan(lines, growth)
    {
      ScanComplete(lines, growth, g, r);
    }
  }

  lemma {:induction false} ScanSound(lines: seq<string>, growth: nat, g: Galaxy) returns (r: nat)
    requires g in Scan(lines, growth)
    ensures r < |lines| && g.x < |lines[r]| && lines[r][g.x] == '#' && g.y == Height(lines, r, growth)
    decreases |lines|
  {
    var k := |lines| - 1;
    var init := lines[..k];
    if g in Scan(init, growth) {
      r := ScanSound(init, growth, g);
      assert init[..r] == lines[..r];
    } else {
      ScanLastRow(lines, growth, g);
      r := k;
    }
  }

  /** A galaxy scanned from the last row lies on a '#' of that row, at its grown height. */
  lemma ScanLastRow(lines: seq<string>, growth: nat, g: Galaxy)
    requires lines != [] && g in Scan(lines, growth) && g !in Scan(lines[..|lines| - 1], growth)
    ensures var k := |lines| - 1;
      g.x < |lines[k]| && lines[k][g.x] == '#' && g.y == Height(lines, k, growth)
  {
    var k := |lines| - 1;
    var y := Height(lines, k, growth);
    ScanLast(lines, growth);
    var before, last := Scan(lines[..k], growth), RowGalaxies(lines[k], y);
    assert g in last by {
      assert g in before + last;
    }
    RowGalaxyAt(lines[k], y, g);
  }

  /** The scan ends with the galaxies of the last row, at its grown height. */
  lemma ScanLast(lines: seq<string>, growth: nat)
    requires lines != []
    ensures var k := |lines| - 1;
      Scan(lines, growth) == Scan(lines[..k], growth) + RowGalaxies(lines[k], Height(lines, k, growth))
  {
  }

  lemma RowGalaxyAt(line: string, y: nat, g: Galaxy)
    requires g in RowGalaxies(line, y)
    ensures g.y == y && g.x < |line| && line[g.x] == '#'
  {
    RowGalaxiesSpec(line, y);
  }

  lemma {:induction false} ScanComplete(lines: seq<string>, growth: nat, g: Galaxy, r: nat)
    requires r < |lines| && g.x < |lines[r]| && lines[r][g.x] == '#' && g.y == Height(lines, r, growth)
    ensures g in Scan(lines, growth)
    decreases |lines|
  {
    var k := |lines| - 1;
    var init := lines[..k];
    if r < k {
      assert init[..r] == lines[..r];
      ScanComplete(init, growth, g, r);
    } else {
      RowGalaxiesSpec(lines[k], k + growth * EmptyRows(init));
    }
  }

  // ---------------------------------------------------------------------------
  // Columns: the stable sort by column and the grown columns
  // ---------------------------------------------------------------------------

  /** Order galaxies by their column only (the key of `sort_by_key`). */
  predicate XLe(a: Galaxy, b: Galaxy) {
    a.x <= b.x
  }

  lemma XLeTotal()
    ensures TotalPreorder(XLe)
  {
  }

  /** The sort by column keeps every galaxy, orders them by column, and galaxies of the
      same column keep their reading order (top to bottom). */
  lemma SortedByColumn(gs: seq<Galaxy>)
    ensures SortedBy(SortBy(gs, XLe), XLe)
    ensures multiset(SortBy(gs, XLe)) == multiset(gs)
    ensures forall k :: Tied(SortBy(gs, XLe), XLe, k) == Tied(gs, XLe, k)
  {
    XLeTotal();
    SortBySorted(gs, XLe);
    SortByPermutes(gs, XLe);
    forall k
      ensures Tied(SortBy(gs, XLe), XLe, k) == Tied(gs, XLe, k)
    {
      SortByStable(gs, XLe, k);
    }
  }

  predicate HasColumn(gs: seq<Galaxy>, c: nat) {
    exists i :: 0 <= i < |gs| && gs[i].x == c
  }

  predicate Increasing(cs: seq<nat>) {
    forall i, j :: 0 <= i < j < |cs| ==> cs[i] < cs[j]
  }

  /** The columns below width that hold no galaxy, in increasing order. */
  function EmptyColumns(gs: seq<Galaxy>, width: nat): seq<nat>
    decreases width
  {
    if width == 0 then []
    else EmptyColumns(gs, width - 1) + (if HasColumn(gs, width - 1) then [] else [width - 1])
  }

  lemma {:induction false} EmptyColumnsSpec(gs: seq<Galaxy>, width: nat)
    ensures forall c: nat :: c in EmptyColumns(gs, width) <==> c < width && !HasColumn(gs, c)
    ensures Increasing(EmptyColumns(gs, width))
    decreases width
  {
    if width > 0 {
      var init := EmptyColumns(gs, width - 1);
      EmptyColumnsSpec(gs, width - 1);
      forall i | 0 <= i < |init|
        ensures init[i] < width - 1
      {
        assert init[i] in init;
      }
    }
  }

  /** Which columns are empty depends only on the galaxies, not on their order. */
  lemma {:induction false} EmptyColumnsPermutation(gs: seq<Galaxy>, hs: seq<Galaxy>, width: nat)
    requires multiset(gs) == multiset(hs)
    ensures EmptyColumns(gs, width) == EmptyColumns(hs, width)
    decreases width
  {
    if width > 0 {
      EmptyColumnsPermutation(gs, hs, width - 1);
      var c := width - 1;
      if HasColumn(gs, c) {
        var i :| 0 <= i < |gs| && gs[i].x == c;
        assert gs[i] in multiset(hs);
      }
      if HasColumn(hs, c) {
        var i :| 0 <= i < |hs| && hs[i].x == c;
        assert hs[i] in multiset(gs);
      }
    }
  }

  /** How many of the columns cs lie left of column x. */
  function CountBelow(cs: seq<nat>, x: nat): (n: nat)
    ensures n <= |cs|
    decreases |cs|
  {
    if cs == [] then 0 else (if cs[0] < x then 1 else 0) + CountBelow(cs[1..], x)
  }

  /** How many of the columns cs lie in a <= c < b. */
  function CountBetween(cs: seq<nat>, a: nat, b: nat): (n: nat)
    ensures n <= |cs|
    decreases |cs|
  {
    if cs == [] then 0 else (if a <= cs[0] < b then 1 else 0) + CountBetween(cs[1..], a, b)
  }

  lemma {:induction false} CountBelowSplit(cs: seq<nat>, a: nat, b: nat)
    requires a <= b
    ensures CountBelow(cs, b) == CountBelow(cs, a) + CountBetween(cs, a, b)
    decreases |cs|
  {
    if cs != [] {
      CountBelowSplit(cs[1..], a, b);
    }
  }

  /** With increasing columns, the first c of them lie left of x and the rest do not:
      then exactly c lie left of x. */
  lemma {:induction false} CountBelowIncreasing(cs: seq<nat>, x: nat, c: nat)
    requires Increasing(cs) && c <= |cs|
    requires forall k :: 0 <= k < c ==> cs[k] < x
    requires c == |cs| || cs[c] >= x
    ensures CountBelow(cs, x) == c
    decreases |cs|
  {
    if cs != [] {
      if c == 0 {
        assert cs[0] >= x;
        CountBelowIncreasing(cs[1..], x, 0);
      } else {
        CountBelowIncreasing(cs[1..], x, c - 1);
      }
    }
  }

  /** A galaxy moved right by growth for every empty column left of it. */
  function Shifted(g: Galaxy, empties: seq<nat>, growth: nat): Galaxy {
    Galaxy(g.x + growth * CountBelow(empties, g.x), g.y)
  }

  /** Every galaxy moved right by growth per empty column left of it. */
  function ExpandColumns(gs: seq<Galaxy>, empties: seq<nat>, growth: nat): (r: seq<Galaxy>)
    ensures |r| == |gs|
  {
    seq(|gs|, i requires 0 <= i < |gs| => Shifted(gs[i], empties, growth))
  }

  /** Between two galaxies the grown distance in columns is the original one plus growth
      per empty column between them. So no galaxy moves left and the column order
      is kept. */
  lemma ColumnGap(a: Galaxy, b: Galaxy, empties: seq<nat>, growth: nat)
    requires a.x <= b.x
    ensures Shifted(b, empties, growth).x - Shifted(a, empties, growth).x == (b.x - a.x) + growth * CountBetween(empties, a.x, b.x)
    ensures a.x <= Shifted(a, empties, growth).x <= Shifted(b, empties, growth).x
  {
    var below, between := CountBelow(empties, a.x), CountBetween(empties, a.x, b.x);
    CountBelowSplit(empties, a.x, b.x);
    Distribute(growth, below, between);
    assert growth * below >= 0 && growth * between >= 0;
  }

  /** Growing the columns keeps a column-ordered list ordered. */
  lemma ExpandColumnsSorted(gs: seq<Galaxy>, empties: seq<nat>, growth: nat)
    requires SortedBy(gs, XLe)
    ensures SortedBy(ExpandColumns(gs, empties, growth), XLe)
  {
    forall i, j | 0 <= i < j < |gs|
      ensures XLe(ExpandColumns(gs, empties, growth)[i], ExpandColumns(gs, empties, growth)[j])
    {
      ColumnGap(gs[i], gs[j], empties, growth);
    }
  }

  lemma ExpandColumnsAppend(a: seq<Galaxy>, b: seq<Galaxy>, empties: seq<nat>, growth: nat)
    ensures ExpandColumns(a + b, empties, growth) == ExpandColumns(a, empties, growth) + ExpandColumns(b, empties, growth)
  {
  }

  /** Growing reorders nothing: permuted galaxies grow into permuted galaxies. */
  lemma {:induction false} ExpandColumnsPermutation(gs: seq<Galaxy>, hs: seq<Galaxy>, empties: seq<nat>, growth: nat)
    requires multiset(gs) == multiset(hs)
    ensures multiset(ExpandColumns(gs, empties, growth)) == multiset(ExpandColumns(hs, empties, growth))
    decreases |gs|
  {
    if gs == [] {
      assert |hs| == |multiset(hs)| == 0;
    } else {
      var init, g := gs[..|gs| - 1], gs[|gs| - 1];
      assert gs == init + [g];
      assert g in multiset(hs);
      var i :| 0 <= i < |hs| && hs[i] == g;
      var rest := hs[..i] + hs[i + 1..];
      assert hs == hs[..i] + [g] + hs[i + 1..];
      assert multiset(rest) == multiset(hs) - multiset{g};
      ExpandColumnsPermutation(init, rest, empties, growth);
      ExpandColumnsAppend(init, [g], empties, growth);
      ExpandColumnsAppend(hs[..i] + [g], hs[i + 1..], empties, growth);
      ExpandColumnsAppend(hs[..i], [g], empties, growth);
      ExpandColumnsAppend(hs[..i], hs[i + 1..], empties, growth);
    }
  }

  /** The column pass over galaxies sorted by column: a cursor into the empty columns
      advances past every empty column left of the current galaxy, and the galaxy moves
      right by growth per column passed so far. */
  method ShiftColumns(gs: seq<Galaxy>, empties: seq<nat>, growth: nat) returns (shifted: seq<Galaxy>)
    requires SortedBy(gs, XLe) && Increasing(empties)
    ensures shifted == ExpandColumns(gs, empties, growth)
    ensures empties == [] ==> shifted == gs
  {
    shifted := gs;
    var next := 0;
    var offset := 0;
    for i := 0 to |gs|
      invariant |shifted| == |gs|
      invariant next <= |empties| && offset == growth * next
      invariant forall k :: 0 <= k < next ==> 0 < i && empties[k] < gs[i - 1].x
      invariant forall k :: 0 <= k < i ==> shifted[k] == Shifted(gs[k], empties, growth)
      invariant forall k :: i <= k < |gs| ==> shifted[k] == gs[k]
    {
      assert forall k :: 0 <= k < next ==> empties[k] < gs[i].x by {
        if 0 < i {
          assert XLe(gs[i - 1], gs[i]);
        }
      }
      while next < |empties| && gs[i].x > empties[next]
        invariant next <= |empties| && offset == growth * next
        invariant forall k :: 0 <= k < next ==> empties[k] < gs[i].x
        decreases |empties| - next
      {
        Distribute(growth, next, 1);
        next := next + 1;
        offset := offset + growth;
      }
      CountBelowIncreasing(empties, gs[i].x, next);
      shifted := shifted[i := Galaxy(gs[i].x + offset, gs[i].y)];
    }
  }

  // ---------------------------------------------------------------------------
  // The column pass as written: one empty column per galaxy at most
  // ---------------------------------------------------------------------------

  /** The column pass as the source writes it: the cursor `next` into the empty columns
      advances at most once per galaxy, so two empty columns with no galaxy between
      them move the galaxies after them by one growth only. */
  function ShiftAsWritten(gs: seq<Galaxy>, empties: seq<nat>, next: nat, growth: nat): (r: seq<Galaxy>)
    ensures |r| == |gs|
    decreases |gs|
  {
    if gs == [] then []
    else
      var next' := if next < |empties| && gs[0].x > empties[next] then next + 1 else next;
      [Galaxy(gs[0].x + growth * next', gs[0].y)] + ShiftAsWritten(gs[1..], empties, next', growth)
  }

  /** The image "#..#": two galaxies three columns apart with two empty columns between
      them. Doubling each empty column should put them five apart; the pass as written
      puts them four apart, while ExpandColumns gives five. */
  lemma AdjacentEmptyColumns()
    ensures Scan(["#..#"], 1) == [Galaxy(0, 0), Galaxy(3, 0)]
    ensures EmptyColumns([Galaxy(0, 0), Galaxy(3, 0)], 4) == [1, 2]
    ensures ShiftAsWritten([Galaxy(0, 0), Galaxy(3, 0)], [1, 2], 0, 1) == [Galaxy(0, 0), Galaxy(4, 0)]
    ensures ExpandColumns([Galaxy(0, 0), Galaxy(3, 0)], [1, 2], 1) == [Galaxy(0, 0), Galaxy(5, 0)]
  {
    AdjacentScan();
    AdjacentEmpty();
    assert CountBelow([1, 2], 3) == 2 by {
      assert [1, 2][1..] == [2];
    }
  }

  lemma AdjacentScan()
    ensures Scan(["#..#"], 1) == [Galaxy(0, 0), Galaxy(3, 0)]
  {
    var line := "#..#";
    assert line[..3] == "#..";
    assert line[..3][..2] == "#.";
    assert line[..3][..2][..1] == "#";
    assert "#"[..0] == [];
    assert RowGalaxies("#", 0) == [Galaxy(0, 0)];
    assert RowGalaxies("#.", 0) == [Galaxy(0, 0)];
    assert RowGalaxies("#..", 0) == [Galaxy(0, 0)];
    assert RowGalaxies(line, 0) == [Galaxy(0, 0), Galaxy(3, 0)];
    assert ["#..#"][..0] == [];
  }

  lemma AdjacentEmpty()
    ensures EmptyColumns([Galaxy(0, 0), Galaxy(3, 0)], 4) == [1, 2]
  {
    var gs := [Galaxy(0, 0), Galaxy(3, 0)];
    assert gs[1].x == 3 && gs[0].x == 0;
    assert HasColumn(gs, 3) && HasColumn(gs, 0);
    assert !HasColumn(gs, 1) && !HasColumn(gs, 2);
  }

  // ---------------------------------------------------------------------------
  // The map and the distance sum
  // ---------------------------------------------------------------------------

  /** The galaxies after growth, sorted by original column: what `parse_map` returns. */
  function ExpandedMap(lines: seq<string>, expansion: nat): Result<seq<Galaxy>>
    requires expansion >= 1
  {
    if |lines| == 0 then Err(NoFirstLine)
    else
      var growth := expansion - 1;
      var sorted := SortBy(Scan(lines, growth), XLe);
      Ok(ExpandColumns(sorted, EmptyColumns(sorted, |lines[0]|), growth))
  }

  /** The grown universe in reading order, with no sorting: each galaxy of the image
      moved down per empty row above it and right per empty column left of it. The
      width is that of the first row. */
  function Universe(lines: seq<string>, expansion: nat): seq<Galaxy>
    requires expansion >= 1 && |lines| > 0
  {
    var growth := expansion - 1;
    var scanned := Scan(lines, growth);
    ExpandColumns(scanned, EmptyColumns(scanned, |lines[0]|), growth)
  }

  /** The map fails only without a first line; otherwise it holds the grown universe,
      in an order sorted by column. */
  lemma ExpandedMapSpec(lines: seq<string>, expansion: nat)
    requires expansion >= 1
    ensures ExpandedMap(lines, expansion).Err? <==> |lines| == 0
    ensures ExpandedMap(lines, expansion).Ok? ==>
      && SortedBy(ExpandedMap(lines, expansion).value, XLe)
      && multiset(ExpandedMap(lines, expansion).value) == multiset(Universe(lines, expansion))
  {
    if |lines| > 0 {
      SortThenExpand(Scan(lines, expansion - 1), |lines[0]|, expansion - 1);
    }
  }

  /** Sorting by column before growing the columns yields the same galaxies as growing
      them in the original order, and in column order. */
  lemma SortThenExpand(scanned: seq<Galaxy>, width: nat, growth: nat)
    ensures SortedBy(ExpandColumns(SortBy(scanned, XLe), EmptyColumns(SortBy(scanned, XLe), width), growth), XLe)
    ensures multiset(ExpandColumns(SortBy(scanned, XLe), EmptyColumns(SortBy(scanned, XLe), width), growth))
         == multiset(ExpandColumns(scanned, EmptyColumns(scanned, width), growth))
  {
    var sorted := SortBy(scanned, XLe);
    SortedByColumn(scanned);
    EmptyColumnsPermutation(sorted, scanned, width);
    ExpandColumnsSorted(sorted, EmptyColumns(sorted, width), growth);
    ExpandColumnsPermutation(sorted, scanned, EmptyColumns(sorted, width), growth);
  }

  /** The row pass of `parse_map`: rows top to bottom, an empty row raising the offset
      of every later row by growth, and each '#' pushed at its column and the row's
      grown height. */
  method ScanRows(lines: seq<string>, growth: nat) returns (galaxies: seq<Galaxy>)
    ensures galaxies == Scan(lines, growth)
  {
    galaxies := [];
    var offset := 0;
    for y := 0 to |lines|
      invariant galaxies == Scan(lines[..y], growth)
      invariant offset == growth * EmptyRows(lines[..y])
    {
      galaxies, offset := ScanRow(lines, y, growth, galaxies, offset);
    }
    assert lines[..|lines|] == lines;
  }

  /** One row of the row pass: a row without '#' only raises the offset; otherwise its
      galaxies are pushed at the row's grown height. */
  method ScanRow(lines: seq<string>, y: nat, growth: nat, galaxies: seq<Galaxy>, offset: nat)
    returns (galaxies': seq<Galaxy>, offset': nat)
    requires y < |lines|
    requires galaxies == Scan(lines[..y], growth) && offset == growth * EmptyRows(lines[..y])
    ensures galaxies' == Scan(lines[..y + 1], growth) && offset' == growth * EmptyRows(lines[..y + 1])
  {
    var line := lines[y];
    ScanStep(lines, y, growth);
    if HasGalaxy(line) {
      galaxies' := PushRow(galaxies, line, y + offset);
      offset' := offset;
    } else {
      RowWithoutGalaxy(line, y + offset);
      galaxies' := galaxies;
      offset' := offset + growth;
    }
  }

  /** One more row scanned: its galaxies follow, and an empty row adds growth to the
      offset of the rows after it. */
  lemma ScanStep(lines: seq<string>, y: nat, growth: nat)
    requires y < |lines|
    ensures Scan(lines[..y + 1], growth) == Scan(lines[..y], growth) + RowGalaxies(lines[y], y + growth * EmptyRows(lines[..y]))
    ensures growth * EmptyRows(lines[..y + 1]) == growth * EmptyRows(lines[..y]) + (if HasGalaxy(lines[y]) then 0 else growth)
  {
    assert lines[..y + 1][..y] == lines[..y];
    Distribute(growth, EmptyRows(lines[..y]), 1);
  }

  /** The galaxies of one row pushed, left to right, at height y. */
  method PushRow(galaxies: seq<Galaxy>, line: string, y: nat) returns (pushed: seq<Galaxy>)
    ensures pushed == galaxies + RowGalaxies(line, y)
  {
    pushed := galaxies;
    for x := 0 to |line|
      invariant pushed == galaxies + RowGalaxies(line[..x], y)
    {
      assert line[..x + 1][..x] == line[..x];
      if line[x] == '#' {
        pushed := pushed + [Galaxy(x, y)];
      }
    }
    assert line[..|line|] == line;
  }

  /** `parse_map`: the row pass with growth expansion - 1, the stable sort by column,
      and the column pass when some column is empty. */
  method ParseMap(lines: seq<string>, expansion: nat) returns (r: Result<seq<Galaxy>>)
    requires expansion >= 1
    ensures r == ExpandedMap(lines, expansion)
  {
    var growth := expansion - 1;
    var galaxies := ScanRows(lines, growth);
    if |lines| == 0 {
      return Err(NoFirstLine);
    }
    galaxies := SortBy(galaxies, XLe);
    var empties := EmptyColumns(galaxies, |lines[0]|);
    if empties != [] {
      ShiftReady(Scan(lines, growth), |lines[0]|);
      galaxies := ShiftColumns(galaxies, empties, growth);
    } else {
      ExpandNone(galaxies, growth);
    }
    r := Ok(galaxies);
  }

  /** What the column pass needs of the sorted galaxies and their empty columns. */
  lemma ShiftReady(gs: seq<Galaxy>, width: nat)
    ensures SortedBy(SortBy(gs, XLe), XLe)
    ensures Increasing(EmptyColumns(SortBy(gs, XLe), width))
  {
    XLeTotal();
    SortBySorted(gs, XLe);
    EmptyColumnsSpec(SortBy(gs, XLe), width);
  }

  /** Without empty columns nothing moves. */
  lemma ExpandNone(gs: seq<Galaxy>, growth: nat)
    ensures ExpandColumns(gs, [], growth) == gs
  {
    assert forall i :: 0 <= i < |gs| ==> ExpandColumns(gs, [], growth)[i] == gs[i];
  }

  function Abs(v: int): nat {
    if v < 0 then -v else v
  }

  /** The Manhattan distance between two galaxies. */
  function Dist(a: Galaxy, b: Galaxy): nat {
    Abs(a.x - b.x) + Abs(a.y - b.y)
  }

  function DistFrom(g: Galaxy): Galaxy -> int {
    h => Dist(h, g)
  }

  /** The sum of the distances over all unordered pairs: each galaxy with every galaxy
      before it. */
  function TotalDistance(gs: seq<Galaxy>): int
    decreases |gs|
  {
    if gs == [] then 0
    else TotalDistance(gs[..|gs| - 1]) + SumOf(gs[..|gs| - 1], DistFrom(gs[|gs| - 1]))
  }

  lemma TotalDistanceSnoc(gs: seq<Galaxy>, g: Galaxy)
    ensures TotalDistance(gs + [g]) == TotalDistance(gs) + SumOf(gs, DistFrom(g))
  {
    assert (gs + [g])[..|gs|] == gs;
  }

  /** Taking one galaxy out of the middle removes exactly its distances to the rest. */
  lemma {:induction false} TotalDistanceExtract(a: seq<Galaxy>, g: Galaxy, b: seq<Galaxy>)
    ensures TotalDistance(a + [g] + b) == TotalDistance(a + b) + SumOf(a + b, DistFrom(g))
    decreases |b|
  {
    if b == [] {
      assert a + [g] + b == a + [g];
      assert a + b == a;
      TotalDistanceSnoc(a, g);
    } else {
      var b', h := b[..|b| - 1], b[|b| - 1];
      TotalDistanceExtract(a, g, b');
      assert a + [g] + b == (a + [g] + b') + [h];
      assert a + b == (a + b') + [h];
      TotalDistanceSnoc(a + [g] + b', h);
      TotalDistanceSnoc(a + b', h);
      SumOfAppend(a + [g], b', DistFrom(h));
      SumOfAppend(a, [g], DistFrom(h));
      SumOfAppend(a, b', DistFrom(h));
      SumOfAppend(a + b', [h], DistFrom(g));
      assert SumOf([g], DistFrom(h)) == Dist(g, h) by {
        assert [g][..0] == [];
      }
      assert SumOf([h], DistFrom(g)) == Dist(h, g) by {
        assert [h][..0] == [];
      }
    }
  }

  /** The distance sum does not depend on the order of the galaxies. */
  lemma {:induction false} TotalDistancePermutation(gs: seq<Galaxy>, hs: seq<Galaxy>)
    requires multiset(gs) == multiset(hs)
    ensures TotalDistance(gs) == TotalDistance(hs)
    decreases |gs|
  {
    if gs == [] {
      assert |hs| == |multiset(hs)| == 0;
    } else {
      var init, g := gs[..|gs| - 1], gs[|gs| - 1];
      var i := RemoveLast(gs, hs);
      var rest := hs[..i] + hs[i + 1..];
      TotalDistancePermutation(init, rest);
      SumOfPermutation(init, rest, DistFrom(g));
      TotalDistanceExtract(hs[..i], g, hs[i + 1..]);
    }
  }

  /** Where the last galaxy of gs sits in a reordering hs, and what is left of both
      without it. */
  lemma RemoveLast(gs: seq<Galaxy>, hs: seq<Galaxy>) returns (i: nat)
    requires gs != [] && multiset(gs) == multiset(hs)
    ensures i < |hs| && hs[i] == gs[|gs| - 1]
    ensures gs == gs[..|gs| - 1] + [gs[|gs| - 1]]
    ensures hs == hs[..i] + [hs[i]] + hs[i + 1..]
    ensures multiset(gs[..|gs| - 1]) == multiset(hs[..i] + hs[i + 1..])
  {
    var init, g := gs[..|gs| - 1], gs[|gs| - 1];
    assert gs == init + [g];
    assert g in multiset(hs);
    i :| 0 <= i < |hs| && hs[i] == g;
    assert hs == hs[..i] + [g] + hs[i + 1..];
    assert multiset(hs[..i] + hs[i + 1..]) == multiset(hs) - multiset{g};
  }

  /** The distances from gs[i] to gs[i+1..j]. */
  function RowSum(gs: seq<Galaxy>, i: nat, j: nat): int
    requires i < |gs| && j <= |gs|
    decreases j
  {
    if j <= i + 1 then 0 else RowSum(gs, i, j - 1) + Dist(gs[i], gs[j - 1])
  }

  /** The distances of the pairs whose first galaxy is one of the first i. */
  function Upper(gs: seq<Galaxy>, i: nat): int
    requires i <= |gs|
    decreases i
  {
    if i == 0 then 0 else Upper(gs, i - 1) + RowSum(gs, i - 1, |gs|)
  }

  lemma {:induction false} RowSumSnoc(gs: seq<Galaxy>, g: Galaxy, i: nat, j: nat)
    requires i < |gs| && j <= |gs|
    ensures RowSum(gs + [g], i, j) == RowSum(gs, i, j)
    decreases j
  {
    if j > i + 1 {
      RowSumSnoc(gs, g, i, j - 1);
    }
  }

  lemma {:induction false} UpperSnoc(gs: seq<Galaxy>, g: Galaxy, i: nat)
    requires i <= |gs|
    ensures Upper(gs + [g], i) == Upper(gs, i) + SumOf(gs[..i], DistFrom(g))
    decreases i
  {
    if i > 0 {
      UpperSnoc(gs, g, i - 1);
      RowSumSnoc(gs, g, i - 1, |gs|);
      assert gs[..i][..i - 1] == gs[..i - 1];
    }
  }

  /** Summing pair by pair from the first galaxy (as the loops do) gives the total. */
  lemma {:induction false} UpperIsTotal(gs: seq<Galaxy>)
    ensures Upper(gs, |gs|) == TotalDistance(gs)
    decreases |gs|
  {
    if gs != [] {
      var init, g := gs[..|gs| - 1], gs[|gs| - 1];
      assert gs == init + [g];
      UpperIsTotal(init);
      UpperSnoc(init, g, |init|);
      assert init[..|init|] == init;
      TotalDistanceSnoc(init, g);
    }
  }

  /** The double loop of `solve` over pairs i < j. */
  method SumDistances(gs: seq<Galaxy>) returns (res: int)
    ensures res == TotalDistance(gs)
  {
    res := 0;
    for i := 0 to |gs|
      invariant res == Upper(gs, i)
    {
      for j := i to |gs|
        invariant res == Upper(gs, i) + RowSum(gs, i, j)
      {
        if i != j {
          res := res + Dist(gs[i], gs[j]);
        }
      }
    }
    UpperIsTotal(gs);
  }

  /** `solve` of part 2: the distance sum over the universe grown by expansion, which
      the sort does not change. */
  method Solve(lines: seq<string>, expansion: nat) returns (r: Result<int>)
    requires expansion >= 1
    ensures |lines| == 0 ==> r == Err(NoFirstLine)
    ensures |lines| > 0 ==> r == Ok(TotalDistance(Universe(lines, expansion)))
  {
    var galaxies := ParseMap(lines, expansion);
    if galaxies.Err? {
      return Err(galaxies.error);
    }
    ExpandedMapSpec(lines, expansion);
    var res := SumDistances(galaxies.value);
    TotalDistancePermutation(galaxies.value, Universe(lines, expansion));
    r := Ok(res);
  }

  /** Part 1: every empty row and column counts twice. */
  method Part1(lines: seq<string>) returns (r: Result<int>)
    ensures |lines| == 0 ==> r == Err(NoFirstLine)
    ensures |lines| > 0 ==> r == Ok(TotalDistance(Universe(lines, 2)))
  {
    r := Solve(lines, 2);
  }
}
