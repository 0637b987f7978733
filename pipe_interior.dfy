/** Day 10 part 2: the tiles enclosed by the loop. Every tile off the loop is a
    candidate; a vertical ray from the top of its column down to it is scanned over the
    loop tiles it meets, counting crossings with a one-slot memo of the last open bend,
    and the candidate is inside when the count is odd. */
module PipeInterior {
  import opened Wrappers
  import opened PipeMaze
  import opened Sorting

  // ---------------------------------------------------------------------------
  // Candidates
  // ---------------------------------------------------------------------------

  /** Every tile of the grid, row by row. */
  function Flatten(grid: Grid): seq<Pipe>
    decreases |grid|
  {
    if grid == [] then [] else Flatten(grid[..|grid| - 1]) + grid[|grid| - 1]
  }

  predicate InGrid(grid: Grid, p: Pipe) {
    exists y, x :: 0 <= y < |grid| && 0 <= x < |grid[y]| && grid[y][x] == p
  }

  lemma {:induction false} FlattenSpec(grid: Grid)
    ensures forall p :: p in Flatten(grid) <==> InGrid(grid, p)
    decreases |grid|
  {
    if grid != [] {
      var init := grid[..|grid| - 1];
      FlattenSpec(init);
      forall p
        ensures p in Flatten(grid) <==> InGrid(grid, p)
      {
        if InGrid(grid, p) {
          var y, x :| 0 <= y < |grid| && 0 <= x < |grid[y]| && grid[y][x] == p;
          if y < |init| {
            assert init[y][x] == p;
          }
        }
        if p in Flatten(init) {
          var y, x :| 0 <= y < |init| && 0 <= x < |init[y]| && init[y][x] == p;
          assert grid[y][x] == p;
        }
        if p in grid[|grid| - 1] {
          var x :| 0 <= x < |grid[|grid| - 1]| && grid[|grid| - 1][x] == p;
        }
      }
    }
  }

  /** The tiles of `tiles` that are not on the loop, in their order. */
  function OffLoop(tiles: seq<Pipe>, loop: seq<Pipe>): (r: seq<Pipe>)
    ensures |r| <= |tiles|
    decreases |tiles|
  {
    if tiles == [] then []
    else OffLoop(tiles[..|tiles| - 1], loop) + (if tiles[|tiles| - 1] in loop then [] else [tiles[|tiles| - 1]])
  }

  /** `get_ground_tiles`: the grid's tiles not on the loop, row by row. */
  function GroundTiles(grid: Grid, loop: seq<Pipe>): seq<Pipe> {
    OffLoop(Flatten(grid), loop)
  }

  lemma {:induction false} OffLoopSpec(tiles: seq<Pipe>, loop: seq<Pipe>)
    ensures forall p :: p in OffLoop(tiles, loop) <==> p in tiles && p !in loop
    decreases |tiles|
  {
    if tiles != [] {
      OffLoopSpec(tiles[..|tiles| - 1], loop);
      assert tiles == tiles[..|tiles| - 1] + [tiles[|tiles| - 1]];
    }
  }

  /** The candidates and the loop split the grid: a grid tile is a candidate exactly
      when it is not on the loop, and every candidate is a grid tile. */
  lemma GroundTilesSpec(grid: Grid, loop: seq<Pipe>)
    ensures forall p :: p in GroundTiles(grid, loop) <==> InGrid(grid, p) && p !in loop
  {
    FlattenSpec(grid);
    OffLoopSpec(Flatten(grid), loop);
  }

  // ---------------------------------------------------------------------------
  // The ray above a candidate
  // ---------------------------------------------------------------------------

  /** The loop tiles in column x strictly above row y, in loop order. */
  function ColumnAbove(loop: seq<Pipe>, x: nat, y: nat): (r: seq<Pipe>)
    ensures |r| <= |loop|
    decreases |loop|
  {
    if loop == [] then []
    else
      var p := loop[|loop| - 1];
      ColumnAbove(loop[..|loop| - 1], x, y) + (if p.x == x && p.y < y then [p] else [])
  }

  lemma {:induction false} ColumnAboveSpec(loop: seq<Pipe>, x: nat, y: nat)
    ensures forall p :: p in ColumnAbove(loop, x, y) <==> p in loop && p.x == x && p.y < y
    decreases |loop|
  {
    if loop != [] {
      ColumnAboveSpec(loop[..|loop| - 1], x, y);
      assert loop == loop[..|loop| - 1] + [loop[|loop| - 1]];
    }
  }

  /** Ordering by row, as `sort_by` on the y coordinate. */
  predicate RowLe(a: Pipe, b: Pipe) {
    a.y <= b.y
  }

  lemma RowLeTotal()
    ensures TotalPreorder(RowLe)
  {
  }

  /** The loop tiles met going down the candidate's column, top first. */
  function Ray(loop: seq<Pipe>, g: Pipe): seq<Pipe> {
    SortBy(ColumnAbove(loop, g.x, g.y), RowLe)
  }

  /** The ray holds exactly the loop tiles above the candidate in its column, as often
      as the loop does, ordered from the top row down; tiles in the same row keep their
      loop order. */
  lemma RaySpec(loop: seq<Pipe>, g: Pipe)
    ensures multiset(Ray(loop, g)) == multiset(ColumnAbove(loop, g.x, g.y))
    ensures forall p :: p in Ray(loop, g) <==> p in loop && p.x == g.x && p.y < g.y
    ensures SortedBy(Ray(loop, g), RowLe)
    ensures forall k :: Tied(Ray(loop, g), RowLe, k) == Tied(ColumnAbove(loop, g.x, g.y), RowLe, k)
  {
    var column := ColumnAbove(loop, g.x, g.y);
    SortByPermutes(column, RowLe);
    ColumnAboveSpec(loop, g.x, g.y);
    forall p
      ensures p in Ray(loop, g) <==> p in column
    {
      assert p in Ray(loop, g) <==> p in multiset(Ray(loop, g));
    }
    RowLeTotal();
    SortBySorted(column, RowLe);
    forall k
      ensures Tied(Ray(loop, g), RowLe, k) == Tied(column, RowLe, k)
    {
      SortByStable(column, RowLe, k);
    }
  }

  // ---------------------------------------------------------------------------
  // The crossing count
  // ---------------------------------------------------------------------------

  /** The bend a crossing may have opened with: `start_pattern`. */
  datatype Memo = NoBend | OpenSW | OpenSE

  datatype Scan = Scan(count: nat, memo: Memo)

  /** One loop tile met by the ray: a horizontal pipe crosses; a '7' or 'F' opens a
      bend; an 'L' after a '7', or a 'J' after an 'F', closes a crossing; anything else
      leaves the scan as it is. */
  function Step(s: Scan, k: Kind): Scan {
    match k
    case Horizontal => Scan(s.count + 1, NoBend)
    case BendSW => Scan(s.count, OpenSW)
    case BendSE => Scan(s.count, OpenSE)
    case BendNE => if s.memo == OpenSW then Scan(s.count + 1, NoBend) else s
    case BendNW => if s.memo == OpenSE then Scan(s.count + 1, NoBend) else s
    case _ => s
  }

  /** The scan over kinds met in order. */
  function Run(ks: seq<Kind>, s: Scan): Scan
    decreases |ks|
  {
    if ks == [] then s else Run(ks[1..], Step(s, ks[0]))
  }

  /** Every loop tile has its connections: the start among them can be resolved. */
  ghost predicate Resolves(connect: Connect, tiles: seq<Pipe>) {
    forall i :: 0 <= i < |tiles| ==> connect(tiles[i]).Ok?
  }

  /** The kind the scan sees: the start is read as its resolved kind. */
  function SeenKind(connect: Connect, p: Pipe): Kind
    requires connect(p).Ok?
  {
    if p.kind == Start then connect(p).value.kind else p.kind
  }

  function SeenKinds(connect: Connect, tiles: seq<Pipe>): (ks: seq<Kind>)
    requires Resolves(connect, tiles)
    ensures |ks| == |tiles|
  {
    seq(|tiles|, i requires 0 <= i < |tiles| && connect(tiles[i]).Ok? => SeenKind(connect, tiles[i]))
  }

  /** The crossing count of a candidate's ray. */
  function Crossings(connect: Connect, loop: seq<Pipe>, g: Pipe): nat
    requires Resolves(connect, loop)
  {
    RayResolves(connect, loop, g);
    Run(SeenKinds(connect, Ray(loop, g)), Scan(0, NoBend)).count
  }

  lemma RayResolves(connect: Connect, loop: seq<Pipe>, g: Pipe)
    requires Resolves(connect, loop)
    ensures Resolves(connect, Ray(loop, g))
  {
    RaySpec(loop, g);
    forall i | 0 <= i < |Ray(loop, g)|
      ensures connect(Ray(loop, g)[i]).Ok?
    {
      assert Ray(loop, g)[i] in loop;
    }
  }

  /** The scan of `solve` over one ray: the memo and the count, tile by tile. */
  method ScanColumn(connect: Connect, tiles: seq<Pipe>) returns (count: nat)
    requires Resolves(connect, tiles)
    ensures count == Run(SeenKinds(connect, tiles), Scan(0, NoBend)).count
  {
    ghost var ks := SeenKinds(connect, tiles);
    var memo := NoBend;
    count := 0;
    for i := 0 to |tiles|
      invariant Run(ks[i..], Scan(count, memo)) == Run(ks, Scan(0, NoBend))
    {
      var kind := tiles[i].kind;
      if kind == Start {
        var c := connect(tiles[i]);
        kind := c.value.kind;
      }
      assert kind == ks[i];
      assert ks[i..][1..] == ks[i + 1..];
      match kind {
        case Horizontal =>
          count := count + 1;
          memo := NoBend;
        case BendSW =>
          memo := OpenSW;
        case BendSE =>
          memo := OpenSE;
        case BendNE =>
          if memo == OpenSW {
            count := count + 1;
            memo := NoBend;
          }
        case BendNW =>
          if memo == OpenSE {
            count := count + 1;
            memo := NoBend;
          }
        case _ =>
      }
    }
  }

  // ---------------------------------------------------------------------------
  // Why the parity of the count decides
  // ---------------------------------------------------------------------------

  /** 1 for the pipes with an end pointing west: '-', '7' and 'J'. */
  function WestEnd(k: Kind): nat {
    if West in Ends(k) then 1 else 0
  }

  function WestEnds(ks: seq<Kind>): nat
    decreases |ks|
  {
    if ks == [] then 0 else WestEnd(ks[0]) + WestEnds(ks[1..])
  }

  /** The first position from i on that is not a vertical pipe. */
  function VerticalRun(ks: seq<Kind>, i: nat): (j: nat)
    requires i <= |ks|
    ensures i <= j <= |ks|
    ensures forall l :: i <= l < j ==> ks[l] == Vertical
    ensures j < |ks| ==> ks[j] != Vertical
    decreases |ks| - i
  {
    if i == |ks| || ks[i] != Vertical then i else VerticalRun(ks, i + 1)
  }

  /** How a closed loop meets a column from the top: a sequence of horizontal pipes and
      bend pairs, each a '7' or 'F', then vertical pipes, then an 'L' or 'J'. */
  predicate WellNested(ks: seq<Kind>)
    decreases |ks|
  {
    if ks == [] then true
    else if ks[0] == Horizontal then WellNested(ks[1..])
    else if ks[0] == BendSW || ks[0] == BendSE then
      var j := VerticalRun(ks, 1);
      j < |ks| && (ks[j] == BendNE || ks[j] == BendNW) && WellNested(ks[j + 1..])
    else false
  }

  /** Vertical pipes change neither the scan nor the west-end count. */
  lemma {:induction false} SkipVerticals(ks: seq<Kind>, i: nat, s: Scan)
    requires i <= |ks|
    ensures Run(ks[i..], s) == Run(ks[VerticalRun(ks, i)..], s)
    ensures WestEnds(ks[i..]) == WestEnds(ks[VerticalRun(ks, i)..])
    decreases |ks| - i
  {
    if i < |ks| && ks[i] == Vertical {
      assert ks[i..][1..] == ks[i + 1..];
      SkipVerticals(ks, i + 1, s);
    }
  }

  /** A bend pair crosses the column exactly when one of its two bends points west:
      a '7' closed by an 'L', or an 'F' closed by a 'J'. */
  lemma PairStep(s: Scan, a: Kind, b: Kind)
    requires (a == BendSW || a == BendSE) && (b == BendNE || b == BendNW)
    ensures Step(Step(s, a), b).count == s.count + (if WestEnd(a) + WestEnd(b) == 1 then 1 else 0)
  {
  }

  /** On a well-nested column the count is odd exactly when an odd number of the tiles
      met have an end pointing west: the scan counts crossings of the loop, whatever the
      memo it starts from. */
  lemma {:induction false} NestedParity(ks: seq<Kind>, s: Scan)
    requires WellNested(ks)
    ensures Run(ks, s).count % 2 == (s.count + WestEnds(ks)) % 2
    decreases |ks|, 1
  {
    if ks != [] {
      if ks[0] == Horizontal {
        NestedParity(ks[1..], Step(s, ks[0]));
      } else {
        PairParity(ks, s);
      }
    }
  }

  /** The same for a column that begins with a bend pair. */
  lemma {:induction false} PairParity(ks: seq<Kind>, s: Scan)
    requires WellNested(ks) && ks != [] && ks[0] != Horizontal
    ensures Run(ks, s).count % 2 == (s.count + WestEnds(ks)) % 2
    decreases |ks|, 0
  {
    var j := VerticalRun(ks, 1);
    var a, b, rest := ks[0], ks[j], ks[j + 1..];
    var closed := Step(Step(s, a), b);
    PairRun(ks, s, j);
    PairStep(s, a, b);
    NestedParity(rest, closed);
    PairSum(Run(rest, closed).count, s.count, WestEnd(a) + WestEnd(b), WestEnds(rest));
  }

  /** The arithmetic of a bend pair: it adds one crossing exactly when it has one west
      end, which keeps the parity of the count plus the west ends. */
  lemma PairSum(r: int, c: int, w: int, rest: int)
    requires 0 <= w <= 2
    requires r % 2 == (c + (if w == 1 then 1 else 0) + rest) % 2
    ensures r % 2 == (c + w + rest) % 2
  {
  }

  /** A column that begins with a bend pair, its second bend at j: the scan and the
      west ends go on after the pair. */
  lemma PairRun(ks: seq<Kind>, s: Scan, j: nat)
    requires WellNested(ks) && ks != [] && ks[0] != Horizontal && j == VerticalRun(ks, 1)
    ensures j < |ks| && (ks[0] == BendSW || ks[0] == BendSE) && (ks[j] == BendNE || ks[j] == BendNW)
    ensures WellNested(ks[j + 1..])
    ensures Run(ks, s) == Run(ks[j + 1..], Step(Step(s, ks[0]), ks[j]))
    ensures WestEnds(ks) == WestEnd(ks[0]) + WestEnd(ks[j]) + WestEnds(ks[j + 1..])
  {
    var open := Step(s, ks[0]);
    SkipVerticals(ks, 1, open);
    assert ks[j..][1..] == ks[j + 1..];
  }

  // ---------------------------------------------------------------------------
  // Part 2
  // ---------------------------------------------------------------------------

  predicate Inside(connect: Connect, loop: seq<Pipe>, g: Pipe)
    requires Resolves(connect, loop)
  {
    Crossings(connect, loop, g) % 2 == 1
  }

  /** How many candidates are inside. */
  function InteriorCount(connect: Connect, loop: seq<Pipe>, candidates: seq<Pipe>): (n: nat)
    requires Resolves(connect, loop)
    ensures n <= |candidates|
    decreases |candidates|
  {
    if candidates == [] then 0
    else
      var last := candidates[|candidates| - 1];
      InteriorCount(connect, loop, candidates[..|candidates| - 1]) + (if Inside(connect, loop, last) then 1 else 0)
  }

  /** Every tile of a loop that came back to its start has its connections. */
  lemma LoopResolves(connect: Connect, start: Pipe, t: nat)
    requires Returns(connect, start, t)
    ensures Resolves(connect, Visited(connect, start, t))
  {
    var loop := Visited(connect, start, t);
    forall i | 0 <= i < |loop|
      ensures connect(loop[i]).Ok?
    {
      VisitedAt(connect, start, t, 1);
      if i == 0 {
        assert Trace(connect, start, 0).Ok?;
      } else {
        VisitedAt(connect, start, t, i);
        assert Trace(connect, start, i).Ok?;
      }
    }
  }

  /** The loop of a grid whose walk came back to the start. */
  ghost function LoopOf(lines: seq<string>, t: nat): seq<Pipe>
    requires FindStart(lines).Some? && Returns(Connections(Tiles(lines)), StartTile(lines), t)
  {
    Visited(Connections(Tiles(lines)), StartTile(lines), t)
  }

  /** The loop of `solve`: each candidate's ray, its crossing count, and the number
      of candidates with an odd count. */
  method CountInside(connect: Connect, loop: seq<Pipe>, candidates: seq<Pipe>) returns (area: nat)
    requires Resolves(connect, loop)
    ensures area == InteriorCount(connect, loop, candidates)
  {
    area := 0;
    for i := 0 to |candidates|
      invariant area == InteriorCount(connect, loop, candidates[..i])
    {
      var g := candidates[i];
      var column := ColumnAbove(loop, g.x, g.y);
      var tiles := SortBy(column, RowLe);
      RayResolves(connect, loop, g);
      var count := ScanColumn(connect, tiles);
      if count % 2 == 1 {
        area := area + 1;
      }
      assert candidates[..i + 1][..i] == candidates[..i];
    }
    assert candidates[..|candidates|] == candidates;
  }

  /** The walk, the candidates and their count, on any connections. */
  method Enclosed(connect: Connect, grid: Grid, start: Pipe) returns (r: Result<nat>)
    requires Halts(connect, start)
    ensures r.Ok? ==>
      exists t: nat :: Returns(connect, start, t)
        && var loop := Visited(connect, start, t);
        && Resolves(connect, loop)
        && r.value == InteriorCount(connect, loop, GroundTiles(grid, loop))
    ensures r.Err? ==> exists t :: Fails(connect, start, t) && r.error == Trace(connect, start, t).error
  {
    var pipe := CompletePipe(connect, start);
    if pipe.Err? {
      return Err(pipe.error);
    }
    var loop := pipe.value;
    ghost var t: nat := |loop| - 1;
    LoopResolves(connect, start, t);
    var candidates := GroundTiles(grid, loop);
    var area := CountInside(connect, loop, candidates);
    r := Ok(area);
  }

  /** Part 2: the number of tiles off the loop that it encloses. */
  method Part2(lines: seq<string>) returns (r: Result<nat>)
    requires FindStart(lines).Some? ==> Halts(Connections(Tiles(lines)), StartTile(lines))
    ensures FindStart(lines).None? ==> r == Err(NoStart)
    ensures FindStart(lines).Some? && r.Ok? ==>
      exists t: nat :: Returns(Connections(Tiles(lines)), StartTile(lines), t)
        && var loop := LoopOf(lines, t);
        && Resolves(Connections(Tiles(lines)), loop)
        && r.value == InteriorCount(Connections(Tiles(lines)), loop, GroundTiles(Tiles(lines), loop))
    ensures FindStart(lines).Some? && r.Err? ==>
      exists t :: Fails(Connections(Tiles(lines)), StartTile(lines), t) && r.error == Trace(Connections(Tiles(lines)), StartTile(lines), t).error
  {
    var located := LocateStart(lines);
    if located.Err? {
      return Err(located.error);
    }
    var (grid, start) := located.value;
    r := Enclosed(Connections(grid), grid, start);
  }
}
