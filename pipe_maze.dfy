/** Day 10 ("Pipe Maze"), the grid and the loop: a character grid read into tiles that
    carry their own position, the start tile's real shape worked out from the
    neighbours that connect back to it, and the walk around the loop from the start
    back to it. Part 1 answers half the loop length. */
module PipeMaze {
  import opened Wrappers

  datatype Kind = Vertical | Horizontal | BendNE | BendNW | BendSW | BendSE | Ground | Start

  /** A tile: its kind and its (column, row). Two tiles are equal exactly when kind and
      position are. */
  datatype Pipe = Pipe(kind: Kind, x: nat, y: nat)

  /** Rows of tiles, top to bottom. */
  type Grid = seq<seq<Pipe>>

  datatype Dir = North | South | East | West

  const CouldNotGet := "Could not get pipe"
  const Underflow := "attempt to subtract with overflow"
  const NoStart := "Start not found"
  const NotTwoLinks := "assertion `left == right` failed"

  // ---------------------------------------------------------------------------
  // Reading the grid
  // ---------------------------------------------------------------------------

  function KindOf(c: char): Kind {
    match c
    case '|' => Vertical
    case '-' => Horizontal
    case 'L' => BendNE
    case 'J' => BendNW
    case '7' => BendSW
    case 'F' => BendSE
    case 'S' => Start
    case _ => Ground
  }

  /** The character drawing each kind. */
  function Symbol(k: Kind): char {
    match k
    case Vertical => '|'
    case Horizontal => '-'
    case BendNE => 'L'
    case BendNW => 'J'
    case BendSW => '7'
    case BendSE => 'F'
    case Ground => '.'
    case Start => 'S'
  }

  /** The table is read back from the drawing of every kind, and only the seven pipe
      and start characters give something other than ground. */
  lemma KindOfSpec(c: char)
    ensures forall k :: KindOf(Symbol(k)) == k
    ensures KindOf(c) != Ground <==> c in "|-LJ7FS"
    ensures KindOf(c) != Ground ==> Symbol(KindOf(c)) == c
  {
  }

  /** Row y of the grid: one tile per character, at its column. */
  function Row(line: string, y: nat): (r: seq<Pipe>)
    ensures |r| == |line|
  {
    seq(|line|, x requires 0 <= x < |line| => Pipe(KindOf(line[x]), x, y))
  }

  function Tiles(lines: seq<string>): (g: Grid)
    ensures |g| == |lines|
  {
    seq(|lines|, y requires 0 <= y < |lines| => Row(lines[y], y))
  }

  /** Every tile sits at the position it is stored at. */
  ghost predicate WellFormed(grid: Grid) {
    forall y, x :: 0 <= y < |grid| && 0 <= x < |grid[y]| ==> grid[y][x].x == x && grid[y][x].y == y
  }

  lemma TilesWellFormed(lines: seq<string>)
    ensures WellFormed(Tiles(lines))
  {
  }

  /** The last 'S' of a row, or before when the row has none. */
  function RowStart(line: string, y: nat, before: Option<(nat, nat)>): Option<(nat, nat)>
    decreases |line|
  {
    if line == [] then before
    else if line[|line| - 1] == 'S' then Some((|line| - 1, y))
    else RowStart(line[..|line| - 1], y, before)
  }

  /** The last 'S' in reading order. */
  function FindStart(lines: seq<string>): Option<(nat, nat)>
    decreases |lines|
  {
    if lines == [] then None
    else RowStart(lines[|lines| - 1], |lines| - 1, FindStart(lines[..|lines| - 1]))
  }

  predicate IsStart(lines: seq<string>, x: nat, y: nat) {
    y < |lines| && x < |lines[y]| && lines[y][x] == 'S'
  }

  /** (x1, y1) comes before (x2, y2) in reading order. */
  predicate ReadBefore(x1: nat, y1: nat, x2: nat, y2: nat) {
    y1 < y2 || (y1 == y2 && x1 < x2)
  }

  /** A row without 'S' keeps the earlier start; otherwise the start moves to the
      row's last 'S'. */
  lemma {:induction false} RowStartSpec(line: string, y: nat, before: Option<(nat, nat)>) returns (x: nat)
    ensures 'S' !in line ==> RowStart(line, y, before) == before
    ensures 'S' in line ==>
      && x < |line| && line[x] == 'S' && RowStart(line, y, before) == Some((x, y))
      && forall x' :: x < x' < |line| ==> line[x'] != 'S'
    decreases |line|
  {
    x := 0;
    if line != [] {
      var init := line[..|line| - 1];
      assert line == init + [line[|line| - 1]];
      if line[|line| - 1] == 'S' {
        x := |line| - 1;
      } else {
        x := RowStartSpec(init, y, before);
      }
    }
  }

  /** The start is found exactly when some 'S' exists, and it is the last 'S' in reading
      order: later markers win. */
  lemma {:induction false} FindStartSpec(lines: seq<string>)
    ensures FindStart(lines).None? <==> forall x: nat, y: nat :: !IsStart(lines, x, y)
    ensures FindStart(lines).Some? ==>
      && IsStart(lines, FindStart(lines).value.0, FindStart(lines).value.1)
      && forall x: nat, y: nat :: IsStart(lines, x, y) ==> !ReadBefore(FindStart(lines).value.0, FindStart(lines).value.1, x, y)
    decreases |lines|
  {
    if lines != [] {
      var k := |lines| - 1;
      var init := lines[..k];
      FindStartSpec(init);
      var x := RowStartSpec(lines[k], k, FindStart(init));
      if 'S' in lines[k] {
        assert IsStart(lines, x, k);
        forall x': nat, y': nat | IsStart(lines, x', y')
          ensures !ReadBefore(x, k, x', y')
        {
        }
      } else {
        forall x': nat, y': nat
          ensures IsStart(lines, x', y') <==> IsStart(init, x', y')
        {
          if y' == k && x' < |lines[k]| {
            assert lines[k][x'] in lines[k];
          }
        }
      }
    }
  }

  /** One row of `parse_map`: a tile per character, and the start moved to every 'S'. */
  method ParseRow(line: string, y: nat, before: Option<(nat, nat)>) returns (row: seq<Pipe>, start: Option<(nat, nat)>)
    ensures row == Row(line, y) && start == RowStart(line, y, before)
  {
    row := [];
    start := before;
    for x := 0 to |line|
      invariant row == Row(line[..x], y) && start == RowStart(line[..x], y, before)
    {
      assert line[..x + 1][..x] == line[..x];
      if line[x] == 'S' {
        start := Some((x, y));
      }
      row := row + [Pipe(KindOf(line[x]), x, y)];
    }
    assert line[..|line|] == line;
  }

  /** `parse_map`: the grid and the position of the last 'S'; no 'S' is an error. */
  method ParseMap(lines: seq<string>) returns (r: Result<((nat, nat), Grid)>)
    ensures FindStart(lines).None? ==> r == Err(NoStart)
    ensures FindStart(lines).Some? ==> r == Ok((FindStart(lines).value, Tiles(lines)))
  {
    var grid: Grid := [];
    var start: Option<(nat, nat)> := None;
    for y := 0 to |lines|
      invariant grid == Tiles(lines[..y]) && start == FindStart(lines[..y])
    {
      var row;
      row, start := ParseRow(lines[y], y, start);
      assert lines[..y + 1][..y] == lines[..y];
      grid := grid + [row];
    }
    assert lines[..|lines|] == lines;
    if start.None? {
      return Err(NoStart);
    }
    r := Ok((start.value, grid));
  }

  // ---------------------------------------------------------------------------
  // Looking around a tile
  // ---------------------------------------------------------------------------

  /** `PipeMap::get`: the tile at column x of row y. */
  function Get(grid: Grid, x: nat, y: nat): Result<Pipe> {
    if y < |grid| && x < |grid[y]| then Ok(grid[y][x]) else Err(CouldNotGet)
  }

  /** The tile one step from (x, y) in direction d; stepping north of row 0 or west of
      column 0 underflows. */
  function Neighbour(grid: Grid, x: nat, y: nat, d: Dir): Result<Pipe> {
    match d
    case North => if y == 0 then Err(Underflow) else Get(grid, x, y - 1)
    case South => Get(grid, x, y + 1)
    case East => Get(grid, x + 1, y)
    case West => if x == 0 then Err(Underflow) else Get(grid, x - 1, y)
  }

  /** q lies one step from p in direction d. */
  predicate Toward(p: Pipe, q: Pipe, d: Dir) {
    match d
    case North => q.x == p.x && q.y + 1 == p.y
    case South => q.x == p.x && q.y == p.y + 1
    case East => q.x == p.x + 1 && q.y == p.y
    case West => q.x + 1 == p.x && q.y == p.y
  }

  /** In a well-formed grid a neighbour found is one step away in that direction. */
  lemma NeighbourToward(grid: Grid, p: Pipe, d: Dir)
    requires WellFormed(grid)
    requires Neighbour(grid, p.x, p.y, d).Ok?
    ensures Toward(p, Neighbour(grid, p.x, p.y, d).value, d)
  {
  }

  function Opposite(d: Dir): Dir {
    match d
    case North => South
    case South => North
    case East => West
    case West => East
  }

  /** The two directions a pipe connects, in the order the source visits them. */
  function Ends(k: Kind): (ds: seq<Dir>)
    ensures k != Ground && k != Start <==> |ds| == 2
    ensures |ds| == 2 ==> ds[0] != ds[1]
    ensures k == Ground || k == Start ==> ds == []
  {
    match k
    case Vertical => [North, South]
    case Horizontal => [West, East]
    case BendNE => [East, North]
    case BendNW => [West, North]
    case BendSW => [West, South]
    case BendSE => [East, South]
    case Ground => []
    case Start => []
  }

  predicate IsPipe(k: Kind) {
    k != Ground && k != Start
  }

  // ---------------------------------------------------------------------------
  // The start's real shape
  // ---------------------------------------------------------------------------

  /** Which neighbours of the start are taken as connecting back to it. */
  datatype Rule =
    | Corrected  // the neighbour has an end pointing back at the start
    | AsWritten  // the kinds listed in the source for each direction

  /** Whether the start takes a neighbour of kind k lying in direction d. As written,
      the east and west lookups take the pipes with an end pointing back, but the
      south lookup takes '|', 'F', '7' and the north lookup '|', 'J', 'L': the pipes
      pointing away from the start. */
  function Accepts(rule: Rule, d: Dir, k: Kind): bool {
    match rule
    case Corrected => Opposite(d) in Ends(k)
    case AsWritten =>
      match d
      case East => k == Horizontal || k == BendNW || k == BendSW
      case West => k == Horizontal || k == BendNE || k == BendSE
      case South => k == Vertical || k == BendSE || k == BendSW
      case North => k == Vertical || k == BendNW || k == BendNE
  }

  predicate IsBend(k: Kind) {
    k == BendNE || k == BendNW || k == BendSW || k == BendSE
  }

  /** The two rules agree everywhere except on bends found north or south of the start. */
  lemma AcceptsDiffer(d: Dir, k: Kind)
    ensures Accepts(AsWritten, d, k) != Accepts(Corrected, d, k) <==> (d == North || d == South) && IsBend(k)
  {
  }

  /** A neighbour of the start that connects back, with the direction it lies in. */
  datatype Link = Link(dir: Dir, pipe: Pipe)

  /** Looking at the start's neighbour in direction d: west of column 0 and north of row
      0 are not looked at; a neighbour looked at but missing is an error; a neighbour
      found is kept when the rule accepts its kind. */
  function Probe(grid: Grid, x: nat, y: nat, d: Dir, rule: Rule): Result<Option<Pipe>> {
    if (d == West && x == 0) || (d == North && y == 0) then Ok(None)
    else
      match Neighbour(grid, x, y, d)
      case Err(e) => Err(e)
      case Ok(q) => Ok(if Accepts(rule, d, q.kind) then Some(q) else None)
  }

  function ProbeAll(grid: Grid, x: nat, y: nat, ds: seq<Dir>, rule: Rule): Result<seq<Link>>
    decreases |ds|
  {
    if ds == [] then Ok([])
    else
      match Probe(grid, x, y, ds[0], rule)
      case Err(e) => Err(e)
      case Ok(found) =>
        match ProbeAll(grid, x, y, ds[1..], rule)
        case Err(e) => Err(e)
        case Ok(rest) => Ok((if found.Some? then [Link(ds[0], found.value)] else []) + rest)
  }

  /** The order in which the start's neighbours are looked at. */
  const Compass: seq<Dir> := [East, West, South, North]

  /** The start's neighbours that connect back, east, west, south, north. */
  function Links(grid: Grid, x: nat, y: nat, rule: Rule): Result<seq<Link>> {
    ProbeAll(grid, x, y, Compass, rule)
  }

  /** The neighbour in direction d is looked at and taken. */
  predicate Taken(grid: Grid, x: nat, y: nat, d: Dir, rule: Rule) {
    Neighbour(grid, x, y, d).Ok? && Probe(grid, x, y, d, rule) == Ok(Some(Neighbour(grid, x, y, d).value))
  }

  predicate Probed(grid: Grid, x: nat, y: nat, ds: seq<Dir>, rule: Rule) {
    forall i :: 0 <= i < |ds| ==> Probe(grid, x, y, ds[i], rule).Ok?
  }

  /** The probe fails exactly when a neighbour looked at is missing. */
  lemma {:induction false} ProbeAllOk(grid: Grid, x: nat, y: nat, ds: seq<Dir>, rule: Rule)
    ensures ProbeAll(grid, x, y, ds, rule).Ok? <==> Probed(grid, x, y, ds, rule)
    decreases |ds|
  {
    if ds != [] {
      ProbeAllOk(grid, x, y, ds[1..], rule);
      if Probe(grid, x, y, ds[0], rule).Ok? && !Probed(grid, x, y, ds[1..], rule) {
        var i :| 0 <= i < |ds[1..]| && Probe(grid, x, y, ds[1..][i], rule).Err?;
        assert ds[1..][i] == ds[i + 1];
      }
    }
  }

  /** The links of a non-empty list of directions: the first direction's link, when
      its neighbour is taken, then the links of the rest. */
  lemma ProbeAllCons(grid: Grid, x: nat, y: nat, ds: seq<Dir>, rule: Rule) returns (head: seq<Link>)
    requires ds != [] && ProbeAll(grid, x, y, ds, rule).Ok?
    ensures Probe(grid, x, y, ds[0], rule).Ok? && ProbeAll(grid, x, y, ds[1..], rule).Ok?
    ensures head == if Probe(grid, x, y, ds[0], rule).value.Some?
      then [Link(ds[0], Probe(grid, x, y, ds[0], rule).value.value)] else []
    ensures ProbeAll(grid, x, y, ds, rule).value == head + ProbeAll(grid, x, y, ds[1..], rule).value
  {
    var found := Probe(grid, x, y, ds[0], rule).value;
    head := if found.Some? then [Link(ds[0], found.value)] else [];
  }

  /** Every link is a neighbour looked at in its direction and taken. */
  lemma {:induction false} ProbeAllSound(grid: Grid, x: nat, y: nat, ds: seq<Dir>, rule: Rule)
    requires ProbeAll(grid, x, y, ds, rule).Ok?
    ensures var links := ProbeAll(grid, x, y, ds, rule).value;
      forall i :: 0 <= i < |links| ==>
        links[i].dir in ds && Taken(grid, x, y, links[i].dir, rule) && links[i].pipe == Neighbour(grid, x, y, links[i].dir).value
    decreases |ds|
  {
    if ds != [] {
      ProbeAllSound(grid, x, y, ds[1..], rule);
      var links := ProbeAll(grid, x, y, ds, rule).value;
      var rest := ProbeAll(grid, x, y, ds[1..], rule).value;
      var head := ProbeAllCons(grid, x, y, ds, rule);
      forall i | |head| <= i < |links|
        ensures links[i].dir in ds
      {
        assert links[i] == rest[i - |head|];
        assert rest[i - |head|].dir in ds[1..];
      }
    }
  }

  /** Every neighbour looked at and taken is linked. */
  lemma {:induction false} ProbeAllComplete(grid: Grid, x: nat, y: nat, ds: seq<Dir>, rule: Rule)
    requires ProbeAll(grid, x, y, ds, rule).Ok?
    ensures var links := ProbeAll(grid, x, y, ds, rule).value;
      forall d :: d in ds && Taken(grid, x, y, d, rule) ==> exists i :: 0 <= i < |links| && links[i].dir == d
    decreases |ds|
  {
    if ds != [] {
      ProbeAllComplete(grid, x, y, ds[1..], rule);
      var links := ProbeAll(grid, x, y, ds, rule).value;
      var rest := ProbeAll(grid, x, y, ds[1..], rule).value;
      var head := ProbeAllCons(grid, x, y, ds, rule);
      forall d | d in ds && Taken(grid, x, y, d, rule)
        ensures exists i :: 0 <= i < |links| && links[i].dir == d
      {
        if d == ds[0] {
          assert links[0].dir == d;
        } else {
          assert d in ds[1..];
          var i :| 0 <= i < |rest| && rest[i].dir == d;
          assert links[|head| + i] == rest[i];
        }
      }
    }
  }

  /** The position of each direction in the order the start's neighbours are looked at. */
  function Rank(d: Dir): nat {
    match d
    case East => 0
    case West => 1
    case South => 2
    case North => 3
  }

  predicate InOrder(ds: seq<Dir>) {
    forall a, b :: 0 <= a < b < |ds| ==> Rank(ds[a]) < Rank(ds[b])
  }

  /** The links come in the order the directions are looked at, so one per direction at
      most. */
  lemma {:induction false} ProbeAllOrdered(grid: Grid, x: nat, y: nat, ds: seq<Dir>, rule: Rule)
    requires InOrder(ds) && ProbeAll(grid, x, y, ds, rule).Ok?
    ensures var links := ProbeAll(grid, x, y, ds, rule).value;
      forall i, j :: 0 <= i < j < |links| ==> Rank(links[i].dir) < Rank(links[j].dir)
    decreases |ds|
  {
    if ds != [] {
      var links := ProbeAll(grid, x, y, ds, rule).value;
      var rest := ProbeAll(grid, x, y, ds[1..], rule).value;
      ProbeAllOrdered(grid, x, y, ds[1..], rule);
      ProbeAllSound(grid, x, y, ds[1..], rule);
      var head := ProbeAllCons(grid, x, y, ds, rule);
      forall j | 0 <= j < |rest|
        ensures Rank(ds[0]) < Rank(rest[j].dir)
      {
        var b :| 0 <= b < |ds[1..]| && ds[1..][b] == rest[j].dir;
        assert ds[b + 1] == rest[j].dir;
      }
    }
  }

  function HasLink(links: seq<Link>, d: Dir): bool {
    exists i :: 0 <= i < |links| && links[i].dir == d
  }

  /** The kind whose two ends are the directions found, tried in the order
      north-south, east-west, north-east, north-west, south-east, south-west; the
      start stays a start when none fits. */
  function Resolve(north: bool, south: bool, east: bool, west: bool): Kind {
    if north && south then Vertical
    else if east && west then Horizontal
    else if north && east then BendNE
    else if north && west then BendNW
    else if south && east then BendSE
    else if south && west then BendSW
    else Start
  }

  function ResolveLinks(links: seq<Link>): Kind {
    Resolve(HasLink(links, North), HasLink(links, South), HasLink(links, East), HasLink(links, West))
  }

  /** Two links in different directions resolve to the pipe whose two ends are exactly
      those directions. */
  lemma ResolveSpec(links: seq<Link>)
    requires |links| == 2 && links[0].dir != links[1].dir
    ensures IsPipe(ResolveLinks(links))
    ensures (set d | d in Ends(ResolveLinks(links))) == {links[0].dir, links[1].dir}
  {
    var d0, d1 := links[0].dir, links[1].dir;
    forall d
      ensures HasLink(links, d) <==> d == d0 || d == d1
    {
      if HasLink(links, d) {
        var i :| 0 <= i < |links| && links[i].dir == d;
      }
    }
  }

  // ---------------------------------------------------------------------------
  // The connections of a tile
  // ---------------------------------------------------------------------------

  /** `get_connected_pipes`: the two tiles a tile connects to, and its kind (the
      resolved kind for the start). */
  datatype Connection = Connection(first: Pipe, second: Pipe, kind: Kind)

  function StartConnection(grid: Grid, p: Pipe, rule: Rule): Result<Connection> {
    match Links(grid, p.x, p.y, rule)
    case Err(e) => Err(e)
    case Ok(links) =>
      if |links| != 2 then Err(NotTwoLinks)
      else Ok(Connection(links[0].pipe, links[1].pipe, ResolveLinks(links)))
  }

  function PipeConnection(grid: Grid, p: Pipe): Result<Connection>
    requires IsPipe(p.kind)
  {
    var ends := Ends(p.kind);
    match Neighbour(grid, p.x, p.y, ends[0])
    case Err(e) => Err(e)
    case Ok(a) =>
      match Neighbour(grid, p.x, p.y, ends[1])
      case Err(e) => Err(e)
      case Ok(b) => Ok(Connection(a, b, p.kind))
  }

  function ConnectedPipes(grid: Grid, p: Pipe): Result<Connection> {
    match p.kind
    case Ground => Ok(Connection(p, p, Ground))
    case Start => StartConnection(grid, p, Corrected)
    case _ => PipeConnection(grid, p)
  }

  /** A pipe connects to its neighbours in the directions of its two ends, in order;
      it fails exactly when one of them is missing. */
  lemma PipeConnectionSpec(grid: Grid, p: Pipe)
    requires WellFormed(grid) && IsPipe(p.kind)
    ensures ConnectedPipes(grid, p).Ok? <==>
      Neighbour(grid, p.x, p.y, Ends(p.kind)[0]).Ok? && Neighbour(grid, p.x, p.y, Ends(p.kind)[1]).Ok?
    ensures ConnectedPipes(grid, p).Ok? ==>
      var c := ConnectedPipes(grid, p).value;
      c.kind == p.kind && Toward(p, c.first, Ends(p.kind)[0]) && Toward(p, c.second, Ends(p.kind)[1])
  {
    if ConnectedPipes(grid, p).Ok? {
      NeighbourToward(grid, p, Ends(p.kind)[0]);
      NeighbourToward(grid, p, Ends(p.kind)[1]);
    }
  }

  /** The start fails when a neighbour looked at is missing or when not exactly two
      neighbours connect back; otherwise it connects to the first two found (east, west,
      south, north order), each one step away with an end pointing back at the start,
      and it resolves to the pipe whose ends are those two directions. */
  lemma StartConnectionSpec(grid: Grid, p: Pipe)
    requires WellFormed(grid) && p.kind == Start
    ensures ConnectedPipes(grid, p).Ok? <==> Links(grid, p.x, p.y, Corrected).Ok? && |Links(grid, p.x, p.y, Corrected).value| == 2
    ensures Links(grid, p.x, p.y, Corrected).Ok? <==> Probed(grid, p.x, p.y, Compass, Corrected)
    ensures ConnectedPipes(grid, p).Ok? ==>
      var links := Links(grid, p.x, p.y, Corrected).value;
      var c := ConnectedPipes(grid, p).value;
      && Rank(links[0].dir) < Rank(links[1].dir)
      && Toward(p, c.first, links[0].dir) && Toward(p, c.second, links[1].dir)
      && Opposite(links[0].dir) in Ends(c.first.kind) && Opposite(links[1].dir) in Ends(c.second.kind)
      && IsPipe(c.kind) && (set d | d in Ends(c.kind)) == {links[0].dir, links[1].dir}
  {
    ProbeAllOk(grid, p.x, p.y, Compass, Corrected);
    if Links(grid, p.x, p.y, Corrected).Ok? && |Links(grid, p.x, p.y, Corrected).value| == 2 {
      StartTwoLinks(grid, p, Links(grid, p.x, p.y, Corrected).value);
    }
  }

  /** What the start connects to when exactly two of its neighbours link back. */
  lemma StartTwoLinks(grid: Grid, p: Pipe, links: seq<Link>)
    requires WellFormed(grid) && p.kind == Start
    requires Links(grid, p.x, p.y, Corrected) == Ok(links) && |links| == 2
    ensures Rank(links[0].dir) < Rank(links[1].dir)
    ensures Toward(p, links[0].pipe, links[0].dir) && Toward(p, links[1].pipe, links[1].dir)
    ensures Opposite(links[0].dir) in Ends(links[0].pipe.kind) && Opposite(links[1].dir) in Ends(links[1].pipe.kind)
    ensures IsPipe(ResolveLinks(links)) && (set d | d in Ends(ResolveLinks(links))) == {links[0].dir, links[1].dir}
  {
    ProbeAllSound(grid, p.x, p.y, Compass, Corrected);
    ProbeAllOrdered(grid, p.x, p.y, Compass, Corrected);
    LinkTaken(grid, p, links[0]);
    LinkTaken(grid, p, links[1]);
    ResolveSpec(links);
  }

  /** A neighbour the corrected rule takes is one step away and has an end pointing back. */
  lemma LinkTaken(grid: Grid, p: Pipe, link: Link)
    requires WellFormed(grid)
    requires Taken(grid, p.x, p.y, link.dir, Corrected) && link.pipe == Neighbour(grid, p.x, p.y, link.dir).value
    ensures Toward(p, link.pipe, link.dir) && Opposite(link.dir) in Ends(link.pipe.kind)
  {
    NeighbourToward(grid, p, link.dir);
  }

  /** The 2x2 loop "S7" over "LJ": as written, the start's south neighbour 'L' is not
      taken, only one link is found and the two-link assertion fails; with the
      corrected rule the start is read as an 'F' joined to both. */
  lemma SquareStart()
    ensures var grid := Tiles(["S7", "LJ"]);
      && StartConnection(grid, Pipe(Start, 0, 0), AsWritten) == Err(NotTwoLinks)
      && ConnectedPipes(grid, Pipe(Start, 0, 0)) == Ok(Connection(Pipe(BendSW, 1, 0), Pipe(BendNE, 0, 1), BendSE))
  {
    var grid := SquareGrid();
    SquareStartAsWritten(grid);
    SquareStartCorrected(grid);
  }

  /** The four tiles of "S7" over "LJ". */
  lemma SquareGrid() returns (grid: Grid)
    ensures grid == Tiles(["S7", "LJ"])
    ensures |grid| == 2 && |grid[0]| == 2 && |grid[1]| == 2
    ensures grid[0][0] == Pipe(Start, 0, 0) && grid[0][1] == Pipe(BendSW, 1, 0)
    ensures grid[1][0] == Pipe(BendNE, 0, 1) && grid[1][1] == Pipe(BendNW, 1, 1)
  {
    grid := Tiles(["S7", "LJ"]);
    assert grid[0] == Row("S7", 0) && grid[1] == Row("LJ", 1);
  }

  /** As written, the start in the corner of the 2x2 loop takes only its east
      neighbour, the '7'. */
  lemma SquareStartAsWritten(grid: Grid)
    requires Neighbour(grid, 0, 0, East) == Ok(Pipe(BendSW, 1, 0))
    requires Neighbour(grid, 0, 0, South) == Ok(Pipe(BendNE, 0, 1))
    ensures StartConnection(grid, Pipe(Start, 0, 0), AsWritten) == Err(NotTwoLinks)
  {
    assert Compass[1..] == [West, South, North] && Compass[2..] == [South, North] && Compass[3..] == [North];
    assert [North][1..] == [];
    var none: seq<Link> := [];
    assert none + none == none;
    assert ProbeAll(grid, 0, 0, [], AsWritten) == Ok(none);
    assert ProbeAll(grid, 0, 0, [North], AsWritten) == Ok(none);
    assert ProbeAll(grid, 0, 0, [South, North], AsWritten) == Ok(none);
    assert ProbeAll(grid, 0, 0, [West, South, North], AsWritten) == Ok(none);
  }

  /** With the corrected rule the start takes the '7' east of it and the 'L' south of
      it, and is read as an 'F'. */
  lemma SquareStartCorrected(grid: Grid)
    requires Neighbour(grid, 0, 0, East) == Ok(Pipe(BendSW, 1, 0))
    requires Neighbour(grid, 0, 0, South) == Ok(Pipe(BendNE, 0, 1))
    ensures ConnectedPipes(grid, Pipe(Start, 0, 0)) == Ok(Connection(Pipe(BendSW, 1, 0), Pipe(BendNE, 0, 1), BendSE))
  {
    assert Compass[1..] == [West, South, North] && Compass[2..] == [South, North] && Compass[3..] == [North];
    assert [North][1..] == [];
    var none: seq<Link> := [];
    var south := [Link(South, Pipe(BendNE, 0, 1))];
    assert none + none == none && south + none == south && none + south == south;
    assert ProbeAll(grid, 0, 0, [], Corrected) == Ok(none);
    assert ProbeAll(grid, 0, 0, [North], Corrected) == Ok(none);
    assert ProbeAll(grid, 0, 0, [South, North], Corrected) == Ok(south);
    assert ProbeAll(grid, 0, 0, [West, South, North], Corrected) == Ok(south);
  }

  /** Manhattan distance one. */
  predicate Adjacent(p: Pipe, q: Pipe) {
    (p.x == q.x && (p.y == q.y + 1 || q.y == p.y + 1)) || (p.y == q.y && (p.x == q.x + 1 || q.x == p.x + 1))
  }

  lemma TowardAdjacent(p: Pipe, q: Pipe, r: Pipe, d: Dir, e: Dir)
    requires Toward(p, q, d) && Toward(p, r, e) && d != e
    ensures Adjacent(p, q) && Adjacent(p, r) && q != r
  {
  }

  /** Whatever the tile (other than ground), its two connections are distinct
      orthogonal neighbours of it, and the kind reported is a pipe. */
  lemma ConnectedNeighbours(grid: Grid, p: Pipe)
    requires WellFormed(grid) && p.kind != Ground && ConnectedPipes(grid, p).Ok?
    ensures var c := ConnectedPipes(grid, p).value;
      Adjacent(p, c.first) && Adjacent(p, c.second) && c.first != c.second && IsPipe(c.kind)
  {
    var c := ConnectedPipes(grid, p).value;
    if p.kind == Start {
      StartConnectionSpec(grid, p);
      var links := Links(grid, p.x, p.y, Corrected).value;
      TowardAdjacent(p, c.first, c.second, links[0].dir, links[1].dir);
    } else {
      PipeConnectionSpec(grid, p);
      TowardAdjacent(p, c.first, c.second, Ends(p.kind)[0], Ends(p.kind)[1]);
    }
  }

  // ---------------------------------------------------------------------------
  // Walking the loop
  // ---------------------------------------------------------------------------

  /** What the walk asks of each tile: its two connections and its kind. The walk is
      written for any such function; on a grid it is `ConnectedPipes`. */
  type Connect = Pipe -> Result<Connection>

  function Connections(grid: Grid): Connect {
    p => ConnectedPipes(grid, p)
  }

  /** Tiles other than ground connect to two distinct orthogonal neighbours. */
  ghost predicate Orthogonal(connect: Connect) {
    forall p: Pipe :: p.kind != Ground && connect(p).Ok? ==>
      Adjacent(p, connect(p).value.first) && Adjacent(p, connect(p).value.second) && connect(p).value.first != connect(p).value.second
  }

  /** Ground connects only to itself. */
  ghost predicate GroundStays(connect: Connect) {
    forall p: Pipe :: p.kind == Ground ==> connect(p) == Ok(Connection(p, p, Ground))
  }

  lemma ConnectionsShape(grid: Grid)
    requires WellFormed(grid)
    ensures Orthogonal(Connections(grid)) && GroundStays(Connections(grid))
  {
    forall p: Pipe | p.kind != Ground && Connections(grid)(p).Ok?
      ensures var c := Connections(grid)(p).value; Adjacent(p, c.first) && Adjacent(p, c.second) && c.first != c.second
    {
      ConnectedNeighbours(grid, p);
    }
  }

  /** The next tile: whichever connection is not the tile just left (the second when
      the first is). */
  function Next(connect: Connect, previous: Pipe, current: Pipe): Result<Pipe> {
    match connect(current)
    case Err(e) => Err(e)
    case Ok(c) => Ok(if c.first == previous then c.second else c.first)
  }

  /** (previous, current) after the first move from the start and k more steps. */
  function Trace(connect: Connect, start: Pipe, k: nat): Result<(Pipe, Pipe)>
    decreases k
  {
    if k == 0 then
      match connect(start)
      case Err(e) => Err(e)
      case Ok(c) => Ok((start, c.first))
    else
      match Trace(connect, start, k - 1)
      case Err(e) => Err(e)
      case Ok(pair) =>
        match Next(connect, pair.0, pair.1)
        case Err(e) => Err(e)
        case Ok(n) => Ok((pair.1, n))
  }

  /** The walk is back at the start after t steps, and not before. */
  ghost predicate Returns(connect: Connect, start: Pipe, t: nat) {
    && t >= 1
    && (forall k :: 0 <= k <= t ==> Trace(connect, start, k).Ok?)
    && Trace(connect, start, t).Ok? && Trace(connect, start, t).value.1 == start
    && forall k :: 1 <= k < t ==> Trace(connect, start, k).Ok? && Trace(connect, start, k).value.1 != start
  }

  /** The walk fails at step t, without passing the start before. */
  ghost predicate Fails(connect: Connect, start: Pipe, t: nat) {
    && Trace(connect, start, t).Err?
    && forall k :: 0 <= k < t ==> Trace(connect, start, k).Ok? && (k >= 1 ==> Trace(connect, start, k).value.1 != start)
  }

  /** The walk from the start either comes back to it or fails: it does not go on
      forever. */
  ghost predicate Halts(connect: Connect, start: Pipe) {
    exists t: nat :: t >= 1 && (Trace(connect, start, t).Err? || Trace(connect, start, t).value.1 == start)
  }

  /** A step of the walk goes to a connection of the current tile; unless that tile is
      ground, it is an orthogonal neighbour and not the tile just left. */
  lemma TraceStep(connect: Connect, start: Pipe, k: nat)
    requires Orthogonal(connect) && Trace(connect, start, k + 1).Ok?
    ensures var (prev, cur) := Trace(connect, start, k).value;
      var next := Trace(connect, start, k + 1).value.1;
      && Trace(connect, start, k + 1).value.0 == cur
      && (next == connect(cur).value.first || next == connect(cur).value.second)
      && (cur.kind != Ground ==> next != prev && Adjacent(cur, next))
  {
  }

  /** The tiles visited: the start, then the tile reached after each of the first t steps. */
  function Visited(connect: Connect, start: Pipe, t: nat): (tiles: seq<Pipe>)
    requires forall k :: 0 <= k < t ==> Trace(connect, start, k).Ok?
    ensures |tiles| == t + 1
    decreases t
  {
    if t == 0 then [start] else Visited(connect, start, t - 1) + [Trace(connect, start, t - 1).value.1]
  }

  lemma {:induction false} VisitedAt(connect: Connect, start: Pipe, t: nat, i: nat)
    requires forall k :: 0 <= k < t ==> Trace(connect, start, k).Ok?
    requires 1 <= i <= t
    ensures Visited(connect, start, t)[i] == Trace(connect, start, i - 1).value.1
    ensures Visited(connect, start, t)[0] == start
    decreases t
  {
    if i < t {
      VisitedAt(connect, start, t - 1, i);
    } else if t > 1 {
      VisitedAt(connect, start, t - 1, 1);
    }
  }

  /** The first t steps succeeded and none of them came back to the start. */
  ghost predicate Walked(connect: Connect, start: Pipe, t: nat) {
    forall k :: 0 <= k <= t ==> Trace(connect, start, k).Ok? && (k >= 1 ==> Trace(connect, start, k).value.1 != start)
  }

  /** One step of the walk from a known position: what `Trace` gives one step later. */
  lemma WalkStep(connect: Connect, start: Pipe, t: nat, previous: Pipe, current: Pipe)
    requires Walked(connect, start, t) && Trace(connect, start, t) == Ok((previous, current))
    ensures connect(current).Err? ==> Fails(connect, start, t + 1)
    ensures connect(current).Ok? ==>
      var c := connect(current).value;
      var next := if c.first == previous then c.second else c.first;
      && Trace(connect, start, t + 1) == Ok((current, next))
      && (next == start ==> Returns(connect, start, t + 1))
      && (next != start ==> Walked(connect, start, t + 1))
  {
  }

  /** A walk that has not yet halted is still short of any halting step. */
  lemma WalkBound(connect: Connect, start: Pipe, t: nat, bound: nat)
    requires Walked(connect, start, t) && 1 <= bound
    requires Trace(connect, start, bound).Err? || Trace(connect, start, bound).value.1 == start
    ensures t < bound
  {
  }

  /** `get_complete_pipe`: the start, the tile its first connection leads to, then every
      tile reached until the walk is back at the start. */
  method CompletePipe(connect: Connect, start: Pipe) returns (r: Result<seq<Pipe>>)
    requires Halts(connect, start)
    ensures r.Ok? ==> |r.value| >= 2 && Returns(connect, start, |r.value| - 1) && r.value == Visited(connect, start, |r.value| - 1)
    ensures r.Err? ==> exists t :: Fails(connect, start, t) && r.error == Trace(connect, start, t).error
  {
    ghost var bound: nat :| bound >= 1 && (Trace(connect, start, bound).Err? || Trace(connect, start, bound).value.1 == start);
    var first := connect(start);
    if first.Err? {
      assert Fails(connect, start, 0);
      return Err(first.error);
    }
    var previous := start;
    var current := first.value.first;
    var pipe := [start, current];
    ghost var steps: nat := 0;
    assert pipe == Visited(connect, start, 1);
    while true
      invariant Trace(connect, start, steps) == Ok((previous, current))
      invariant Walked(connect, start, steps)
      invariant pipe == Visited(connect, start, steps + 1)
      invariant steps < bound
      decreases bound - steps
    {
      WalkStep(connect, start, steps, previous, current);
      var c := connect(current);
      if c.Err? {
        return Err(c.error);
      }
      if c.value.first == previous {
        previous, current := current, c.value.second;
      } else {
        previous, current := current, c.value.first;
      }
      steps := steps + 1;
      if current == start {
        return Ok(pipe);
      }
      WalkBound(connect, start, steps, bound);
      pipe := pipe + [current];
    }
  }

  /** The loop begins with the start and holds it once. */
  lemma LoopStart(connect: Connect, start: Pipe, t: nat)
    requires Orthogonal(connect) && start.kind != Ground && Returns(connect, start, t)
    ensures var loop := Visited(connect, start, t);
      loop[0] == start && forall i :: 1 <= i < |loop| ==> loop[i] != start
  {
    var loop := Visited(connect, start, t);
    forall i | 1 <= i < |loop|
      ensures loop[i] != start
    {
      VisitedAt(connect, start, t, i);
      if i == 1 {
        assert Trace(connect, start, 0).Ok?;
      }
    }
    VisitedAt(connect, start, t, 1);
  }

  /** Once on ground, the walk stays on that tile. */
  lemma {:induction false} StaysOnGround(connect: Connect, start: Pipe, i: nat, j: nat)
    requires GroundStays(connect) && i <= j && Trace(connect, start, j).Ok?
    requires Trace(connect, start, i).Ok? && Trace(connect, start, i).value.1.kind == Ground
    ensures Trace(connect, start, j).value.1 == Trace(connect, start, i).value.1
    decreases j - i
  {
    if i < j {
      var g := Trace(connect, start, i).value.1;
      assert connect(g) == Ok(Connection(g, g, Ground));
      assert Trace(connect, start, i + 1).Ok?;
      StaysOnGround(connect, start, i + 1, j);
    }
  }

  /** A walk that comes back to a start that is not ground passes no ground tile. */
  lemma NoGroundOnLoop(connect: Connect, start: Pipe, t: nat)
    requires GroundStays(connect) && start.kind != Ground && Returns(connect, start, t)
    ensures forall k :: 0 <= k <= t ==> Trace(connect, start, k).value.1.kind != Ground
  {
    forall k | 0 <= k <= t
      ensures Trace(connect, start, k).value.1.kind != Ground
    {
      if Trace(connect, start, k).value.1.kind == Ground {
        StaysOnGround(connect, start, k, t);
      }
    }
  }

  /** Each tile of the loop is an orthogonal neighbour of the one before it, the start
      is a neighbour of the last tile, and the walk never steps straight back onto the
      tile it just left. */
  lemma LoopShape(connect: Connect, start: Pipe, t: nat)
    requires Orthogonal(connect) && GroundStays(connect) && start.kind != Ground && Returns(connect, start, t)
    ensures var loop := Visited(connect, start, t);
      && (forall i :: 0 <= i < |loop| - 1 ==> Adjacent(loop[i], loop[i + 1]))
      && Adjacent(loop[|loop| - 1], start)
      && (forall i :: 0 <= i < |loop| - 2 ==> loop[i + 2] != loop[i])
  {
    var loop := Visited(connect, start, t);
    NoGroundOnLoop(connect, start, t);
    forall i | 0 <= i < |loop| - 1
      ensures Adjacent(loop[i], loop[i + 1])
    {
      VisitedAt(connect, start, t, i + 1);
      if i == 0 {
        assert Trace(connect, start, 0).Ok?;
      } else {
        VisitedAt(connect, start, t, i);
        TraceStep(connect, start, i - 1);
      }
    }
    forall i | 0 <= i < |loop| - 2
      ensures loop[i + 2] != loop[i]
    {
      VisitedAt(connect, start, t, i + 1);
      VisitedAt(connect, start, t, i + 2);
      TraceStep(connect, start, i);
      if i > 0 {
        VisitedAt(connect, start, t, i);
      }
    }
    VisitedAt(connect, start, t, t);
    TraceStep(connect, start, t - 1);
  }

  /** `get_complete_pipe_length`: the number of steps until the walk is back at the
      start, plus one: the number of tiles of the loop. */
  method PipeLength(connect: Connect, start: Pipe) returns (r: Result<nat>)
    requires Halts(connect, start)
    ensures r.Ok? ==> r.value >= 2 && Returns(connect, start, r.value - 1)
    ensures r.Err? ==> exists t :: Fails(connect, start, t) && r.error == Trace(connect, start, t).error
  {
    ghost var bound: nat :| bound >= 1 && (Trace(connect, start, bound).Err? || Trace(connect, start, bound).value.1 == start);
    var first := connect(start);
    if first.Err? {
      assert Fails(connect, start, 0);
      return Err(first.error);
    }
    var size := 0;
    var previous := start;
    var current := first.value.first;
    while true
      invariant Trace(connect, start, size) == Ok((previous, current))
      invariant Walked(connect, start, size)
      invariant size < bound
      decreases bound - size
    {
      WalkStep(connect, start, size, previous, current);
      var c := connect(current);
      if c.Err? {
        return Err(c.error);
      }
      if c.value.first == previous {
        previous, current := current, c.value.second;
      } else {
        previous, current := current, c.value.first;
      }
      size := size + 1;
      if current == start {
        return Ok(size + 1);
      }
      WalkBound(connect, start, size, bound);
    }
  }

  /** The start tile of a parsed grid. */
  function StartTile(lines: seq<string>): Pipe
    requires FindStart(lines).Some?
  {
    Pipe(Start, FindStart(lines).value.0, FindStart(lines).value.1)
  }

  /** The start of "S7" over "LJ" is its top-left corner. */
  lemma SquareFind()
    ensures FindStart(["S7", "LJ"]) == Some((0, 0))
  {
    var lines := ["S7", "LJ"];
    assert lines[..1] == ["S7"] && ["S7"][..0] == [];
    assert "S7"[..1] == "S" && "S"[..0] == "" && "LJ"[..1] == "L" && "L"[..0] == "";
    assert FindStart(["S7"]) == Some((0, 0));
  }

  /** The connections of the four tiles of "S7" over "LJ", the start read as an 'F'. */
  predicate SquareConnects(connect: Connect) {
    && connect(Pipe(Start, 0, 0)) == Ok(Connection(Pipe(BendSW, 1, 0), Pipe(BendNE, 0, 1), BendSE))
    && connect(Pipe(BendSW, 1, 0)) == Ok(Connection(Pipe(Start, 0, 0), Pipe(BendNW, 1, 1), BendSW))
    && connect(Pipe(BendNW, 1, 1)) == Ok(Connection(Pipe(BendNE, 0, 1), Pipe(BendSW, 1, 0), BendNW))
    && connect(Pipe(BendNE, 0, 1)) == Ok(Connection(Pipe(BendNW, 1, 1), Pipe(Start, 0, 0), BendNE))
  }

  lemma SquareConnections()
    ensures SquareConnects(Connections(Tiles(["S7", "LJ"])))
  {
    var grid := SquareGrid();
    SquareStartCorrected(grid);
    SquareOthers(grid);
  }

  /** The connections of the three pipes of the 2x2 loop other than the start. */
  lemma SquareOthers(grid: Grid)
    requires |grid| == 2 && |grid[0]| == 2 && |grid[1]| == 2
    requires grid[0][0] == Pipe(Start, 0, 0) && grid[0][1] == Pipe(BendSW, 1, 0)
    requires grid[1][0] == Pipe(BendNE, 0, 1) && grid[1][1] == Pipe(BendNW, 1, 1)
    ensures ConnectedPipes(grid, Pipe(BendSW, 1, 0)) == Ok(Connection(Pipe(Start, 0, 0), Pipe(BendNW, 1, 1), BendSW))
    ensures ConnectedPipes(grid, Pipe(BendNW, 1, 1)) == Ok(Connection(Pipe(BendNE, 0, 1), Pipe(BendSW, 1, 0), BendNW))
    ensures ConnectedPipes(grid, Pipe(BendNE, 0, 1)) == Ok(Connection(Pipe(BendNW, 1, 1), Pipe(Start, 0, 0), BendNE))
  {
  }

  /** On those connections the walk goes S, 7, J, L and is back at the start after
      three steps. */
  lemma SquareWalk(connect: Connect)
    requires SquareConnects(connect)
    ensures Returns(connect, Pipe(Start, 0, 0), 3)
  {
    var s, seven, jay, ell := Pipe(Start, 0, 0), Pipe(BendSW, 1, 0), Pipe(BendNW, 1, 1), Pipe(BendNE, 0, 1);
    assert Trace(connect, s, 0) == Ok((s, seven));
    assert Trace(connect, s, 1) == Ok((seven, jay));
    assert Trace(connect, s, 2) == Ok((jay, ell));
    assert Trace(connect, s, 3) == Ok((ell, s));
  }

  /** With the corrected rule the 2x2 loop is four tiles long, so the farthest point
      is 2 steps away. */
  lemma SquareLoop()
    ensures Returns(Connections(Tiles(["S7", "LJ"])), Pipe(Start, 0, 0), 3)
  {
    SquareConnections();
    SquareWalk(Connections(Tiles(["S7", "LJ"])));
  }

  /** The start tile as `parse_map` and `PipeMap::get` find it: the last 'S', read from
      the grid. */
  method LocateStart(lines: seq<string>) returns (r: Result<(Grid, Pipe)>)
    ensures FindStart(lines).None? ==> r == Err(NoStart)
    ensures FindStart(lines).Some? ==> r == Ok((Tiles(lines), StartTile(lines)))
  {
    var parsed := ParseMap(lines);
    if parsed.Err? {
      return Err(parsed.error);
    }
    var (position, grid) := parsed.value;
    FindStartSpec(lines);
    assert IsStart(lines, position.0, position.1);
    r := Ok((grid, grid[position.1][position.0]));
  }

  /** Part 1: the farthest distance along the loop, half the number of its tiles. */
  method Part1(lines: seq<string>) returns (r: Result<nat>)
    requires FindStart(lines).Some? ==> Halts(Connections(Tiles(lines)), StartTile(lines))
    ensures FindStart(lines).None? ==> r == Err(NoStart)
    ensures FindStart(lines).Some? && r.Ok? ==>
      exists t: nat :: Returns(Connections(Tiles(lines)), StartTile(lines), t) && r.value == (t + 1) / 2
    ensures FindStart(lines).Some? && r.Err? ==>
      exists t :: Fails(Connections(Tiles(lines)), StartTile(lines), t) && r.error == Trace(Connections(Tiles(lines)), StartTile(lines), t).error
  {
    var located := LocateStart(lines);
    if located.Err? {
      return Err(located.error);
    }
    var (grid, start) := located.value;
    var length := PipeLength(Connections(grid), start);
    if length.Err? {
      return Err(length.error);
    }
    r := Ok(length.value / 2);
  }
}
