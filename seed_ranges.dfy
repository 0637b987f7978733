/** If You Give A Seed A Fertilizer, part 2: the seed line lists pairs "start length",
    each a range of seeds. Instead of sending every seed through the seven maps, each
    range is split where a map range begins or ends and every piece is moved as a
    whole; the answer is the lowest start among the pieces that come out of the last
    map. */
module SeedRanges {
  import opened Wrappers
  import opened Text
  import opened Sorting
  import opened Almanac

  // ---------------------------------------------------------------- data

  /** The values start .. stop; `range` is how many there are. */
  datatype Range = Range(start: int, stop: int, range: int)

  /** `Range::new`: the `range` values from start on. */
  function NewRange(start: int, range: int): (r: Range)
    ensures r.start == start && r.range == range && r.stop - r.start + 1 == range
  {
    Range(start, start + range - 1, range)
  }

  /** The range holds at least one value and its stop is where `Range::new` puts it. */
  predicate WellFormed(p: Range) {
    p.range >= 1 && p.stop == p.start + p.range - 1
  }

  /** v is one of the values of p. */
  predicate Holds(p: Range, v: int) {
    p.start <= v <= p.stop
  }

  // ---------------------------------------------------------------- the seed line

  /** `many0` of "spaces, digits, spaces, digits, spaces" from position i: one range per
      pair; an odd number left at the end fails the pair and is not read. */
  function SeedPairs(s: string, i: nat): seq<Range>
    requires i <= |s|
    decreases |s| - i
  {
    match SpacedNumber(s, i)
    case None => []
    case Some((start, j)) =>
      match SpacedNumber(s, j)
      case None => []
      case Some((range, k)) => [NewRange(start, range)] + SeedPairs(s, k)
  }

  /** `parse_seeds` of part 2. */
  function ParseSeedRanges(line: string): Option<seq<Range>> {
    if StartsWith(line, "seeds: ") then Some(SeedPairs(line, 7)) else None
  }

  /** Numbers taken two by two as (start, length), an odd last one dropped. */
  function PairUp(numbers: seq<nat>): seq<Range>
    decreases |numbers|
  {
    if |numbers| < 2 then [] else [NewRange(numbers[0], numbers[1])] + PairUp(numbers[2..])
  }

  lemma {:induction false} SeedPairsSpec(s: string, i: nat)
    requires i <= |s|
    ensures SeedPairs(s, i) == PairUp(SpacedNumbers(s, i).0)
    decreases |s| - i
  {
    match SpacedNumber(s, i)
    case None =>
    case Some((start, j)) =>
      var numbers := SpacedNumbers(s, i).0;
      assert numbers == [start] + SpacedNumbers(s, j).0;
      match SpacedNumber(s, j)
      case None =>
        assert numbers == [start];
      case Some((range, k)) =>
        var rest := SpacedNumbers(s, k).0;
        assert SpacedNumbers(s, j).0 == [range] + rest;
        SeedPairsSpec(s, k);
        assert numbers[0] == start && numbers[1] == range && numbers[2..] == rest;
  }

  /** Part 2 reads the numbers part 1 reads on the same line, two by two. */
  lemma ParseSeedRangesSpec(line: string)
    ensures ParseSeedRanges(line).Some? <==> ParseSeeds(line).Some?
    ensures ParseSeedRanges(line).Some? ==> ParseSeedRanges(line).value == PairUp(ParseSeeds(line).value)
  {
    if StartsWith(line, "seeds: ") {
      SeedPairsSpec(line, 7);
    }
  }

  /** The numbers of the pairs, in order. */
  function Flatten(pairs: seq<(nat, nat)>): (r: seq<nat>)
    ensures |r| == 2 * |pairs|
    decreases |pairs|
  {
    if pairs == [] then [] else [pairs[0].0, pairs[0].1] + Flatten(pairs[1..])
  }

  /** The ranges the pairs stand for. */
  function RangesOf(pairs: seq<(nat, nat)>): (r: seq<Range>)
    ensures |r| == |pairs| && forall k :: 0 <= k < |pairs| ==> r[k] == NewRange(pairs[k].0, pairs[k].1)
  {
    seq(|pairs|, k requires 0 <= k < |pairs| => NewRange(pairs[k].0, pairs[k].1))
  }

  lemma {:induction false} PairUpFlatten(pairs: seq<(nat, nat)>)
    ensures PairUp(Flatten(pairs)) == RangesOf(pairs)
    decreases |pairs|
  {
    if pairs != [] {
      PairUpFlatten(pairs[1..]);
      assert Flatten(pairs)[2..] == Flatten(pairs[1..]);
    }
  }

  /** A seed line listing the pairs is read back as their ranges. */
  lemma SeedRangesRoundTrip(pairs: seq<(nat, nat)>)
    requires pairs != []
    ensures ParseSeedRanges(SeedsLine(Flatten(pairs))) == Some(RangesOf(pairs))
  {
    SeedsRoundTrip(Flatten(pairs));
    ParseSeedRangesSpec(SeedsLine(Flatten(pairs)));
    PairUpFlatten(pairs);
  }

  /** The dispatch of `solve` with the seed parser of part 2. */
  function ClassifyPart2(line: string): Line<Range> {
    Classify(line, ParseSeedRanges)
  }

  // ---------------------------------------------------------------- `split` as written

  /** The values `split` pushes for the map ranges, in their order: a range's first
      source value and the one after it, when strictly inside p; its last source value
      and the one after it, when strictly inside p. */
  function Cuts(p: Range, ranges: seq<AlmanacRange>): (r: seq<int>)
    decreases |ranges|
  {
    if ranges == [] then []
    else
      var r := ranges[|ranges| - 1];
      var last := r.sourceStart + r.range - 1;
      Cuts(p, ranges[..|ranges| - 1])
        + (if p.start < r.sourceStart < p.stop then [r.sourceStart, r.sourceStart + 1] else [])
        + (if p.start < last < p.stop then [last, last + 1] else [])
  }

  /** `split_values` before sorting. */
  function SplitValues(p: Range, ranges: seq<AlmanacRange>): seq<int> {
    [p.start] + Cuts(p, ranges) + [p.stop]
  }

  /** The pairing loop of `split`: (v0, v1), (v2, v3), ... each becomes the range
      v0 .. v1; a value left without a partner is the panic. */
  function Pairs(values: seq<int>): Result<seq<Range>>
    decreases |values|
  {
    if values == [] then Ok([])
    else if |values| == 1 then Err("We expect to always have pairs")
    else
      var rest := Pairs(values[2..]);
      if rest.Err? then rest else Ok([NewRange(values[0], values[1] + 1 - values[0])] + rest.value)
  }

  /** `split` as written: the values sorted, then paired. */
  function AsWrittenPieces(p: Range, ranges: seq<AlmanacRange>): Result<seq<Range>> {
    Pairs(SortBy(SplitValues(p, ranges), IntLe))
  }

  /** pieces put in front of a result that is not a panic. */
  function Prepend(pieces: seq<Range>, r: Result<seq<Range>>): Result<seq<Range>> {
    if r.Err? then r else Ok(pieces + r.value)
  }

  /** `Range::split` as written. */
  method SplitAsWritten(p: Range, ranges: seq<AlmanacRange>) returns (res: Result<seq<Range>>)
    ensures res == AsWrittenPieces(p, ranges)
  {
    var splitValues := CollectSplitValues(p, ranges);
    splitValues := SortBy(splitValues, IntLe);
    res := PairValues(splitValues);
  }

  /** The first loop of `split`: the start, the cuts of every map range, the stop. */
  method CollectSplitValues(p: Range, ranges: seq<AlmanacRange>) returns (splitValues: seq<int>)
    ensures splitValues == SplitValues(p, ranges)
  {
    splitValues := [p.start];
    for k := 0 to |ranges|
      invariant splitValues == [p.start] + Cuts(p, ranges[..k])
    {
      assert ranges[..k + 1][..k] == ranges[..k];
      var r := ranges[k];
      var last := r.sourceStart + r.range - 1;
      if p.start < r.sourceStart < p.stop {
        splitValues := splitValues + [r.sourceStart, r.sourceStart + 1];
      }
      if p.start < last < p.stop {
        splitValues := splitValues + [last, last + 1];
      }
    }
    assert ranges[..|ranges|] == ranges;
    splitValues := splitValues + [p.stop];
  }

  /** The second loop of `split`: the values taken two at a time. */
  method PairValues(values: seq<int>) returns (res: Result<seq<Range>>)
    ensures res == Pairs(values)
  {
    var pieces: seq<Range> := [];
    var i := 0;
    assert values[0..] == values;
    PrependNothing(Pairs(values));
    while i < |values|
      invariant i <= |values|
      invariant Pairs(values) == Prepend(pieces, Pairs(values[i..]))
      decreases |values| - i
    {
      if i + 1 == |values| {
        assert Pairs(values[i..]) == Err("We expect to always have pairs");
        return Err("We expect to always have pairs");
      }
      var start := values[i];
      var stop := values[i + 1];
      PairsStep(values, i);
      PrependTwice(pieces, [NewRange(start, stop + 1 - start)], Pairs(values[i + 2..]));
      pieces := pieces + [NewRange(start, stop + 1 - start)];
      i := i + 2;
    }
    assert values[i..] == [];
    assert pieces + [] == pieces;
    res := Ok(pieces);
  }

  lemma PairsStep(values: seq<int>, i: nat)
    requires i + 1 < |values|
    ensures Pairs(values[i..])
            == Prepend([NewRange(values[i], values[i + 1] + 1 - values[i])], Pairs(values[i + 2..]))
  {
    assert values[i..][2..] == values[i + 2..];
  }

  lemma PrependNothing(r: Result<seq<Range>>)
    ensures Prepend([], r) == r
  {
    if r.Ok? {
      assert [] + r.value == r.value;
    }
  }

  lemma PrependTwice(a: seq<Range>, b: seq<Range>, r: Result<seq<Range>>)
    ensures Prepend(a, Prepend(b, r)) == Prepend(a + b, r)
  {
    if r.Ok? {
      assert a + (b + r.value) == (a + b) + r.value;
    }
  }

  lemma {:induction false} CutsEven(p: Range, ranges: seq<AlmanacRange>)
    ensures |Cuts(p, ranges)| % 2 == 0
    decreases |ranges|
  {
    if ranges != [] {
      CutsEven(p, ranges[..|ranges| - 1]);
    }
  }

  /** Every value pushed for a map range lies strictly after p's start and no later
      than its stop. */
  lemma {:induction false} CutsWithin(p: Range, ranges: seq<AlmanacRange>)
    ensures forall k :: 0 <= k < |Cuts(p, ranges)| ==> p.start < Cuts(p, ranges)[k] <= p.stop
    decreases |ranges|
  {
    if ranges != [] {
      CutsWithin(p, ranges[..|ranges| - 1]);
    }
  }

  lemma {:induction false} PairsOk(values: seq<int>)
    requires |values| % 2 == 0
    ensures Pairs(values).Ok? && |Pairs(values).value| == |values| / 2
    decreases |values|
  {
    if values != [] {
      PairsOk(values[2..]);
    }
  }

  /** Piece m is made of values 2m and 2m + 1. */
  lemma {:induction false} PairsAt(values: seq<int>)
    requires |values| % 2 == 0
    ensures Pairs(values).Ok? && |Pairs(values).value| == |values| / 2
    ensures forall m :: 0 <= m < |values| / 2 ==>
              Pairs(values).value[m] == NewRange(values[2 * m], values[2 * m + 1] + 1 - values[2 * m])
    decreases |values|
  {
    if values != [] {
      PairsAt(values[2..]);
      forall m | 1 <= m < |values| / 2
        ensures Pairs(values).value[m] == NewRange(values[2 * m], values[2 * m + 1] + 1 - values[2 * m])
      {
        assert values[2..][2 * (m - 1)] == values[2 * m];
        assert values[2..][2 * (m - 1) + 1] == values[2 * m + 1];
      }
    }
  }

  /** The pairing loop never panics: p.start, two values per push, and p.stop make an
      even count. */
  lemma AsWrittenNeverFails(p: Range, ranges: seq<AlmanacRange>)
    ensures AsWrittenPieces(p, ranges).Ok?
  {
    CutsEven(p, ranges);
    PairsOk(SortBy(SplitValues(p, ranges), IntLe));
  }

  /** The sorted values of a range with start <= stop begin with its start and end with
      its stop, and all lie between them. */
  lemma SortedValues(p: Range, ranges: seq<AlmanacRange>)
    requires p.start <= p.stop
    ensures var sorted := SortBy(SplitValues(p, ranges), IntLe);
            && |sorted| >= 2 && SortedBy(sorted, IntLe)
            && sorted[0] == p.start && sorted[|sorted| - 1] == p.stop
            && forall k :: 0 <= k < |sorted| ==> p.start <= sorted[k] <= p.stop
  {
    var values := SplitValues(p, ranges);
    CutsWithin(p, ranges);
    forall k | 0 <= k < |values|
      ensures p.start <= values[k] <= p.stop
    {
      if 0 < k < |values| - 1 {
        assert values[k] == Cuts(p, ranges)[k - 1];
      }
    }
    SortedBetween(values, p.start, p.stop);
  }

  /** Sorting values that begin with lo, end with hi and lie between them gives a
      sorted sequence that still begins with lo and ends with hi. */
  lemma SortedBetween(values: seq<int>, lo: int, hi: int)
    requires |values| >= 2 && values[0] == lo && values[|values| - 1] == hi
    requires forall k :: 0 <= k < |values| ==> lo <= values[k] <= hi
    ensures var sorted := SortBy(values, IntLe);
            && |sorted| >= 2 && SortedBy(sorted, IntLe)
            && sorted[0] == lo && sorted[|sorted| - 1] == hi
            && forall k :: 0 <= k < |sorted| ==> lo <= sorted[k] <= hi
  {
    var sorted := SortBy(values, IntLe);
    IntLeTotal();
    SortBySorted(values, IntLe);
    SortByPermutes(values, IntLe);
    assert |sorted| == |multiset(sorted)| == |values|;
    forall k | 0 <= k < |sorted|
      ensures lo <= sorted[k] <= hi
    {
      assert sorted[k] in multiset(values);
    }
    assert lo in multiset(sorted) && hi in multiset(sorted) by {
      assert values[0] in multiset(values) && values[|values| - 1] in multiset(values);
    }
    var i :| 0 <= i < |sorted| && sorted[i] == lo;
    var j :| 0 <= j < |sorted| && sorted[j] == hi;
    assert IntLe(sorted[0], sorted[i]) || i == 0;
    assert IntLe(sorted[j], sorted[|sorted| - 1]) || j == |sorted| - 1;
  }

  /** `split` as written cuts p into well-formed pieces, none reaching outside p; the
      first begins at p's start and the last ends at its stop. */
  lemma AsWrittenBounds(p: Range, ranges: seq<AlmanacRange>)
    requires p.start <= p.stop
    ensures AsWrittenPieces(p, ranges).Ok?
    ensures var pieces := AsWrittenPieces(p, ranges).value;
            && pieces != []
            && pieces[0].start == p.start && pieces[|pieces| - 1].stop == p.stop
            && forall m :: 0 <= m < |pieces| ==>
                 WellFormed(pieces[m]) && p.start <= pieces[m].start && pieces[m].stop <= p.stop
  {
    AsWrittenNeverFails(p, ranges);
    var sorted := SortBy(SplitValues(p, ranges), IntLe);
    SortedValues(p, ranges);
    CutsEven(p, ranges);
    PairsAt(sorted);
    var pieces := Pairs(sorted).value;
    var n := |sorted| / 2;
    assert pieces[n - 1] == NewRange(sorted[2 * (n - 1)], sorted[2 * (n - 1) + 1] + 1 - sorted[2 * (n - 1)]);
    forall m | 0 <= m < |pieces|
      ensures WellFormed(pieces[m]) && p.start <= pieces[m].start && pieces[m].stop <= p.stop
    {
      assert IntLe(sorted[2 * m], sorted[2 * m + 1]);
    }
  }

  // ---------------------------------------------------------------- `convert`

  /** `Range::convert`: the first map range holding the start moves the whole range by
      the same amount, keeping its length; without one the range is unchanged. */
  function ConvertRange(p: Range, ranges: seq<AlmanacRange>): Range {
    var k := FirstCovering(p.start, ranges, Covers);
    if k < |ranges| then
      var start := Shift(p.start, ranges[k]);
      p.(start := start, stop := start + p.range - 1)
    else p
  }

  /** The converted start is the start converted value by value, and a well-formed range
      stays well formed with its length. */
  lemma ConvertRangeSpec(p: Range, ranges: seq<AlmanacRange>)
    ensures ConvertRange(p, ranges).start == Convert(p.start, ranges)
    ensures ConvertRange(p, ranges).range == p.range
    ensures WellFormed(p) ==> WellFormed(ConvertRange(p, ranges))
  {
  }

  // ---------------------------------------------------------------- `split` intended

  /** The first value after a at which some map range begins or ends (a range holding
      sourceStart .. sourceStart + range - 1 ends before sourceStart + range), or cap
      when there is none before it. */
  function NextCut(a: int, cap: int, ranges: seq<AlmanacRange>): (c: int)
    requires a < cap
    ensures a < c <= cap
    decreases |ranges|
  {
    if ranges == [] then cap
    else
      var r := ranges[|ranges| - 1];
      var c := NextCut(a, cap, ranges[..|ranges| - 1]);
      var c' := if a < r.sourceStart < c then r.sourceStart else c;
      if a < r.sourceStart + r.range < c' then r.sourceStart + r.range else c'
  }

  /** No map range begins or ends strictly between a and the next cut. */
  lemma {:induction false} NextCutSpec(a: int, cap: int, ranges: seq<AlmanacRange>)
    requires a < cap
    ensures forall k :: 0 <= k < |ranges| ==>
              var c := NextCut(a, cap, ranges);
              !(a < ranges[k].sourceStart < c) && !(a < ranges[k].sourceStart + ranges[k].range < c)
    decreases |ranges|
  {
    if ranges != [] {
      NextCutSpec(a, cap, ranges[..|ranges| - 1]);
    }
  }

  /** The pieces from a to stop: each runs up to the value before the next cut. */
  function PiecesFrom(a: int, stop: int, ranges: seq<AlmanacRange>): seq<Range>
    decreases stop - a
  {
    if a > stop then []
    else
      var c := NextCut(a, stop + 1, ranges);
      [Range(a, c - 1, c - a)] + PiecesFrom(c, stop, ranges)
  }

  /** `split` as intended: p cut before every value where a map range begins or ends. */
  function Pieces(p: Range, ranges: seq<AlmanacRange>): seq<Range> {
    PiecesFrom(p.start, p.stop, ranges)
  }

  /** `Range::split` with the cuts put where the map ranges begin and end: one loop over
      the map ranges per piece finds where the piece ends. */
  method Split(p: Range, ranges: seq<AlmanacRange>) returns (res: seq<Range>)
    ensures res == Pieces(p, ranges)
  {
    res := [];
    var a := p.start;
    while a <= p.stop
      invariant Pieces(p, ranges) == res + PiecesFrom(a, p.stop, ranges)
      decreases p.stop - a
    {
      var next := FindNextCut(a, p.stop + 1, ranges);
      PiecesFromStep(res, a, p.stop, ranges, next);
      res := res + [Range(a, next - 1, next - a)];
      a := next;
    }
    assert res + [] == res;
  }

  /** The inner loop of `split`: the nearest place after a where a map range begins or
      ends, or cap when there is none before it. */
  method FindNextCut(a: int, cap: int, ranges: seq<AlmanacRange>) returns (next: int)
    requires a < cap
    ensures next == NextCut(a, cap, ranges)
  {
    next := cap;
    for k := 0 to |ranges|
      invariant next == NextCut(a, cap, ranges[..k])
    {
      assert ranges[..k + 1][..k] == ranges[..k];
      var r := ranges[k];
      if a < r.sourceStart < next {
        next := r.sourceStart;
      }
      if a < r.sourceStart + r.range < next {
        next := r.sourceStart + r.range;
      }
    }
    assert ranges[..|ranges|] == ranges;
  }

  /** One piece taken off the front of the pieces from a. */
  lemma PiecesFromStep(res: seq<Range>, a: int, stop: int, ranges: seq<AlmanacRange>, c: int)
    requires a <= stop && c == NextCut(a, stop + 1, ranges)
    ensures res + PiecesFrom(a, stop, ranges) == (res + [Range(a, c - 1, c - a)]) + PiecesFrom(c, stop, ranges)
  {
  }

  /** Every map range either holds all of p or none of it. */
  ghost predicate Uniform(p: Range, ranges: seq<AlmanacRange>) {
    forall v, k :: Holds(p, v) && 0 <= k < |ranges| ==> (Covers(v, ranges[k]) <==> Covers(p.start, ranges[k]))
  }

  /** The pieces from a to stop are well formed, follow each other without gap or
      overlap from a to stop, and none straddles the edge of a map range. */
  lemma {:induction false} PiecesFromSpec(a: int, stop: int, ranges: seq<AlmanacRange>)
    ensures var pieces := PiecesFrom(a, stop, ranges);
            && (pieces == [] <==> a > stop)
            && (pieces != [] ==> pieces[0].start == a && pieces[|pieces| - 1].stop == stop)
            && (forall m :: 0 <= m < |pieces| ==> WellFormed(pieces[m]) && Uniform(pieces[m], ranges))
            && (forall m :: 0 < m < |pieces| ==> pieces[m].start == pieces[m - 1].stop + 1)
    decreases stop - a
  {
    if a <= stop {
      var c := NextCut(a, stop + 1, ranges);
      PiecesFromSpec(c, stop, ranges);
      NextCutSpec(a, stop + 1, ranges);
      PieceUniform(a, c, ranges);
    }
  }

  lemma PieceUniform(a: int, c: int, ranges: seq<AlmanacRange>)
    requires forall k :: 0 <= k < |ranges| ==>
               !(a < ranges[k].sourceStart < c) && !(a < ranges[k].sourceStart + ranges[k].range < c)
    ensures Uniform(Range(a, c - 1, c - a), ranges)
  {
  }

  /** The pieces of p are well formed, follow each other without gap or overlap from p's
      start to its stop (none when p is empty), and none straddles the edge of a map
      range. */
  lemma PiecesSpec(p: Range, ranges: seq<AlmanacRange>)
    ensures var pieces := Pieces(p, ranges);
            && (pieces == [] <==> p.start > p.stop)
            && (pieces != [] ==> pieces[0].start == p.start && pieces[|pieces| - 1].stop == p.stop)
            && (forall m :: 0 <= m < |pieces| ==> WellFormed(pieces[m]) && Uniform(pieces[m], ranges))
            && (forall m :: 0 < m < |pieces| ==> pieces[m].start == pieces[m - 1].stop + 1)
  {
    PiecesFromSpec(p.start, p.stop, ranges);
  }

  /** Some range of ps holds v. */
  ghost predicate InSome(ps: seq<Range>, v: int) {
    exists j :: 0 <= j < |ps| && Holds(ps[j], v)
  }

  /** The pieces from a to stop hold exactly the values from a to stop. */
  lemma {:induction false} PiecesFromHold(a: int, stop: int, ranges: seq<AlmanacRange>)
    ensures forall v :: InSome(PiecesFrom(a, stop, ranges), v) <==> a <= v <= stop
    decreases stop - a
  {
    if a <= stop {
      var c := NextCut(a, stop + 1, ranges);
      var pieces := PiecesFrom(a, stop, ranges);
      var rest := PiecesFrom(c, stop, ranges);
      PiecesFromHold(c, stop, ranges);
      forall v
        ensures InSome(pieces, v) <==> a <= v <= stop
      {
        if a <= v < c {
          assert Holds(pieces[0], v);
        } else if c <= v <= stop {
          assert InSome(rest, v);
          var m :| 0 <= m < |rest| && Holds(rest[m], v);
          assert pieces[m + 1] == rest[m];
        }
        if InSome(pieces, v) {
          var m :| 0 <= m < |pieces| && Holds(pieces[m], v);
          if m > 0 {
            assert pieces[m] == rest[m - 1];
            assert InSome(rest, v);
          }
        }
      }
    }
  }

  /** The pieces of p hold exactly the values of p. */
  lemma PiecesHold(p: Range, ranges: seq<AlmanacRange>)
    ensures forall v :: InSome(Pieces(p, ranges), v) <==> Holds(p, v)
  {
    PiecesFromHold(p.start, p.stop, ranges);
  }

  /** FirstCovering only depends on which ranges hold the value. */
  lemma {:induction false} FirstCoveringSame(v: int, w: int, ranges: seq<AlmanacRange>)
    requires forall k :: 0 <= k < |ranges| ==> (Covers(v, ranges[k]) <==> Covers(w, ranges[k]))
    ensures FirstCovering(v, ranges, Covers) == FirstCovering(w, ranges, Covers)
    decreases |ranges|
  {
    if ranges != [] {
      FirstCoveringSame(v, w, ranges[1..]);
    }
  }

  /** In a piece no map range straddles, every value moves by the amount its start
      moves. */
  lemma ConvertUniform(q: Range, ranges: seq<AlmanacRange>, v: int)
    requires Uniform(q, ranges) && Holds(q, v)
    ensures Convert(v, ranges) - v == ConvertRange(q, ranges).start - q.start
  {
    FirstCoveringSame(v, q.start, ranges);
  }

  /** Converting such a piece as a whole gives a well-formed range holding the
      converted value of each of its values... */
  lemma ConvertedPieceCovers(q: Range, ranges: seq<AlmanacRange>, v: int)
    requires WellFormed(q) && Uniform(q, ranges) && Holds(q, v)
    ensures WellFormed(ConvertRange(q, ranges))
    ensures Holds(ConvertRange(q, ranges), Convert(v, ranges))
  {
    ConvertRangeSpec(q, ranges);
    ConvertUniform(q, ranges, v);
  }

  /** ... and each value it holds is the converted value of one of the piece's. */
  lemma ConvertedPieceSound(q: Range, ranges: seq<AlmanacRange>, w: int)
    requires WellFormed(q) && Uniform(q, ranges) && Holds(ConvertRange(q, ranges), w)
    ensures var v := q.start + (w - ConvertRange(q, ranges).start);
            Holds(q, v) && Convert(v, ranges) == w
  {
    ConvertRangeSpec(q, ranges);
    ConvertUniform(q, ranges, q.start + (w - ConvertRange(q, ranges).start));
  }

  // ---------------------------------------------------------------- `get_min_location`

  /** `.map(|r| r.convert(map))` over the pieces. */
  function ConvertAll(pieces: seq<Range>, ranges: seq<AlmanacRange>): (r: seq<Range>)
    ensures |r| == |pieces| && forall m :: 0 <= m < |pieces| ==> r[m] == ConvertRange(pieces[m], ranges)
  {
    seq(|pieces|, m requires 0 <= m < |pieces| => ConvertRange(pieces[m], ranges))
  }

  /** One pass of `get_min_location`: each range split by the map, in order
      (`flat_map`), and every piece converted. */
  function Pass(ps: seq<Range>, ranges: seq<AlmanacRange>): seq<Range>
    decreases |ps|
  {
    if ps == [] then []
    else Pass(ps[..|ps| - 1], ranges) + ConvertAll(Pieces(ps[|ps| - 1], ranges), ranges)
  }

  /** The converted pieces of one range are well formed and hold exactly its converted
      values. */
  lemma PassOne(p: Range, ranges: seq<AlmanacRange>)
    ensures var out := ConvertAll(Pieces(p, ranges), ranges);
            && (forall j :: 0 <= j < |out| ==> WellFormed(out[j]))
            && (forall v :: Holds(p, v) ==> InSome(out, Convert(v, ranges)))
            && (forall j, w :: 0 <= j < |out| && Holds(out[j], w) ==>
                  exists v :: Holds(p, v) && Convert(v, ranges) == w)
  {
    var pieces := Pieces(p, ranges);
    var out := ConvertAll(pieces, ranges);
    PiecesSpec(p, ranges);
    PiecesHold(p, ranges);
    forall j | 0 <= j < |out|
      ensures WellFormed(out[j])
    {
      ConvertedPieceCovers(pieces[j], ranges, pieces[j].start);
    }
    forall v | Holds(p, v)
      ensures InSome(out, Convert(v, ranges))
    {
      assert InSome(pieces, v);
      var j :| 0 <= j < |pieces| && Holds(pieces[j], v);
      ConvertedPieceCovers(pieces[j], ranges, v);
      assert Holds(out[j], Convert(v, ranges));
    }
    forall j, w | 0 <= j < |out| && Holds(out[j], w)
      ensures exists v :: Holds(p, v) && Convert(v, ranges) == w
    {
      ConvertedPieceSound(pieces[j], ranges, w);
      var v := pieces[j].start + (w - out[j].start);
      assert InSome(pieces, v);
    }
  }

  /** After a pass every range is well formed. */
  lemma {:induction false} PassWellFormed(ps: seq<Range>, ranges: seq<AlmanacRange>)
    ensures forall j :: 0 <= j < |Pass(ps, ranges)| ==> WellFormed(Pass(ps, ranges)[j])
    decreases |ps|
  {
    if ps != [] {
      PassWellFormed(ps[..|ps| - 1], ranges);
      PassOne(ps[|ps| - 1], ranges);
    }
  }

  /** Every value of the ranges before a pass, converted, is held by a range after it. */
  lemma {:induction false} PassCovers(ps: seq<Range>, ranges: seq<AlmanacRange>)
    ensures forall v :: InSome(ps, v) ==> InSome(Pass(ps, ranges), Convert(v, ranges))
    decreases |ps|
  {
    if ps != [] {
      var init := ps[..|ps| - 1];
      var before := Pass(init, ranges);
      var last := ConvertAll(Pieces(ps[|ps| - 1], ranges), ranges);
      var out := Pass(ps, ranges);
      PassCovers(init, ranges);
      PassOne(ps[|ps| - 1], ranges);
      forall v | InSome(ps, v)
        ensures InSome(out, Convert(v, ranges))
      {
        var i :| 0 <= i < |ps| && Holds(ps[i], v);
        if i < |init| {
          assert Holds(init[i], v);
          assert InSome(init, v);
          assert InSome(before, Convert(v, ranges));
          var j :| 0 <= j < |before| && Holds(before[j], Convert(v, ranges));
          assert out[j] == before[j];
        } else {
          assert Holds(ps[|ps| - 1], v);
          assert InSome(last, Convert(v, ranges));
          var j :| 0 <= j < |last| && Holds(last[j], Convert(v, ranges));
          assert out[|before| + j] == last[j];
        }
      }
    }
  }

  /** Every value held after a pass is the converted value of one held before it. */
  lemma {:induction false} PassSound(ps: seq<Range>, ranges: seq<AlmanacRange>)
    ensures forall w :: InSome(Pass(ps, ranges), w) ==> exists v :: InSome(ps, v) && Convert(v, ranges) == w
    decreases |ps|
  {
    if ps != [] {
      var init := ps[..|ps| - 1];
      var before := Pass(init, ranges);
      var last := ConvertAll(Pieces(ps[|ps| - 1], ranges), ranges);
      var out := Pass(ps, ranges);
      PassSound(init, ranges);
      PassOne(ps[|ps| - 1], ranges);
      forall w | InSome(out, w)
        ensures exists v :: InSome(ps, v) && Convert(v, ranges) == w
      {
        var j :| 0 <= j < |out| && Holds(out[j], w);
        if j < |before| {
          assert Holds(before[j], w);
          assert InSome(before, w);
          var v :| InSome(init, v) && Convert(v, ranges) == w;
          var i :| 0 <= i < |init| && Holds(init[i], v);
          assert ps[i] == init[i];
        } else {
          assert Holds(last[j - |before|], w);
          var v :| Holds(ps[|ps| - 1], v) && Convert(v, ranges) == w;
        }
      }
    }
  }

  /** A pass leaves nothing exactly when every range before it is empty. */
  lemma {:induction false} PassEmpty(ps: seq<Range>, ranges: seq<AlmanacRange>)
    ensures Pass(ps, ranges) == [] <==> forall i :: 0 <= i < |ps| ==> ps[i].start > ps[i].stop
    decreases |ps|
  {
    if ps != [] {
      PassEmpty(ps[..|ps| - 1], ranges);
      PiecesSpec(ps[|ps| - 1], ranges);
    }
  }

  /** The passes of `get_min_location`, one per list of map ranges, in order. */
  function Passes(ps: seq<Range>, stages: seq<seq<AlmanacRange>>): seq<Range>
    decreases |stages|
  {
    if stages == [] then ps else Passes(Pass(ps, stages[0]), stages[1..])
  }

  /** A value converted by each list of map ranges in turn. */
  function Run(v: int, stages: seq<seq<AlmanacRange>>): int
    decreases |stages|
  {
    if stages == [] then v else Run(Convert(v, stages[0]), stages[1..])
  }

  /** The last value of the chain of part 1 is the value run through every stage. */
  lemma {:induction false} ChainLast(v: int, stages: seq<seq<AlmanacRange>>)
    requires stages != []
    ensures Chain(v, stages)[|stages| - 1] == Run(v, stages)
    decreases |stages|
  {
    if |stages| > 1 {
      ChainLast(Convert(v, stages[0]), stages[1..]);
    }
  }

  /** After at least one pass every range is well formed. */
  lemma {:induction false} PassesWellFormed(ps: seq<Range>, stages: seq<seq<AlmanacRange>>)
    requires stages != []
    ensures forall j :: 0 <= j < |Passes(ps, stages)| ==> WellFormed(Passes(ps, stages)[j])
    decreases |stages|
  {
    PassWellFormed(ps, stages[0]);
    if |stages| > 1 {
      PassesWellFormed(Pass(ps, stages[0]), stages[1..]);
    }
  }

  /** Every value held before the passes, run through the stages, is held after them. */
  lemma {:induction false} PassesCover(ps: seq<Range>, stages: seq<seq<AlmanacRange>>)
    ensures forall v :: InSome(ps, v) ==> InSome(Passes(ps, stages), Run(v, stages))
    decreases |stages|
  {
    if stages != [] {
      var next := Pass(ps, stages[0]);
      PassCovers(ps, stages[0]);
      PassesCover(next, stages[1..]);
      forall v | InSome(ps, v)
        ensures InSome(Passes(ps, stages), Run(v, stages))
      {
        assert InSome(next, Convert(v, stages[0]));
      }
    }
  }

  /** Every value held after the passes is a value held before them, run through the
      stages. */
  lemma {:induction false} PassesSound(ps: seq<Range>, stages: seq<seq<AlmanacRange>>)
    ensures forall w :: InSome(Passes(ps, stages), w) ==> exists v :: InSome(ps, v) && Run(v, stages) == w
    decreases |stages|
  {
    if stages == [] {
      forall w | InSome(ps, w)
        ensures exists v :: InSome(ps, v) && Run(v, stages) == w
      {
        assert Run(w, stages) == w;
      }
    } else {
      var next := Pass(ps, stages[0]);
      PassSound(ps, stages[0]);
      PassesSound(next, stages[1..]);
      forall w | InSome(Passes(ps, stages), w)
        ensures exists v :: InSome(ps, v) && Run(v, stages) == w
      {
        assert InSome(Passes(next, stages[1..]), w);
        var u :| InSome(next, u) && Run(u, stages[1..]) == w;
        var v :| InSome(ps, v) && Convert(v, stages[0]) == u;
        assert Run(v, stages) == w;
      }
    }
  }

  /** At least one pass leaves nothing exactly when every range before them is empty. */
  lemma {:induction false} PassesEmpty(ps: seq<Range>, stages: seq<seq<AlmanacRange>>)
    requires stages != []
    ensures Passes(ps, stages) == [] <==> forall i :: 0 <= i < |ps| ==> ps[i].start > ps[i].stop
    decreases |stages|
  {
    var next := Pass(ps, stages[0]);
    PassEmpty(ps, stages[0]);
    if |stages| > 1 {
      PassWellFormed(ps, stages[0]);
      PassesEmpty(next, stages[1..]);
      if next != [] {
        assert WellFormed(next[0]);
      }
    }
  }

  /** The panic messages of `get_min_location`, one per stage. */
  const Part2Messages: seq<string> := [
    "Seed map not found", "soil map not found", "fertilizer map not found", "water map not found",
    "light map not found", "temperature map not found", "humidity map not found"]

  /** The starts of the ranges, in order. */
  function Starts(ps: seq<Range>): (r: seq<int>)
    ensures |r| == |ps| && forall k :: 0 <= k < |ps| ==> r[k] == ps[k].start
  {
    seq(|ps|, k requires 0 <= k < |ps| => ps[k].start)
  }

  /** `get_min_location` with the intended split: the seven maps are looked up first,
      then p goes through the seven passes and the lowest start is taken. */
  function MinLocation(p: Range, maps: map<string, AlmanacMap>): Result<int> {
    var missing := MissingMap(maps, Part2Messages);
    if missing.Some? then Err(missing.value)
    else
      var located := Passes([p], StageRanges(maps));
      if located == [] then Err("Got empty loc list") else Ok(Minimum(Starts(located)))
  }

  /** The lowest start after the passes is the location of a seed of p, and no seed of
      p has a lower location. */
  lemma MinLocationSpec(p: Range, maps: map<string, AlmanacMap>)
    requires MinLocation(p, maps).Ok?
    ensures MissingMap(maps, Part1Messages).None?
    ensures exists v :: Holds(p, v) && MinLocation(p, maps).value == Location(maps, v)
    ensures forall v :: Holds(p, v) ==> MinLocation(p, maps).value <= Location(maps, v)
  {
    MinLocationAttained(p, maps);
    MinLocationLowest(p, maps);
  }

  lemma MinLocationAttained(p: Range, maps: map<string, AlmanacMap>)
    requires MinLocation(p, maps).Ok?
    ensures MissingMap(maps, Part1Messages).None?
    ensures exists v :: Holds(p, v) && MinLocation(p, maps).value == Location(maps, v)
  {
    var stages := StageRanges(maps);
    var located := Passes([p], stages);
    var starts := Starts(located);
    var m := Minimum(starts);
    MinimumSpec(starts);
    PassesWellFormed([p], stages);
    PassesSound([p], stages);
    var j :| 0 <= j < |starts| && starts[j] == m;
    assert InSome(located, m) by {
      assert Holds(located[j], m);
    }
    var v :| InSome([p], v) && Run(v, stages) == m;
    ChainLast(v, stages);
    assert Holds(p, v) && m == Location(maps, v);
  }

  lemma MinLocationLowest(p: Range, maps: map<string, AlmanacMap>)
    requires MinLocation(p, maps).Ok?
    ensures forall v :: Holds(p, v) ==> MinLocation(p, maps).value <= Location(maps, v)
  {
    var stages := StageRanges(maps);
    var located := Passes([p], stages);
    var starts := Starts(located);
    var m := Minimum(starts);
    MinimumSpec(starts);
    PassesCover([p], stages);
    forall u | Holds(p, u)
      ensures m <= Location(maps, u)
    {
      assert InSome([p], u);
      ChainLast(u, stages);
      var k :| 0 <= k < |located| && Holds(located[k], Run(u, stages));
      assert starts[k] in starts;
    }
  }

  /** "Got empty loc list" is the panic exactly when the maps are all there and p holds
      no seed. */
  lemma MinLocationEmpty(p: Range, maps: map<string, AlmanacMap>)
    ensures MinLocation(p, maps) == Err("Got empty loc list")
            <==> MissingMap(maps, Part2Messages).None? && p.start > p.stop
  {
    if MissingMap(maps, Part2Messages).None? {
      PassesEmpty([p], StageRanges(maps));
    } else {
      MissingMapSpec(maps, Part2Messages);
    }
  }

  // ---------------------------------------------------------------- as written, end to end

  /** One pass of `get_min_location` with `split` as written. */
  function PassAsWritten(ps: seq<Range>, ranges: seq<AlmanacRange>): seq<Range>
    decreases |ps|
  {
    if ps == [] then []
    else
      var p := ps[|ps| - 1];
      AsWrittenNeverFails(p, ranges);
      PassAsWritten(ps[..|ps| - 1], ranges) + ConvertAll(AsWrittenPieces(p, ranges).value, ranges)
  }

  function PassesAsWritten(ps: seq<Range>, stages: seq<seq<AlmanacRange>>): seq<Range>
    decreases |stages|
  {
    if stages == [] then ps else PassesAsWritten(PassAsWritten(ps, stages[0]), stages[1..])
  }

  /** `get_min_location` as written. */
  function MinLocationAsWritten(p: Range, maps: map<string, AlmanacMap>): Result<int> {
    var missing := MissingMap(maps, Part2Messages);
    if missing.Some? then Err(missing.value)
    else
      var located := PassesAsWritten([p], StageRanges(maps));
      if located == [] then Err("Got empty loc list") else Ok(Minimum(Starts(located)))
  }

  /** The seeds 0 .. 10 of the example below. */
  function StraddledSeeds(): Range {
    Range(0, 10, 11)
  }

  /** The map of the example below: "500 0 3" sends 0, 1, 2 to 500, 501, 502 and
      "0 5 100" sends 5 .. 104 to 0 .. 99. */
  function StraddlingMap(): seq<AlmanacRange> {
    [AlmanacRange(0, 500, 3), AlmanacRange(5, 0, 100)]
  }

  lemma StraddledCuts()
    ensures SplitValues(StraddledSeeds(), StraddlingMap()) == [0, 2, 3, 5, 6, 10]
  {
    var ranges := StraddlingMap();
    assert ranges[..1][..0] == [];
    assert ranges[..1] == [ranges[0]];
    assert Cuts(StraddledSeeds(), ranges[..1]) == [2, 3];
  }

  lemma StraddledValues()
    ensures SortBy(SplitValues(StraddledSeeds(), StraddlingMap()), IntLe) == [0, 2, 3, 5, 6, 10]
  {
    StraddledCuts();
    var values := [0, 2, 3, 5, 6, 10];
    assert forall i, j :: 0 <= i < j < |values| ==> values[i] < values[j];
    SortBySortedInput(values, IntLe);
  }

  lemma StraddledPairs()
    ensures AsWrittenPieces(StraddledSeeds(), StraddlingMap()) == Ok([Range(0, 2, 3), Range(3, 5, 3), Range(6, 10, 5)])
  {
    StraddledValues();
    var values := [0, 2, 3, 5, 6, 10];
    PairsAt(values);
    var pieces := Pairs(values).value;
    assert pieces[0] == Range(0, 2, 3) && pieces[1] == Range(3, 5, 3) && pieces[2] == Range(6, 10, 5);
    assert pieces == [Range(0, 2, 3), Range(3, 5, 3), Range(6, 10, 5)];
    assert AsWrittenPieces(StraddledSeeds(), StraddlingMap()) == Pairs(values);
  }

  lemma StraddledPieces()
    ensures Pieces(StraddledSeeds(), StraddlingMap()) == [Range(0, 2, 3), Range(3, 4, 2), Range(5, 10, 6)]
  {
    var ranges := StraddlingMap();
    assert ranges[..1] == [ranges[0]] && ranges[..1][..0] == [];
    assert NextCut(0, 11, ranges) == 3;
    assert NextCut(3, 11, ranges) == 5;
    assert NextCut(5, 11, ranges) == 11;
  }

  lemma StraddledPassAsWritten()
    ensures PassAsWritten([StraddledSeeds()], StraddlingMap()) == [Range(500, 502, 3), Range(3, 5, 3), Range(1, 5, 5)]
  {
    var ranges := StraddlingMap();
    StraddledPairs();
    assert [StraddledSeeds()][..0] == [];
    var pieces := [Range(0, 2, 3), Range(3, 5, 3), Range(6, 10, 5)];
    assert ConvertRange(pieces[0], ranges) == Range(500, 502, 3);
    assert ConvertRange(pieces[1], ranges) == Range(3, 5, 3);
    assert ConvertRange(pieces[2], ranges) == Range(1, 5, 5);
    assert ConvertAll(pieces, ranges) == [Range(500, 502, 3), Range(3, 5, 3), Range(1, 5, 5)];
  }

  lemma StraddledPass()
    ensures Pass([StraddledSeeds()], StraddlingMap()) == [Range(500, 502, 3), Range(3, 4, 2), Range(0, 5, 6)]
  {
    var ranges := StraddlingMap();
    StraddledPieces();
    assert [StraddledSeeds()][..0] == [];
    var pieces := [Range(0, 2, 3), Range(3, 4, 2), Range(5, 10, 6)];
    assert ConvertRange(pieces[0], ranges) == Range(500, 502, 3);
    assert ConvertRange(pieces[1], ranges) == Range(3, 4, 2);
    assert ConvertRange(pieces[2], ranges) == Range(0, 5, 6);
    assert ConvertAll(pieces, ranges) == [Range(500, 502, 3), Range(3, 4, 2), Range(0, 5, 6)];
  }

  /** With the seeds 0 .. 10 and the ranges "500 0 3" and "0 5 100", `split` as written
      cuts after 5 instead of before it: the piece 3 .. 5 starts outside every range, so
      the whole piece stays where it is and 5, which the map sends to 0, is lost. The
      pass then holds nothing at 0 and its lowest start is 1; the intended pass has a
      piece starting at 0. */
  lemma SplitAsWrittenStraddles()
    ensures AsWrittenPieces(StraddledSeeds(), StraddlingMap()) == Ok([Range(0, 2, 3), Range(3, 5, 3), Range(6, 10, 5)])
    ensures !Uniform(Range(3, 5, 3), StraddlingMap())
    ensures PassAsWritten([StraddledSeeds()], StraddlingMap()) == [Range(500, 502, 3), Range(3, 5, 3), Range(1, 5, 5)]
    ensures Holds(StraddledSeeds(), 5) && Convert(5, StraddlingMap()) == 0
    ensures !InSome(PassAsWritten([StraddledSeeds()], StraddlingMap()), 0)
    ensures Pass([StraddledSeeds()], StraddlingMap()) == [Range(500, 502, 3), Range(3, 4, 2), Range(0, 5, 6)]
  {
    var ranges := StraddlingMap();
    StraddledPairs();
    StraddledPassAsWritten();
    StraddledPass();
    assert !Covers(3, ranges[1]) && Covers(5, ranges[1]) && Holds(Range(3, 5, 3), 5);
  }

  /** The almanac whose seven maps have no ranges: every value is its own location. */
  function EmptyMaps(): (maps: map<string, AlmanacMap>)
    ensures MissingMap(maps, Part1Messages).None? && MissingMap(maps, Part2Messages).None?
    ensures forall k :: 0 <= k < 7 ==> StageRanges(maps)[k] == []
  {
    map["seed" := AlmanacMap("seed", "soil", []), "soil" := AlmanacMap("soil", "fertilizer", []),
        "fertilizer" := AlmanacMap("fertilizer", "water", []), "water" := AlmanacMap("water", "light", []),
        "light" := AlmanacMap("light", "temperature", []),
        "temperature" := AlmanacMap("temperature", "humidity", []),
        "humidity" := AlmanacMap("humidity", "location", [])]
  }

  /** With no map ranges, `split` as written turns the range of length 0 at s into the
      two values s - 1 .. s, and keeps that piece as it is. */
  lemma PassAsWrittenZeroLength(s: int)
    ensures PassAsWritten([NewRange(s, 0)], []) == [Range(s - 1, s, 2)]
    ensures PassAsWritten([Range(s - 1, s, 2)], []) == [Range(s - 1, s, 2)]
  {
    assert SplitValues(NewRange(s, 0), []) == [s, s - 1];
    assert SortBy([s, s - 1], IntLe) == [s - 1, s] by {
      assert SortBy([s], IntLe) == [s];
    }
    var values := [s - 1, s];
    assert values[2..] == [] && Pairs(values[2..]) == Ok([]);
    assert NewRange(values[0], values[1] + 1 - values[0]) == Range(s - 1, s, 2);
    assert SplitValues(Range(s - 1, s, 2), []) == [s - 1, s];
    assert SortBy([s - 1, s], IntLe) == [s - 1, s] by {
      assert SortBy([s - 1], IntLe) == [s - 1];
    }
  }

  /** The piece s - 1 .. s goes through any number of stages without ranges. */
  lemma {:induction false} PassesAsWrittenKeep(s: int, stages: seq<seq<AlmanacRange>>)
    requires forall k :: 0 <= k < |stages| ==> stages[k] == []
    ensures PassesAsWritten([Range(s - 1, s, 2)], stages) == [Range(s - 1, s, 2)]
    decreases |stages|
  {
    if stages != [] {
      PassAsWrittenZeroLength(s);
      assert forall k :: 0 <= k < |stages[1..]| ==> stages[1..][k] == stages[k + 1];
      PassesAsWrittenKeep(s, stages[1..]);
    }
  }

  /** A seed range of length 0 holds no seed, yet `get_min_location` as written answers
      s - 1 for it when no map has ranges (EmptyMaps is such an almanac): `Range::new`
      puts its stop at s - 1, and `split` pairs the start and the stop into the piece
      s - 1 .. s. With the intended split the range yields no piece and the answer is
      the "Got empty loc list" panic. */
  lemma ZeroLengthSeedsAsWritten(s: int, maps: map<string, AlmanacMap>)
    requires MissingMap(maps, Part1Messages).None? && MissingMap(maps, Part2Messages).None?
    requires forall k :: 0 <= k < 7 ==> StageRanges(maps)[k] == []
    ensures forall v :: !Holds(NewRange(s, 0), v)
    ensures MinLocationAsWritten(NewRange(s, 0), maps) == Ok(s - 1)
    ensures MinLocation(NewRange(s, 0), maps) == Err("Got empty loc list")
  {
    var stages := StageRanges(maps);
    PassAsWrittenZeroLength(s);
    assert stages[0] == [];
    assert forall k :: 0 <= k < |stages[1..]| ==> stages[1..][k] == stages[k + 1];
    PassesAsWrittenKeep(s, stages[1..]);
    assert PassesAsWritten([NewRange(s, 0)], stages) == [Range(s - 1, s, 2)];
    assert Starts([Range(s - 1, s, 2)]) == [s - 1];
    MinimumSpec([s - 1]);
    MinLocationEmpty(NewRange(s, 0), maps);
  }

  // ---------------------------------------------------------------- part 2

  /** The lowest location of each seed range, in order; the first range whose
      `get_min_location` panics ends `solve` with that panic. */
  function MinLocations(seeds: seq<Range>, maps: map<string, AlmanacMap>): (r: Result<seq<int>>)
    ensures r.Ok? ==> |r.value| == |seeds|
    decreases |seeds|
  {
    if seeds == [] then Ok([])
    else
      var first := MinLocation(seeds[0], maps);
      if first.Err? then Err(first.error)
      else
        var rest := MinLocations(seeds[1..], maps);
        if rest.Err? then rest else Ok([first.value] + rest.value)
  }

  /** The end of `solve`: `.min()` over the ranges' lowest locations, with its panic
      when there is no seed range. */
  function LowestOfRanges(seeds: seq<Range>, maps: map<string, AlmanacMap>): Result<int> {
    if seeds == [] then Err("seed list is empty")
    else
      var minima := MinLocations(seeds, maps);
      if minima.Err? then Err(minima.error) else Ok(Minimum(minima.value))
  }

  /** `solve` of part 2. */
  function LowestLocationOfRanges(lines: seq<string>): Result<int> {
    var read := ReadAll(Classified(lines, ClassifyPart2));
    if read.Err? then Err(read.error) else LowestOfRanges(read.value.seeds, BySource(read.value.maps))
  }

  /** `solve` of part 2: the reading loop, then the seed ranges. */
  method Part2(lines: seq<string>) returns (r: Result<int>)
    ensures r == LowestLocationOfRanges(lines)
  {
    var read := ReadInput(lines, ClassifyPart2);
    if read.Err? {
      return Err(read.error);
    }
    r := LowestOfRanges(read.value.seeds, BySource(read.value.maps));
  }

  /** The minima are all there exactly when no range panics, and each is its range's. */
  lemma {:induction false} MinLocationsSpec(seeds: seq<Range>, maps: map<string, AlmanacMap>)
    ensures MinLocations(seeds, maps).Ok? <==> forall i :: 0 <= i < |seeds| ==> MinLocation(seeds[i], maps).Ok?
    ensures MinLocations(seeds, maps).Ok? ==>
              forall i :: 0 <= i < |seeds| ==> MinLocations(seeds, maps).value[i] == MinLocation(seeds[i], maps).value
    decreases |seeds|
  {
    if seeds != [] {
      MinLocationsSpec(seeds[1..], maps);
      if MinLocations(seeds, maps).Ok? {
        forall i | 1 <= i < |seeds|
          ensures MinLocations(seeds, maps).value[i] == MinLocation(seeds[i], maps).value
        {
          assert seeds[1..][i - 1] == seeds[i];
        }
      }
      if forall i :: 0 <= i < |seeds| ==> MinLocation(seeds[i], maps).Ok? {
        assert forall i :: 0 <= i < |seeds[1..]| ==> seeds[1..][i] == seeds[i + 1];
      } else {
        var i :| 0 <= i < |seeds| && !MinLocation(seeds[i], maps).Ok?;
        if i > 0 {
          assert seeds[1..][i - 1] == seeds[i];
        }
      }
    }
  }

  /** When every range that panics panics with e, so do the minima. */
  lemma {:induction false} MinLocationsError(seeds: seq<Range>, maps: map<string, AlmanacMap>, e: string)
    requires forall i :: 0 <= i < |seeds| ==> MinLocation(seeds[i], maps).Ok? || MinLocation(seeds[i], maps) == Err(e)
    ensures MinLocations(seeds, maps).Err? ==> MinLocations(seeds, maps).error == e
    decreases |seeds|
  {
    if seeds != [] {
      assert forall i :: 0 <= i < |seeds[1..]| ==> seeds[1..][i] == seeds[i + 1];
      MinLocationsError(seeds[1..], maps, e);
    }
  }

  /** Part 2 answers the lowest location of any seed of any range: it is the location
      of one of them, and none has a lower one. */
  lemma LowestOfRangesSpec(seeds: seq<Range>, maps: map<string, AlmanacMap>)
    requires LowestOfRanges(seeds, maps).Ok?
    ensures MissingMap(maps, Part1Messages).None?
    ensures exists i, v :: 0 <= i < |seeds| && Holds(seeds[i], v) && LowestOfRanges(seeds, maps).value == Location(maps, v)
    ensures forall i, v :: 0 <= i < |seeds| && Holds(seeds[i], v) ==> LowestOfRanges(seeds, maps).value <= Location(maps, v)
  {
    var minima := MinLocations(seeds, maps).value;
    var m := Minimum(minima);
    MinLocationsSpec(seeds, maps);
    MinimumSpec(minima);
    var k :| 0 <= k < |minima| && minima[k] == m;
    MinLocationSpec(seeds[k], maps);
    var v :| Holds(seeds[k], v) && MinLocation(seeds[k], maps).value == Location(maps, v);
    assert Holds(seeds[k], v) && m == Location(maps, v);
    forall i, u | 0 <= i < |seeds| && Holds(seeds[i], u)
      ensures m <= Location(maps, u)
    {
      MinLocationSpec(seeds[i], maps);
      assert minima[i] in minima;
    }
  }

  /** How part 2 panics: with no seed range, "seed list is empty"; otherwise with the
      first missing map, if any; otherwise "Got empty loc list" exactly when some range
      holds no seed. */
  lemma LowestOfRangesErrors(seeds: seq<Range>, maps: map<string, AlmanacMap>)
    ensures LowestOfRanges(seeds, maps) == Err("seed list is empty") <==> seeds == []
    ensures seeds != [] && MissingMap(maps, Part2Messages).Some? ==>
              LowestOfRanges(seeds, maps) == Err(MissingMap(maps, Part2Messages).value)
    ensures seeds != [] && MissingMap(maps, Part2Messages).None? ==>
              && (LowestOfRanges(seeds, maps).Err? <==> exists i :: 0 <= i < |seeds| && seeds[i].start > seeds[i].stop)
              && (LowestOfRanges(seeds, maps).Err? ==> LowestOfRanges(seeds, maps).error == "Got empty loc list")
  {
    if seeds != [] {
      MinLocationsSpec(seeds, maps);
      var missing := MissingMap(maps, Part2Messages);
      if missing.Some? {
        assert MinLocation(seeds[0], maps) == Err(missing.value);
        MinLocationsError(seeds, maps, missing.value);
        MissingMapSpec(maps, Part2Messages);
      } else {
        forall i | 0 <= i < |seeds|
          ensures MinLocation(seeds[i], maps).Err? <==> seeds[i].start > seeds[i].stop
        {
          MinLocationEmpty(seeds[i], maps);
        }
        MinLocationsError(seeds, maps, "Got empty loc list");
      }
    }
  }
}
