/** If You Give A Seed A Fertilizer: an almanac lists the seeds and seven maps (seed to
    soil, soil to fertilizer, ... humidity to location). Each map is a list of ranges
    "destination source length". This module holds what both parts share: the almanac
    data, the line parsers and the line-by-line reading of `solve`, plus part 1, which
    sends every seed through the seven maps and returns the lowest location. */
module Almanac {
  import opened Wrappers
  import opened Text

  // ---------------------------------------------------------------- data

  /** A map line: the values sourceStart .. sourceStart + range - 1 move to
      destinationStart .. destinationStart + range - 1. */
  datatype AlmanacRange = AlmanacRange(sourceStart: nat, destinationStart: nat, range: nat)

  /** A map "source-to-destination map:" and its ranges, in input order. */
  datatype AlmanacMap = AlmanacMap(source: string, destination: string, ranges: seq<AlmanacRange>)

  // ---------------------------------------------------------------- parsers

  /** `parse_map_content`: three digit runs separated by at least one space, yielding
      (destination, source, range). Whatever follows the third number is ignored. */
  function ParseMapContent(line: string): Option<(nat, nat, nat)> {
    var destination := NumberAt(line, 0);
    if destination.None? then None else ContentAfter(line, destination.value.0, destination.value.1)
  }

  /** The rest of `ParseMapContent` once the destination is read up to position i. */
  function ContentAfter(line: string, destination: nat, i: nat): Option<(nat, nat, nat)>
    requires i <= |line|
  {
    var j := SpanEnd(line, i, IsSpace);
    var source := if j == i then None else NumberAt(line, j);
    if source.None? then None else RangeAfter(line, destination, source.value.0, source.value.1)
  }

  /** The rest of `ParseMapContent` once the source is read up to position i. */
  function RangeAfter(line: string, destination: nat, source: nat, i: nat): Option<(nat, nat, nat)>
    requires i <= |line|
  {
    var j := SpanEnd(line, i, IsSpace);
    var range := if j == i then None else NumberAt(line, j);
    if range.None? then None else Some((destination, source, range.value.0))
  }

  /** A map line as the puzzle input writes it. */
  function ContentLine(destination: nat, source: nat, range: nat): string {
    DecimalString(destination) + " " + DecimalString(source) + " " + DecimalString(range)
  }

  /** Where the pieces of `ContentLine` lie: the first number ends at a, the second at b. */
  lemma ContentLinePieces(destination: nat, source: nat, range: nat) returns (a: nat, b: nat)
    ensures a == |DecimalString(destination)| && b == a + 1 + |DecimalString(source)|
    ensures |ContentLine(destination, source, range)| == b + 1 + |DecimalString(range)|
    ensures ContentLine(destination, source, range)[..a] == DecimalString(destination)
    ensures ContentLine(destination, source, range)[a] == ' '
    ensures ContentLine(destination, source, range)[a + 1..b] == DecimalString(source)
    ensures ContentLine(destination, source, range)[b] == ' '
    ensures ContentLine(destination, source, range)[b + 1..] == DecimalString(range)
  {
    a := |DecimalString(destination)|;
    b := a + 1 + |DecimalString(source)|;
  }

  lemma RangeAfterAt(s: string, destination: nat, source: nat, range: nat, i: nat)
    requires i < |s| && s[i] == ' ' && s[i + 1..] == DecimalString(range)
    ensures RangeAfter(s, destination, source, i) == Some((destination, source, range))
  {
    assert s[i + 1] == DecimalString(range)[0];
    SpanEndAt(s, i, i + 1, IsSpace);
    NumberAtOf(s, i + 1, range);
  }

  lemma ContentAfterAt(s: string, destination: nat, source: nat, i: nat, b: nat)
    requires b == i + 1 + |DecimalString(source)| && b < |s|
    requires s[i] == ' ' && s[i + 1..b] == DecimalString(source) && s[b] == ' '
    ensures ContentAfter(s, destination, i) == RangeAfter(s, destination, source, b)
  {
    assert s[i + 1] == DecimalString(source)[0];
    SpanEndAt(s, i, i + 1, IsSpace);
    NumberAtOf(s, i + 1, source);
  }

  lemma ParseMapContentAt(s: string, destination: nat, a: nat)
    requires a == |DecimalString(destination)| && a < |s|
    requires s[..a] == DecimalString(destination) && s[a] == ' '
    ensures ParseMapContent(s) == ContentAfter(s, destination, a)
  {
    assert s[0..a] == s[..a];
    NumberAtOf(s, 0, destination);
  }

  /** `parse_map_content` reads back the three numbers of a map line, in the order
      destination, source, range. */
  lemma MapContentRoundTrip(destination: nat, source: nat, range: nat)
    ensures ParseMapContent(ContentLine(destination, source, range)) == Some((destination, source, range))
  {
    var s := ContentLine(destination, source, range);
    var a, b := ContentLinePieces(destination, source, range);
    ParseMapContentAt(s, destination, a);
    ContentAfterAt(s, destination, source, a, b);
    RangeAfterAt(s, destination, source, range, b);
  }

  predicate AllAlpha(s: string) {
    forall i :: 0 <= i < |s| ==> IsAlpha(s[i])
  }

  /** `parse_map_name`: a run of letters, "-to-", a run of letters, yielding the two
      names. Whatever follows (" map:") is ignored. */
  function ParseMapName(line: string): Option<(string, string)> {
    var a := SpanEnd(line, 0, IsAlpha);
    if a == 0 || !StartsWith(line[a..], "-to-") then None
    else
      var b := SpanEnd(line, a + 4, IsAlpha);
      if b == a + 4 then None else Some((line[..a], line[a + 4..b]))
  }

  /** A map header as the puzzle input writes it. */
  function HeaderLine(source: string, destination: string): string {
    source + "-to-" + destination + " map:"
  }

  /** `parse_map_name` reads back the two names of a map header. */
  lemma MapNameRoundTrip(source: string, destination: string)
    requires source != [] && AllAlpha(source) && destination != [] && AllAlpha(destination)
    ensures ParseMapName(HeaderLine(source, destination)) == Some((source, destination))
  {
    var s := HeaderLine(source, destination);
    var a := |source|;
    var b := a + 4 + |destination|;
    HeaderPieces(source, destination);
    MapNameAt(s, a, b);
  }

  /** Where the pieces of a header lie. */
  lemma HeaderPieces(x: string, y: string)
    ensures var s, a := x + "-to-" + y + " map:", |x|;
      && |s| == a + 4 + |y| + 5 && s[..a] == x && s[a..][..4] == "-to-"
      && s[a + 4..a + 4 + |y|] == y && s[a + 4 + |y|] == ' '
  {
    var a := |x|;
    var head := x + "-to-";
    var s := head + y + " map:";
    assert s[..a + 4] == head;
    assert s[a..][..4] == head[a..];
    assert s[a + 4..a + 4 + |y|] == y;
  }

  /** A line with a run of letters up to a, then "-to-", then a run of letters up to b
      followed by a space, is a header naming those two runs. */
  lemma MapNameAt(s: string, a: nat, b: nat)
    requires 0 < a && a + 4 < b < |s| && s[a..][..4] == "-to-" && s[b] == ' '
    requires AllAlpha(s[..a]) && AllAlpha(s[a + 4..b])
    ensures ParseMapName(s) == Some((s[..a], s[a + 4..b]))
  {
    assert forall k :: 0 <= k < a ==> s[k] == s[..a][k];
    SpanEndAt(s, 0, a, IsAlpha);
    assert forall k :: a + 4 <= k < b ==> s[k] == s[a + 4..b][k - a - 4];
    SpanEndAt(s, a + 4, b, IsAlpha);
  }

  /** `parse_seeds` of part 1: "seeds: " and then `many0` of spaced numbers. */
  function ParseSeeds(line: string): Option<seq<nat>> {
    if StartsWith(line, "seeds: ") then Some(SpacedNumbers(line, 7).0) else None
  }

  /** The seed line as the puzzle input writes it. */
  function SeedsLine(seeds: seq<nat>): string {
    "seeds:" + Spaced(seeds)
  }

  /** `parse_seeds` reads back the seeds of a seed line that lists at least one. */
  lemma SeedsRoundTrip(seeds: seq<nat>)
    requires seeds != []
    ensures ParseSeeds(SeedsLine(seeds)) == Some(seeds)
  {
    var s := SeedsLine(seeds);
    SpacedPieces(seeds);
    assert s[..6] == "seeds:" && s[6..] == Spaced(seeds);
    SeedsAt(s, seeds);
  }

  lemma SeedsAt(s: string, seeds: seq<nat>)
    requires 6 < |s| && s[..6] == "seeds:" && s[6] == ' ' && s[6..] == Spaced(seeds)
    ensures ParseSeeds(s) == Some(seeds)
  {
    assert s[..7] == s[..6] + [s[6]];
    SpanEndAt([], 0, 0, IsSpace);
    SpacedNumbersBefore(s, 6, seeds, []);
    SpacedNumbersAfterSpace(s, 6);
  }

  // ---------------------------------------------------------------- reading the input

  /** What the `if`/`else if` chain of `solve` makes of one line; the seed parser is
      the one thing the two parts do differently. */
  datatype Line<T> =
    | Blank
    | Content(destination: nat, source: nat, range: nat)
    | Header(mapSource: string, mapDestination: string)
    | SeedList(seeds: seq<T>)
    | Other

  /** The dispatch of `solve`: an empty line is skipped, then a map line is tried, then
      a header, then the seed line; any other line is ignored. */
  function Classify<T>(line: string, parseSeeds: string -> Option<seq<T>>): Line<T> {
    if line == [] then Blank
    else
      var content := ParseMapContent(line);
      if content.Some? then Content(content.value.0, content.value.1, content.value.2)
      else
        var name := ParseMapName(line);
        if name.Some? then Header(name.value.0, name.value.1)
        else
          var seeds := parseSeeds(line);
          if seeds.Some? then SeedList(seeds.value) else Other
  }

  /** A header is never taken for a map line. */
  lemma ClassifyHeader<T>(source: string, destination: string, parseSeeds: string -> Option<seq<T>>)
    requires source != [] && AllAlpha(source) && destination != [] && AllAlpha(destination)
    ensures Classify(HeaderLine(source, destination), parseSeeds) == Header(source, destination)
  {
    MapNameRoundTrip(source, destination);
    assert HeaderLine(source, destination)[0] == source[0];
  }

  /** A map line is read as one. */
  lemma ClassifyContent<T>(destination: nat, source: nat, range: nat, parseSeeds: string -> Option<seq<T>>)
    ensures Classify(ContentLine(destination, source, range), parseSeeds) == Content(destination, source, range)
  {
    MapContentRoundTrip(destination, source, range);
  }

  /** The seed line of part 1 is neither a map line nor a header. */
  lemma ClassifySeeds(seeds: seq<nat>)
    requires seeds != []
    ensures Classify(SeedsLine(seeds), ParseSeeds) == SeedList(seeds)
  {
    var s := SeedsLine(seeds);
    SeedsRoundTrip(seeds);
    SpacedPieces(seeds);
    assert s[..6] == "seeds:";
    ClassifySeedsAt(s, seeds);
  }

  /** A line starting with "seeds:" that the seed parser reads is a seed line. */
  lemma ClassifySeedsAt(s: string, seeds: seq<nat>)
    requires 6 < |s| && s[..6] == "seeds:" && ParseSeeds(s) == Some(seeds)
    ensures Classify(s, ParseSeeds) == SeedList(seeds)
  {
    assert s[0] == "seeds:"[0] && s[1] == "seeds:"[1] && s[2] == "seeds:"[2];
    assert s[3] == "seeds:"[3] && s[4] == "seeds:"[4] && s[5] == "seeds:"[5];
    NotContent(s);
    NotHeader(s, 5);
  }

  /** A line that does not start with a digit is not a map line. */
  lemma NotContent(s: string)
    requires s != [] && !IsDigit(s[0])
    ensures ParseMapContent(s) == None
  {
  }

  /** A line whose leading letters (ending at a) are not followed by "-to-" is not a
      header. */
  lemma NotHeader(s: string, a: nat)
    requires a < |s| && s[a] != '-' && !IsAlpha(s[a])
    requires forall k :: 0 <= k < a ==> IsAlpha(s[k])
    ensures ParseMapName(s) == None
  {
    SpanEndAt(s, 0, a, IsAlpha);
    assert s[a..][0] == s[a];
  }

  /** The two vectors `solve` fills while reading. */
  datatype Almanac<T> = Almanac(seeds: seq<T>, maps: seq<AlmanacMap>)

  /** One pass of the reading loop of `solve`. A map line goes to the last map as
      AlmanacRange(source, destination, range), and panics when no header came
      before it; a header starts a new map; a seed line replaces the seeds. */
  function Step<T>(a: Almanac<T>, line: Line<T>): Result<Almanac<T>> {
    match line
    case Blank => Ok(a)
    case Content(destination, source, range) =>
      if a.maps == [] then Err("No map yet !")
      else
        var last := a.maps[|a.maps| - 1];
        var grown := last.(ranges := last.ranges + [AlmanacRange(source, destination, range)]);
        Ok(a.(maps := a.maps[..|a.maps| - 1] + [grown]))
    case Header(source, destination) => Ok(a.(maps := a.maps + [AlmanacMap(source, destination, [])]))
    case SeedList(seeds) => Ok(a.(seeds := seeds))
    case Other => Ok(a)
  }

  /** The reading loop of `solve` over the classified lines. */
  function ReadAll<T>(lines: seq<Line<T>>): Result<Almanac<T>>
    decreases |lines|
  {
    if lines == [] then Ok(Almanac([], []))
    else
      var before := ReadAll(lines[..|lines| - 1]);
      if before.Err? then before else Step(before.value, lines[|lines| - 1])
  }

  function Classified<T>(lines: seq<string>, classify: string -> Line<T>): (r: seq<Line<T>>)
    ensures |r| == |lines| && forall k :: 0 <= k < |lines| ==> r[k] == classify(lines[k])
  {
    seq(|lines|, k requires 0 <= k < |lines| => classify(lines[k]))
  }

  /** Once the reading has panicked, the rest of the input changes nothing. */
  lemma {:induction false} ReadAllFails<T>(lines: seq<Line<T>>, n: nat)
    requires n <= |lines| && ReadAll(lines[..n]).Err?
    ensures ReadAll(lines) == ReadAll(lines[..n])
    decreases |lines| - n
  {
    if n < |lines| {
      assert lines[..n + 1][..n] == lines[..n];
      ReadAllFails(lines, n + 1);
    } else {
      assert lines[..n] == lines;
    }
  }

  /** The reading loop of `solve`: `seeds` and `maps` are updated in place line by line. */
  method ReadInput<T>(lines: seq<string>, classify: string -> Line<T>) returns (r: Result<Almanac<T>>)
    ensures r == ReadAll(Classified(lines, classify))
  {
    ghost var classified := Classified(lines, classify);
    var seeds: seq<T> := [];
    var maps: seq<AlmanacMap> := [];
    for k := 0 to |lines|
      invariant ReadAll(classified[..k]) == Ok(Almanac(seeds, maps))
    {
      assert classified[..k + 1][..k] == classified[..k];
      match classify(lines[k])
      case Blank =>
      case Content(destination, source, range) =>
        if maps == [] {
          ReadAllFails(classified, k + 1);
          return Err("No map yet !");
        }
        var last := maps[|maps| - 1];
        maps := maps[..|maps| - 1] + [last.(ranges := last.ranges + [AlmanacRange(source, destination, range)])];
      case Header(source, destination) =>
        maps := maps + [AlmanacMap(source, destination, [])];
      case SeedList(parsed) =>
        seeds := parsed;
      case Other =>
    }
    assert classified[..|lines|] == classified;
    r := Ok(Almanac(seeds, maps));
  }

  /** The headers read so far, in order. */
  function Headers<T>(lines: seq<Line<T>>): seq<(string, string)>
    decreases |lines|
  {
    if lines == [] then []
    else
      var last := lines[|lines| - 1];
      Headers(lines[..|lines| - 1]) + if last.Header? then [(last.mapSource, last.mapDestination)] else []
  }

  /** The map lines read so far, each as the range `solve` stores. */
  function Contents<T>(lines: seq<Line<T>>): seq<AlmanacRange>
    decreases |lines|
  {
    if lines == [] then []
    else
      var last := lines[|lines| - 1];
      Contents(lines[..|lines| - 1])
      + if last.Content? then [AlmanacRange(last.source, last.destination, last.range)] else []
  }

  /** The seeds of the last seed line, or none. */
  function LastSeeds<T>(lines: seq<Line<T>>): seq<T>
    decreases |lines|
  {
    if lines == [] then []
    else if lines[|lines| - 1].SeedList? then lines[|lines| - 1].seeds
    else LastSeeds(lines[..|lines| - 1])
  }

  /** All ranges of the maps, map after map. */
  function AllRanges(maps: seq<AlmanacMap>): seq<AlmanacRange>
    decreases |maps|
  {
    if maps == [] then [] else AllRanges(maps[..|maps| - 1]) + maps[|maps| - 1].ranges
  }

  /** A reading that succeeds has one map per header, named as the header names it. */
  lemma {:induction false} ReadAllMaps<T>(lines: seq<Line<T>>)
    requires ReadAll(lines).Ok?
    ensures var maps := ReadAll(lines).value.maps;
            && |maps| == |Headers(lines)|
            && forall i :: 0 <= i < |maps| ==> (maps[i].source, maps[i].destination) == Headers(lines)[i]
    decreases |lines|
  {
    if lines != [] {
      var init := lines[..|lines| - 1];
      ReadAllMaps(init);
      var maps := ReadAll(init).value.maps;
      match lines[|lines| - 1]
      case Content(destination, source, range) =>
        var n := |maps|;
        var grown := maps[n - 1].(ranges := maps[n - 1].ranges + [AlmanacRange(source, destination, range)]);
        assert forall i :: 0 <= i < n - 1 ==> (maps[..n - 1] + [grown])[i] == maps[i];
      case Header(source, destination) =>
        assert forall i :: 0 <= i < |maps| ==> (maps + [AlmanacMap(source, destination, [])])[i] == maps[i];
      case _ =>
    }
  }

  /** A reading that succeeds holds every map line, in input order, each added to the
      map of the header before it. */
  lemma {:induction false} ReadAllRanges<T>(lines: seq<Line<T>>)
    requires ReadAll(lines).Ok?
    ensures AllRanges(ReadAll(lines).value.maps) == Contents(lines)
    decreases |lines|
  {
    if lines != [] {
      var init := lines[..|lines| - 1];
      ReadAllRanges(init);
      var maps := ReadAll(init).value.maps;
      match lines[|lines| - 1]
      case Content(destination, source, range) =>
        var n := |maps|;
        var grown := maps[n - 1].(ranges := maps[n - 1].ranges + [AlmanacRange(source, destination, range)]);
        assert (maps[..n - 1] + [grown])[..n - 1] == maps[..n - 1];
      case Header(source, destination) =>
        assert (maps + [AlmanacMap(source, destination, [])])[..|maps|] == maps;
      case _ =>
    }
  }

  /** A reading that succeeds keeps the seeds of the last seed line. */
  lemma {:induction false} ReadAllSeeds<T>(lines: seq<Line<T>>)
    requires ReadAll(lines).Ok?
    ensures ReadAll(lines).value.seeds == LastSeeds(lines)
    decreases |lines|
  {
    if lines != [] {
      ReadAllSeeds(lines[..|lines| - 1]);
    }
  }

  /** The reading panics exactly when a map line comes before every header. */
  lemma {:induction false} ReadAllErr<T>(lines: seq<Line<T>>)
    ensures ReadAll(lines).Err? <==> exists i :: 0 <= i < |lines| && lines[i].Content? && Headers(lines[..i]) == []
    ensures ReadAll(lines).Err? ==> ReadAll(lines).error == "No map yet !"
    decreases |lines|
  {
    if lines != [] {
      var init := lines[..|lines| - 1];
      ReadAllErr(init);
      forall i | 0 <= i < |init|
        ensures lines[..i] == init[..i]
      {
      }
      if ReadAll(init).Ok? {
        ReadAllMaps(init);
        assert lines[..|init|] == init;
      }
    }
  }

  // ---------------------------------------------------------------- maps by name

  /** The `HashMap` collected from the maps, keyed by source name; a later map with
      the same source replaces an earlier one. */
  function BySource(maps: seq<AlmanacMap>): map<string, AlmanacMap>
    decreases |maps|
  {
    if maps == [] then map[]
    else BySource(maps[..|maps| - 1])[maps[|maps| - 1].source := maps[|maps| - 1]]
  }

  /** A name is a key exactly when some map has it as source, and its value is the last
      such map. */
  lemma {:induction false} BySourceSpec(maps: seq<AlmanacMap>, name: string)
    ensures name in BySource(maps) <==> exists i :: 0 <= i < |maps| && maps[i].source == name
    ensures forall i :: 0 <= i < |maps| && maps[i].source == name
                        && (forall j :: i < j < |maps| ==> maps[j].source != name)
                        ==> BySource(maps)[name] == maps[i]
    decreases |maps|
  {
    if maps != [] {
      var init := maps[..|maps| - 1];
      BySourceSpec(init, name);
      assert forall i :: 0 <= i < |init| ==> init[i] == maps[i];
    }
  }

  // ---------------------------------------------------------------- conversion

  /** Whether range r is the one for value v: `convert` of part 1 as written accepts
      v = sourceStart + range, one past the range. */
  predicate CoversAsWritten(v: int, r: AlmanacRange) {
    r.sourceStart <= v <= r.sourceStart + r.range
  }

  /** Whether v lies in the source values of r. */
  predicate Covers(v: int, r: AlmanacRange) {
    r.sourceStart <= v < r.sourceStart + r.range
  }

  /** The index of the first range that covers v (`Iterator::find`), or |ranges|. */
  function FirstCovering(v: int, ranges: seq<AlmanacRange>, covers: (int, AlmanacRange) -> bool): (k: nat)
    ensures k <= |ranges|
    decreases |ranges|
  {
    if ranges == [] || covers(v, ranges[0]) then 0 else 1 + FirstCovering(v, ranges[1..], covers)
  }

  /** FirstCovering is the first covering range: none before it covers v. */
  lemma {:induction false} FirstCoveringSpec(v: int, ranges: seq<AlmanacRange>, covers: (int, AlmanacRange) -> bool)
    ensures var k := FirstCovering(v, ranges, covers);
            && (k < |ranges| ==> covers(v, ranges[k]))
            && (forall j :: 0 <= j < k ==> !covers(v, ranges[j]))
    decreases |ranges|
  {
    if ranges != [] && !covers(v, ranges[0]) {
      FirstCoveringSpec(v, ranges[1..], covers);
    }
  }

  /** v moved by range r. */
  function Shift(v: int, r: AlmanacRange): int {
    r.destinationStart + (v - r.sourceStart)
  }

  /** `convert` of part 1 as written: moved by the first range whose inclusive bounds
      hold v, unchanged when none does. */
  function ConvertAsWritten(v: int, ranges: seq<AlmanacRange>): int {
    var k := FirstCovering(v, ranges, CoversAsWritten);
    if k < |ranges| then Shift(v, ranges[k]) else v
  }

  /** `convert` with the upper bound exclusive: moved by the first range that holds v,
      unchanged when none does. */
  function Convert(v: int, ranges: seq<AlmanacRange>): int {
    var k := FirstCovering(v, ranges, Covers);
    if k < |ranges| then Shift(v, ranges[k]) else v
  }

  /** A value in some range lands in the destination values of the first range that
      holds it, at the same offset; a value in no range stays where it is. */
  lemma ConvertSpec(v: int, ranges: seq<AlmanacRange>)
    ensures forall k :: 0 <= k < |ranges| && Covers(v, ranges[k]) && (forall j :: 0 <= j < k ==> !Covers(v, ranges[j]))
                        ==> && Convert(v, ranges) - ranges[k].destinationStart == v - ranges[k].sourceStart
                            && ranges[k].destinationStart <= Convert(v, ranges) < ranges[k].destinationStart + ranges[k].range
    ensures (forall k :: 0 <= k < |ranges| ==> !Covers(v, ranges[k])) ==> Convert(v, ranges) == v
  {
    FirstCoveringSpec(v, ranges, Covers);
  }

  /** The inclusive bound of part 1 moves the value one past a range as if it were in
      it: with the single range "10 0 1" (only 0 moves, to 10), 1 becomes 11 instead of
      staying 1, landing outside the range's destination values. */
  lemma ConvertAsWrittenPastRange()
    ensures ConvertAsWritten(1, [AlmanacRange(0, 10, 1)]) == 11
    ensures Convert(1, [AlmanacRange(0, 10, 1)]) == 1
    ensures !Covers(1, AlmanacRange(0, 10, 1))
  {
  }

  /** The first seed of the example through the seed-to-soil map: 79 becomes 81. */
  lemma ConvertExample()
    ensures Convert(79, [AlmanacRange(98, 50, 2), AlmanacRange(50, 52, 48)]) == 81
    ensures Convert(13, [AlmanacRange(98, 50, 2), AlmanacRange(50, 52, 48)]) == 13
  {
  }

  // ---------------------------------------------------------------- the seven stages

  /** The source names of the seven maps, in the order `populate` uses them. */
  const Stages: seq<string> := ["seed", "soil", "fertilizer", "water", "light", "temperature", "humidity"]

  /** The panic messages of `populate`, one per stage. */
  const Part1Messages: seq<string> := [
    "Seed map not found", "Soil map not found", "Fertilizer map not found", "Water map not found",
    "Light map not found", "Temperature map not found", "Humidity map not found"]

  /** The message for the first stage whose map is missing, or None when all are there. */
  function MissingMap(maps: map<string, AlmanacMap>, messages: seq<string>): Option<string>
    requires |messages| == 7
  {
    if "seed" !in maps then Some(messages[0])
    else if "soil" !in maps then Some(messages[1])
    else if "fertilizer" !in maps then Some(messages[2])
    else if "water" !in maps then Some(messages[3])
    else if "light" !in maps then Some(messages[4])
    else if "temperature" !in maps then Some(messages[5])
    else if "humidity" !in maps then Some(messages[6])
    else None
  }

  /** Nothing is missing exactly when every stage has its map; otherwise the message is
      that of the first stage without one. */
  lemma MissingMapSpec(maps: map<string, AlmanacMap>, messages: seq<string>)
    requires |messages| == 7
    ensures MissingMap(maps, messages).None? <==> forall k :: 0 <= k < |Stages| ==> Stages[k] in maps
    ensures forall k :: 0 <= k < |Stages| && Stages[k] !in maps && (forall j :: 0 <= j < k ==> Stages[j] in maps)
                        ==> MissingMap(maps, messages) == Some(messages[k])
  {
    assert Stages[0] == "seed" && Stages[1] == "soil" && Stages[2] == "fertilizer" && Stages[3] == "water";
    assert Stages[4] == "light" && Stages[5] == "temperature" && Stages[6] == "humidity";
    forall k | 0 <= k < |Stages| && Stages[k] !in maps && (forall j :: 0 <= j < k ==> Stages[j] in maps)
      ensures MissingMap(maps, messages) == Some(messages[k])
    {
      if k > 0 { assert Stages[0] in maps; }
      if k > 1 { assert Stages[1] in maps; }
      if k > 2 { assert Stages[2] in maps; }
      if k > 3 { assert Stages[3] in maps; }
      if k > 4 { assert Stages[4] in maps; }
      if k > 5 { assert Stages[5] in maps; }
    }
  }

  /** The ranges of the seven maps, in stage order. */
  function StageRanges(maps: map<string, AlmanacMap>): (r: seq<seq<AlmanacRange>>)
    requires MissingMap(maps, Part1Messages).None?
    ensures |r| == 7
  {
    [maps["seed"].ranges, maps["soil"].ranges, maps["fertilizer"].ranges, maps["water"].ranges,
     maps["light"].ranges, maps["temperature"].ranges, maps["humidity"].ranges]
  }

  /** The successive values of v converted by each list of ranges in turn. */
  function Chain(v: int, stages: seq<seq<AlmanacRange>>): (r: seq<int>)
    ensures |r| == |stages|
    decreases |stages|
  {
    if stages == [] then [] else var w := Convert(v, stages[0]); [w] + Chain(w, stages[1..])
  }

  /** Each value of the chain is the previous one converted by the next stage. */
  lemma {:induction false} ChainSpec(v: int, stages: seq<seq<AlmanacRange>>)
    requires stages != []
    ensures Chain(v, stages)[0] == Convert(v, stages[0])
    ensures forall k :: 0 < k < |stages| ==> Chain(v, stages)[k] == Convert(Chain(v, stages)[k - 1], stages[k])
    decreases |stages|
  {
    if |stages| > 1 {
      ChainSpec(Convert(v, stages[0]), stages[1..]);
    }
  }

  /** A value sent through the seven maps. */
  function Location(maps: map<string, AlmanacMap>, seed: int): int
    requires MissingMap(maps, Part1Messages).None?
  {
    Chain(seed, StageRanges(maps))[6]
  }

  /** Seven conversions one after the other are the chain of the seven maps. */
  lemma ChainOfSeven(maps: map<string, AlmanacMap>, seed: int, soil: int, fertilizer: int, water: int,
                     light: int, temperature: int, humidity: int, location: int)
    requires MissingMap(maps, Part1Messages).None?
    requires soil == Convert(seed, maps["seed"].ranges)
    requires fertilizer == Convert(soil, maps["soil"].ranges)
    requires water == Convert(fertilizer, maps["fertilizer"].ranges)
    requires light == Convert(water, maps["water"].ranges)
    requires temperature == Convert(light, maps["light"].ranges)
    requires humidity == Convert(temperature, maps["temperature"].ranges)
    requires location == Convert(humidity, maps["humidity"].ranges)
    ensures [soil, fertilizer, water, light, temperature, humidity, location] == Chain(seed, StageRanges(maps))
  {
    var stages := StageRanges(maps);
    var chain := Chain(seed, stages);
    ChainSpec(seed, stages);
    assert chain[1] == fertilizer;
    assert chain[2] == water;
    assert chain[3] == light;
    assert chain[4] == temperature;
    assert chain[5] == humidity;
  }

  /** A `Seed` and the seven values `populate` fills in. */
  class Seed {
    var seed: int
    var soil: int
    var fertilizer: int
    var water: int
    var light: int
    var temperature: int
    var humidity: int
    var location: int

    /** `Seed { seed, ..Default::default() }`. */
    constructor (seed: int)
      ensures this.seed == seed && soil == 0 && fertilizer == 0 && water == 0 && light == 0
      ensures temperature == 0 && humidity == 0 && location == 0
    {
      this.seed := seed;
      soil, fertilizer, water, light, temperature, humidity, location := 0, 0, 0, 0, 0, 0, 0;
    }

    /** `populate`: each value is the previous one converted by the map named after the
        previous stage. A missing map is the panic's message, and the fields are then of
        no further use. */
    method Populate(maps: map<string, AlmanacMap>) returns (missing: Option<string>)
      modifies this
      ensures seed == old(seed)
      ensures missing == MissingMap(maps, Part1Messages)
      ensures missing.None? ==>
        [soil, fertilizer, water, light, temperature, humidity, location] == Chain(seed, StageRanges(maps))
    {
      if "seed" !in maps { return Some(Part1Messages[0]); }
      var soil' := Convert(seed, maps["seed"].ranges);
      if "soil" !in maps { return Some(Part1Messages[1]); }
      var fertilizer' := Convert(soil', maps["soil"].ranges);
      if "fertilizer" !in maps { return Some(Part1Messages[2]); }
      var water' := Convert(fertilizer', maps["fertilizer"].ranges);
      if "water" !in maps { return Some(Part1Messages[3]); }
      var light' := Convert(water', maps["water"].ranges);
      if "light" !in maps { return Some(Part1Messages[4]); }
      var temperature' := Convert(light', maps["light"].ranges);
      if "temperature" !in maps { return Some(Part1Messages[5]); }
      var humidity' := Convert(temperature', maps["temperature"].ranges);
      if "humidity" !in maps { return Some(Part1Messages[6]); }
      var location' := Convert(humidity', maps["humidity"].ranges);
      ChainOfSeven(maps, seed, soil', fertilizer', water', light', temperature', humidity', location');
      soil, fertilizer, water, light, temperature, humidity, location :=
        soil', fertilizer', water', light', temperature', humidity', location';
      missing := None;
    }
  }

  // ---------------------------------------------------------------- part 1

  function ClassifyPart1(line: string): Line<nat> {
    Classify(line, ParseSeeds)
  }

  /** The locations of the seeds, in order. */
  function Locations(maps: map<string, AlmanacMap>, seeds: seq<nat>): (r: seq<int>)
    requires MissingMap(maps, Part1Messages).None?
    ensures |r| == |seeds|
    decreases |seeds|
  {
    if seeds == [] then [] else Locations(maps, seeds[..|seeds| - 1]) + [Location(maps, seeds[|seeds| - 1])]
  }

  /** The end of `solve`: every seed is populated (a missing map panics there, if there
      is a seed), then the least location is taken (no seed panics there). */
  function LowestFrom(seeds: seq<nat>, maps: map<string, AlmanacMap>): Result<int> {
    var missing := MissingMap(maps, Part1Messages);
    if seeds != [] && missing.Some? then Err(missing.value)
    else if seeds == [] then Err("seed list is empty")
    else Ok(Minimum(Locations(maps, seeds)))
  }

  /** `solve` of part 1. */
  function LowestLocation(lines: seq<string>): Result<int> {
    var read := ReadAll(Classified(lines, ClassifyPart1));
    if read.Err? then Err(read.error) else LowestFrom(read.value.seeds, BySource(read.value.maps))
  }

  /** The lowest location is the location of one of the seeds and no seed has a lower
      one. */
  lemma LowestFromSpec(seeds: seq<nat>, maps: map<string, AlmanacMap>)
    requires LowestFrom(seeds, maps).Ok?
    ensures MissingMap(maps, Part1Messages).None?
    ensures exists i :: 0 <= i < |seeds| && LowestFrom(seeds, maps).value == Location(maps, seeds[i])
    ensures forall i :: 0 <= i < |seeds| ==> LowestFrom(seeds, maps).value <= Location(maps, seeds[i])
  {
    var locations := Locations(maps, seeds);
    MinimumSpec(locations);
    LocationsAt(maps, seeds);
    var i :| 0 <= i < |locations| && locations[i] == Minimum(locations);
    assert LowestFrom(seeds, maps).value == Location(maps, seeds[i]);
    forall j | 0 <= j < |seeds|
      ensures LowestFrom(seeds, maps).value <= Location(maps, seeds[j])
    {
      assert locations[j] in locations;
    }
  }

  lemma {:induction false} LocationsAt(maps: map<string, AlmanacMap>, seeds: seq<nat>)
    requires MissingMap(maps, Part1Messages).None?
    ensures forall i :: 0 <= i < |seeds| ==> Locations(maps, seeds)[i] == Location(maps, seeds[i])
    decreases |seeds|
  {
    if seeds != [] {
      LocationsAt(maps, seeds[..|seeds| - 1]);
    }
  }

  /** The seeds loop and the minimum at the end of `solve`: one `Seed` per value,
      populated and its location collected. */
  method LowestOfSeeds(seeds: seq<nat>, maps: map<string, AlmanacMap>) returns (r: Result<int>)
    ensures r == LowestFrom(seeds, maps)
  {
    var locations: seq<int> := [];
    for k := 0 to |seeds|
      invariant k > 0 ==> MissingMap(maps, Part1Messages).None?
      invariant k > 0 ==> locations == Locations(maps, seeds[..k])
      invariant k == 0 ==> locations == []
    {
      var s := new Seed(seeds[k]);
      var missing := s.Populate(maps);
      if missing.Some? {
        return Err(missing.value);
      }
      assert seeds[..k + 1][..k] == seeds[..k];
      locations := locations + [s.location];
    }
    if locations == [] {
      return Err("seed list is empty");
    }
    assert seeds[..|seeds|] == seeds;
    r := Ok(Minimum(locations));
  }

  /** `solve` of part 1. */
  method Part1(lines: seq<string>) returns (r: Result<int>)
    ensures r == LowestLocation(lines)
  {
    var read := ReadInput(lines, ClassifyPart1);
    if read.Err? {
      return Err(read.error);
    }
    r := LowestOfSeeds(read.value.seeds, BySource(read.value.maps));
  }
}
