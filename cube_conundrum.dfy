/** Cube games: each line "Game <id>: <draw>; <draw>; ..." lists draws of red,
    green and blue cubes. Part 1 sums the ids of the games possible with a bag of
    12 red, 13 green and 14 blue cubes; part 2 sums the powers of the smallest
    bags that make each game possible. */
module CubeConundrum {
  import opened Wrappers
  import opened Text

  const MaxRed := 12
  const MaxGreen := 13
  const MaxBlue := 14

  datatype Colour = Red | Green | Blue

  datatype CubeCount = CubeCount(red: nat, green: nat, blue: nat)

  function Word(c: Colour): string {
    match c
    case Red => "red"
    case Green => "green"
    case Blue => "blue"
  }

  predicate IsComma(c: char) { c == ',' }

  /** Drops the leading characters satisfying p (nom's `space0`, `many0(char(','))`). */
  function Skip(s: string, p: char -> bool): (r: string)
    ensures |r| <= |s| && r == s[SpanLength(s, p)..]
  {
    s[SpanLength(s, p)..]
  }

  /** `alt((tag("red"), tag("blue"), tag("green")))`: the colour word at the front. */
  function ParseWord(s: string): (r: Option<(Colour, string)>)
    ensures r.Some? ==> s == Word(r.value.0) + r.value.1
  {
    if StartsWith(s, "red") then Some((Red, s[3..]))
    else if StartsWith(s, "blue") then Some((Blue, s[4..]))
    else if StartsWith(s, "green") then Some((Green, s[5..]))
    else None
  }

  /** `parse_color` after the leading spaces and the digit run: at least one space,
      a colour word, then any number of commas. */
  function ParseColorTail(s: string): (r: Option<(Colour, string)>)
    ensures r.Some? ==> |r.value.1| < |s|
  {
    var gap := SpanLength(s, IsSpace);
    if gap == 0 then None
    else
      match ParseWord(s[gap..])
      case None => None
      case Some((c, rest)) => Some((c, Skip(rest, IsComma)))
  }

  /** `parse_color`: optional spaces, a (possibly empty) run of digits, at least one
      space, one of the words red/blue/green, then any number of commas. Yields the
      count (None when the digit run is empty: `CubeCount::new` cannot parse it), the
      colour and the remaining input. */
  function ParseColor(input: string): (r: Option<(Option<nat>, Colour, string)>)
    ensures r.Some? ==> |r.value.2| < |input|
  {
    var i1 := Skip(input, IsSpace);
    var number := LeadingDigits(i1);
    match ParseColorTail(i1[|number|..])
    case None => None
    case Some((c, rest)) => Some((if number == [] then None else Some(DecimalValue(number)), c, rest))
  }

  /** A mention as it is written in a draw: " <n> <colour>," */
  function Mention(number: string, c: Colour): string {
    " " + number + " " + Word(c) + ","
  }

  lemma {:induction false} SpanOfPrefix(s: string, t: string, p: char -> bool)
    requires forall i :: 0 <= i < |s| ==> p(s[i])
    requires t == [] || !p(t[0])
    ensures SpanLength(s + t, p) == |s|
    decreases |s|
  {
    if s != [] {
      assert (s + t)[1..] == s[1..] + t;
      SpanOfPrefix(s[1..], t, p);
    }
  }

  lemma ParseWordOf(c: Colour, rest: string)
    ensures ParseWord(Word(c) + rest) == Some((c, rest))
  {
    var s := Word(c) + rest;
    assert s[..|Word(c)|] == Word(c);
    match c
    case Red =>
    case Blue => assert s[..3] != "red" by { assert s[0] != 'r'; }
    case Green =>
      assert s[..3] != "red" by { assert s[0] != 'r'; }
      assert s[..4] != "blue" by { assert s[0] != 'b'; }
  }

  lemma ParseColorTailOf(c: Colour, rest: string)
    requires rest == [] || rest[0] != ','
    ensures ParseColorTail(" " + Word(c) + "," + rest) == Some((c, rest))
  {
    var t3 := Word(c) + ("," + rest);
    assert " " + Word(c) + "," + rest == " " + t3;
    SpanOfPrefix(" ", t3, IsSpace);
    assert (" " + t3)[1..] == t3;
    ParseWordOf(c, "," + rest);
    SpanOfPrefix(",", rest, IsComma);
    assert ("," + rest)[1..] == rest;
  }

  /** `ParseColor` reads back a written mention: for a non-empty digit run and any rest
      that does not start with a comma, parsing `Mention(n, c) + rest` yields n, c and
      rest. */
  lemma ParseColorRoundTrip(number: string, c: Colour, rest: string)
    requires AllDigits(number) && number != []
    requires rest == [] || rest[0] != ','
    ensures ParseColor(Mention(number, c) + rest) == Some((Some(DecimalValue(number)), c, rest))
  {
    var t2 := " " + Word(c) + "," + rest;
    var t1 := number + t2;
    assert Mention(number, c) + rest == " " + t1;
    SpanOfPrefix(" ", t1, IsSpace);
    assert Skip(" " + t1, IsSpace) == t1;
    SpanOfPrefix(number, t2, IsDigit);
    assert LeadingDigits(t1) == number;
    assert t1[|number|..] == t2;
    ParseColorTailOf(c, rest);
  }

  /** `many1(parse_color)`: every mention that parses, in order. */
  function ParseColors(input: string): (mentions: seq<(Option<nat>, Colour)>)
    decreases |input|
  {
    match ParseColor(input)
    case None => []
    case Some((number, c, rest)) => [(number, c)] + ParseColors(rest)
  }

  /** The count given by the last mention of colour c, if any. */
  function LastMention(mentions: seq<(Option<nat>, Colour)>, c: Colour): Option<Option<nat>>
    decreases |mentions|
  {
    if mentions == [] then None
    else if mentions[|mentions| - 1].1 == c then Some(mentions[|mentions| - 1].0)
    else LastMention(mentions[..|mentions| - 1], c)
  }

  function CountOf(mentions: seq<(Option<nat>, Colour)>, c: Colour): nat {
    match LastMention(mentions, c)
    case Some(Some(n)) => n
    case _ => 0
  }

  predicate Parses(mentions: seq<(Option<nat>, Colour)>) {
    forall k :: 0 <= k < |mentions| ==> mentions[k].0.Some?
  }

  /** `CubeCount::new`: start from zero cubes of every colour and set each mentioned
      colour to its count, so a later mention overrides an earlier one and an
      unmentioned colour stays 0. A count that does not parse panics, even when a later
      mention would override it. */
  method NewCubeCount(mentions: seq<(Option<nat>, Colour)>) returns (r: Result<CubeCount>)
    ensures r.Ok? <==> Parses(mentions)
    ensures r.Ok? ==> r.value == CubeCount(CountOf(mentions, Red), CountOf(mentions, Green), CountOf(mentions, Blue))
  {
    var cc := CubeCount(0, 0, 0);
    for i := 0 to |mentions|
      invariant Parses(mentions[..i])
      invariant cc == CubeCount(CountOf(mentions[..i], Red), CountOf(mentions[..i], Green), CountOf(mentions[..i], Blue))
    {
      var (count, c) := mentions[i];
      assert mentions[..i + 1][..i] == mentions[..i];
      if count.None? {
        assert !Parses(mentions);
        return Err("could not parse count");
      }
      match c
      case Red => cc := cc.(red := count.value);
      case Green => cc := cc.(green := count.value);
      case Blue => cc := cc.(blue := count.value);
    }
    assert mentions[..|mentions|] == mentions;
    r := Ok(cc);
  }

  /** A draw mentioning only red keeps green and blue at 0, and of two red mentions
      the second wins. */
  lemma LaterMentionWins(n1: nat, n2: nat)
    ensures CountOf([(Some(n1), Red), (Some(n2), Red)], Red) == n2
    ensures CountOf([(Some(n1), Red), (Some(n2), Red)], Green) == 0
    ensures CountOf([(Some(n1), Red), (Some(n2), Red)], Blue) == 0
  {
    var m := [(Some(n1), Red), (Some(n2), Red)];
    assert m[..1] == [(Some(n1), Red)];
    assert m[..1][..0] == [];
    assert LastMention(m, Green) == LastMention(m[..1], Green) == LastMention([], Green);
    assert LastMention(m, Blue) == LastMention(m[..1], Blue) == LastMention([], Blue);
  }

  /** `parse_game_id`: the literal "Game " followed by a (possibly empty) digit run. */
  function ParseGameId(input: string): (r: Option<string>)
    ensures r.Some? ==> StartsWith(input, "Game " + r.value)
  {
    if !StartsWith(input, "Game ") then None
    else
      var i := input[5..];
      assert input[..5 + |LeadingDigits(i)|] == "Game " + LeadingDigits(i);
      Some(LeadingDigits(i))
  }

  /** One game: its id and its draws, parsed as in `part1` and `part2`. */
  datatype Game = Game(id: nat, draws: seq<CubeCount>)

  /** Parses the draws of `cubes_part.split(';')` with `parse_cubes` and `CubeCount::new`. */
  function ParseDraws(pieces: seq<string>): (r: Result<seq<CubeCount>>)
    ensures r.Ok? ==> |r.value| == |pieces|
    decreases |pieces|
  {
    if pieces == [] then Ok([])
    else
      match ParseDraws(pieces[..|pieces| - 1])
      case Err(e) => Err(e)
      case Ok(draws) =>
        var mentions := ParseColors(pieces[|pieces| - 1]);
        if mentions == [] then Err("Could not parse cubes")
        else if !Parses(mentions) then Err("could not parse count")
        else Ok(draws + [CubeCount(CountOf(mentions, Red), CountOf(mentions, Green), CountOf(mentions, Blue))])
  }

  /** The draws of one line: the text between the first and (if any) the second ':'
      split at ';', as `part1` and `part2` read it. */
  function DrawsOf(line: string): Result<seq<CubeCount>> {
    var parts := Split(line, ':');
    if |parts| < 2 then Err("Could not find the cubes part") else ParseDraws(Split(parts[1], ';'))
  }

  /** One input line of `part1`: the id before the first ':' and the draws after it. */
  function ParseGame(line: string): Result<Game> {
    match ParseGameId(Split(line, ':')[0])
    case None => Err("Could not extract game ID")
    case Some(id) =>
      if id == [] then Err("Could not parse game ID")
      else
        match DrawsOf(line)
        case Err(e) => Err(e)
        case Ok(draws) => Ok(Game(DecimalValue(id), draws))
  }

  /** Whether a draw fits in the bag of 12 red, 13 green and 14 blue cubes. */
  predicate Fits(cc: CubeCount) {
    cc.red <= MaxRed && cc.green <= MaxGreen && cc.blue <= MaxBlue
  }

  predicate Possible(g: Game) {
    forall k :: 0 <= k < |g.draws| ==> Fits(g.draws[k])
  }

  /** The loop over the draws of one game in `part1`: `possible` starts true and is
      cleared by every count over its colour's limit. */
  method CheckPossible(g: Game) returns (possible: bool)
    ensures possible <==> Possible(g)
  {
    possible := true;
    for k := 0 to |g.draws|
      invariant possible <==> forall m :: 0 <= m < k ==> Fits(g.draws[m])
    {
      var cc := g.draws[k];
      if cc.red > MaxRed { possible := possible && false; }
      if cc.green > MaxGreen { possible := possible && false; }
      if cc.blue > MaxBlue { possible := possible && false; }
    }
  }

  /** What one line adds to the part-1 answer: the game's id if it is possible, else 0. */
  function PossibleId(line: string): Result<int> {
    match ParseGame(line)
    case Err(e) => Err(e)
    case Ok(g) => Ok(if Possible(g) then g.id else 0)
  }

  /** `part1`: the sum of the ids of the possible games, or the failure of the first
      line that does not parse. */
  method Part1(lines: seq<string>) returns (r: Result<int>)
    ensures r == SumAll(lines, PossibleId)
  {
    r := SumLines(lines, PossibleId);
  }

  // ---------------------------------------------------------------- part 2

  /** `get_power`. */
  function Power(cc: CubeCount): nat {
    cc.red * cc.green * cc.blue
  }

  predicate Within(a: CubeCount, b: CubeCount) {
    a.red <= b.red && a.green <= b.green && a.blue <= b.blue
  }

  function Max(a: nat, b: nat): nat { if a > b then a else b }

  /** The per-colour maximum over the draws, zero for no draws. */
  function MaxOf(draws: seq<CubeCount>): CubeCount
    decreases |draws|
  {
    if draws == [] then CubeCount(0, 0, 0)
    else
      var m := MaxOf(draws[..|draws| - 1]);
      var d := draws[|draws| - 1];
      CubeCount(Max(m.red, d.red), Max(m.green, d.green), Max(m.blue, d.blue))
  }

  /** Every draw fits in the per-colour maximum. */
  lemma {:induction false} MaxOfBounds(draws: seq<CubeCount>)
    ensures forall k :: 0 <= k < |draws| ==> Within(draws[k], MaxOf(draws))
    decreases |draws|
  {
    if draws != [] {
      var init := draws[..|draws| - 1];
      MaxOfBounds(init);
      assert forall k :: 0 <= k < |init| ==> draws[k] == init[k];
    }
  }

  /** Every bag in which all draws fit holds the per-colour maximum. */
  lemma {:induction false} MaxOfLeast(draws: seq<CubeCount>, bag: CubeCount)
    requires forall k :: 0 <= k < |draws| ==> Within(draws[k], bag)
    ensures Within(MaxOf(draws), bag)
    decreases |draws|
  {
    if draws != [] {
      var init := draws[..|draws| - 1];
      assert forall k :: 0 <= k < |init| ==> init[k] == draws[k];
      MaxOfLeast(init, bag);
      assert Within(draws[|draws| - 1], bag);
    }
  }

  /** The loop of `part2` over one game: `cc_max` starts at zero and each colour is
      raised to any larger count; every draw then fits in it. */
  method MaxCubes(draws: seq<CubeCount>) returns (cc_max: CubeCount)
    ensures cc_max == MaxOf(draws)
    ensures forall k :: 0 <= k < |draws| ==> Within(draws[k], cc_max)
  {
    cc_max := CubeCount(0, 0, 0);
    for i := 0 to |draws|
      invariant cc_max == MaxOf(draws[..i])
    {
      assert draws[..i + 1][..i] == draws[..i];
      var cc := draws[i];
      if cc.red > cc_max.red { cc_max := cc_max.(red := cc.red); }
      if cc.green > cc_max.green { cc_max := cc_max.(green := cc.green); }
      if cc.blue > cc_max.blue { cc_max := cc_max.(blue := cc.blue); }
    }
    assert draws[..|draws|] == draws;
    MaxOfBounds(draws);
  }

  lemma MulMonotone(a: nat, b: nat, c: nat, d: nat)
    requires a <= b && c <= d
    ensures a * c <= b * d
  {
    assert a * c <= b * c;
    assert b * c <= b * d;
  }

  /** The per-colour maximum is the smallest bag for the game, and it has the smallest
      power: any bag in which every draw fits has at least its power. */
  lemma MinimalBagHasLeastPower(draws: seq<CubeCount>, bag: CubeCount)
    requires forall k :: 0 <= k < |draws| ==> Within(draws[k], bag)
    ensures Within(MaxOf(draws), bag)
    ensures Power(MaxOf(draws)) <= Power(bag)
  {
    var m := MaxOf(draws);
    MaxOfLeast(draws, bag);
    MulMonotone(m.red, bag.red, m.green, bag.green);
    MulMonotone(m.red * m.green, bag.red * bag.green, m.blue, bag.blue);
  }

  /** What one line adds to the part-2 answer: the power of its smallest bag. */
  function LinePower(line: string): Result<int> {
    match DrawsOf(line)
    case Err(e) => Err(e)
    case Ok(draws) => Ok(Power(MaxOf(draws)))
  }

  /** `part2`: the sum of the powers of every game's smallest bag. Only the text after
      the first ':' is read; the id is not parsed. */
  method Part2(lines: seq<string>) returns (r: Result<int>)
    ensures r == SumAll(lines, LinePower)
  {
    r := SumLines(lines, LinePower);
  }
}
