/** Scratchcards: each line "Card <id>: <winning numbers> | <numbers you have>".
    Part 1 scores a card 2^(n-1) for n matching numbers (0 without a match) and sums
    the scores. Part 2 makes each card with n matches win one more copy of each of the
    next n cards, once per copy of itself, and counts all the cards. */
module Scratchcards {
  import opened Wrappers
  import opened Text

  // ---------------------------------------------------------------- parsing

  /** `parse_card_number`: "Card", at least one space, a digit run, optional spaces.
      Yields the id and the position after the spaces. */
  function ParseCardNumber(line: string): (r: Option<(nat, nat)>)
    ensures r.Some? ==> r.value.1 <= |line|
  {
    if !StartsWith(line, "Card") then None
    else
      var a := SpanEnd(line, 4, IsSpace);
      var number := if a == 4 then None else NumberAt(line, a);
      if number.None? then None
      else Some((number.value.0, SpanEnd(line, number.value.1, IsSpace)))
  }

  datatype Card = Card(id: nat, winning: seq<nat>, numbers: seq<nat>)

  /** The parser of `process_card`: the card number, ':', the winning numbers, '|', the
      numbers. Whatever follows the second list is ignored. */
  function ParseCard(line: string): Option<Card> {
    var head := ParseCardNumber(line);
    if head.None? then None else CardFrom(line, head.value.0, head.value.1)
  }

  /** The rest of `ParseCard` once card number id has been read up to position i. */
  function CardFrom(line: string, id: nat, i: nat): Option<Card> {
    if i >= |line| || line[i] != ':' then None
    else CardTail(line, id, SpacedNumbers(line, i + 1))
  }

  /** The rest of `ParseCard` once the winning numbers have been read up to position
      winning.1. */
  function CardTail(line: string, id: nat, winning: (seq<nat>, nat)): Option<Card> {
    if winning.1 >= |line| || line[winning.1] != '|' then None
    else Some(Card(id, winning.0, SpacedNumbers(line, winning.1 + 1).0))
  }

  /** A card written the way the puzzle input writes it, one space between items. */
  function CardLine(c: Card): string {
    "Card " + DecimalString(c.id) + ":" + Spaced(c.winning) + " |" + Spaced(c.numbers)
  }

  /** Where the pieces of `CardLine(c)` lie: the card number ends at i, where the ':'
      is, and the winning numbers end at j, where " |" starts. */
  lemma CardLinePieces(c: Card) returns (i: nat, j: nat)
    ensures i == 5 + |DecimalString(c.id)| && j == i + 1 + |Spaced(c.winning)|
    ensures j + 2 <= |CardLine(c)|
    ensures CardLine(c)[..4] == "Card" && CardLine(c)[4] == ' '
    ensures CardLine(c)[5..i] == DecimalString(c.id) && CardLine(c)[i] == ':'
    ensures CardLine(c)[i + 1..j] == Spaced(c.winning)
    ensures CardLine(c)[j] == ' ' && CardLine(c)[j + 1] == '|'
    ensures CardLine(c)[j + 2..] == Spaced(c.numbers)
  {
    i, j := LinePieces(DecimalString(c.id), Spaced(c.winning), Spaced(c.numbers));
  }

  /** The same, for any three pieces of text. */
  lemma LinePieces(d: string, w: string, n: string) returns (i: nat, j: nat)
    ensures i == 5 + |d| && j == i + 1 + |w|
    ensures var s := "Card " + d + ":" + w + " |" + n;
      && j + 2 <= |s| && s[..4] == "Card" && s[4] == ' ' && s[5..i] == d && s[i] == ':'
      && s[i + 1..j] == w && s[j] == ' ' && s[j + 1] == '|' && s[j + 2..] == n
  {
    i := 5 + |d|;
    j := i + 1 + |w|;
    var head := "Card " + d + ":";
    var body := head + w + " |";
    assert body[..i + 1] == head && body[i + 1..] == w + " |";
    assert head[..5] == "Card " && head[5..i] == d && head[i] == ':';
  }

  /** `parse_card_number` reads the card number and stops at the ':'. */
  lemma CardNumberAt(s: string, id: nat, i: nat)
    requires i == 5 + |DecimalString(id)| && i < |s|
    requires s[..4] == "Card" && s[4] == ' ' && s[5..i] == DecimalString(id) && s[i] == ':'
    ensures ParseCardNumber(s) == Some((id, i))
  {
    assert StartsWith(s, "Card");
    assert s[5] == DecimalString(id)[0];
    SpanEndAt(s, 4, 5, IsSpace);
    NumberAtOf(s, 5, id);
    SpanEndAt(s, i, i, IsSpace);
  }

  /** The winning numbers written from position i + 1 up to a space are read back;
      reading stops after that space when there are some, and at i + 1 otherwise. */
  lemma CardWinningAt(s: string, winning: seq<nat>, i: nat, j: nat)
    requires j == i + 1 + |Spaced(winning)| && j + 2 <= |s|
    requires s[i + 1..j] == Spaced(winning) && s[j] == ' ' && s[j + 1] == '|'
    ensures SpacedNumbers(s, i + 1).0 == winning
    ensures SpacedNumbers(s, i + 1).1 == if winning == [] then i + 1 else j + 1
  {
    SpanEndAt(s, j, j + 1, IsSpace);
    assert s[j..][..2] == " |";
    SpanEndShift(s, j, IsSpace);
    SpacedNumbersBefore(s, i + 1, winning, s[j..]);
  }

  /** The numbers written from position j are read back. */
  lemma CardNumbersAt(s: string, numbers: seq<nat>, j: nat)
    requires j <= |s| && s[j..] == Spaced(numbers)
    ensures SpacedNumbers(s, j).0 == numbers
  {
    SpanEndAt([], 0, 0, IsSpace);
    SpacedNumbersBefore(s, j, numbers, []);
  }

  /** A line laid out as "Card <id>:<winning> |<numbers>" parses to that card when it
      has winning numbers. */
  lemma ParseCardAt(s: string, c: Card, i: nat, j: nat)
    requires c.winning != []
    requires i == 5 + |DecimalString(c.id)| && j == i + 1 + |Spaced(c.winning)| && j + 2 <= |s|
    requires s[..4] == "Card" && s[4] == ' ' && s[5..i] == DecimalString(c.id) && s[i] == ':'
    requires s[i + 1..j] == Spaced(c.winning) && s[j] == ' ' && s[j + 1] == '|'
    requires s[j + 2..] == Spaced(c.numbers)
    ensures ParseCard(s) == Some(c)
  {
    CardNumberAt(s, c.id, i);
    CardWinningAt(s, c.winning, i, j);
    CardFromAt(s, c.id, i);
    CardTailAt(s, c, SpacedNumbers(s, i + 1), j + 1);
  }

  /** Once the winning numbers are read up to a '|', the numbers after it are read. */
  lemma CardTailAt(s: string, c: Card, winning: (seq<nat>, nat), k: nat)
    requires winning.0 == c.winning && winning.1 == k
    requires k < |s| && s[k] == '|' && s[k + 1..] == Spaced(c.numbers)
    ensures CardTail(s, c.id, winning) == Some(c)
  {
    CardNumbersAt(s, c.numbers, k + 1);
    CardTailOf(s, c, winning, k);
  }

  /** The winning numbers read up to a '|' at k and the numbers read after it make the
      card. */
  lemma CardTailOf(s: string, c: Card, winning: (seq<nat>, nat), k: nat)
    requires winning.0 == c.winning && winning.1 == k && k < |s| && s[k] == '|'
    requires SpacedNumbers(s, k + 1).0 == c.numbers
    ensures CardTail(s, c.id, winning) == Some(c)
  {
    var numbers := SpacedNumbers(s, k + 1).0;
    assert CardTail(s, c.id, winning) == Some(Card(c.id, winning.0, numbers));
    assert Card(c.id, winning.0, numbers) == c;
  }

  /** The same layout without winning numbers does not parse. */
  lemma ParseCardAtEmpty(s: string, c: Card, i: nat, j: nat)
    requires c.winning == []
    requires i == 5 + |DecimalString(c.id)| && j == i + 1 + |Spaced(c.winning)| && j + 2 <= |s|
    requires s[..4] == "Card" && s[4] == ' ' && s[5..i] == DecimalString(c.id) && s[i] == ':'
    requires s[i + 1..j] == Spaced(c.winning) && s[j] == ' ' && s[j + 1] == '|'
    ensures ParseCard(s) == None
  {
    CardNumberAt(s, c.id, i);
    CardWinningAt(s, c.winning, i, j);
    CardFromAt(s, c.id, i);
  }

  /** Once the card number is read up to a ':', the rest of the line is parsed. */
  lemma CardFromAt(s: string, id: nat, i: nat)
    requires ParseCardNumber(s) == Some((id, i)) && i < |s| && s[i] == ':'
    ensures ParseCard(s) == CardTail(s, id, SpacedNumbers(s, i + 1))
  {
  }

  /** Parsing a card line gives back the card, provided it has winning numbers. */
  lemma CardRoundTrip(c: Card)
    requires c.winning != []
    ensures ParseCard(CardLine(c)) == Some(c)
  {
    var i, j := CardLinePieces(c);
    ParseCardAt(CardLine(c), c, i, j);
  }

  /** A card line without winning numbers does not parse: the space before the '|' is
      left unread, so the '|' is not where `process_card` expects it, and the program
      panics. */
  lemma CardWithoutWinningNumbers(c: Card)
    requires c.winning == []
    ensures ParseCard(CardLine(c)) == None
  {
    var i, j := CardLinePieces(c);
    ParseCardAtEmpty(CardLine(c), c, i, j);
  }

  // ---------------------------------------------------------------- matching

  /** The filter and count of `process_card`: how many of the numbers occur among the
      winning numbers, each occurrence counted. */
  function Matches(winning: seq<nat>, numbers: seq<nat>): (n: nat)
    ensures n <= |numbers|
    decreases |numbers|
  {
    if numbers == [] then 0
    else Matches(winning, numbers[..|numbers| - 1]) + (if numbers[|numbers| - 1] in winning then 1 else 0)
  }

  /** The positions of the numbers that occur among the winning numbers. */
  function MatchingPositions(winning: seq<nat>, numbers: seq<nat>): set<nat> {
    set k: nat | k < |numbers| && numbers[k] in winning
  }

  /** The count is the number of positions whose number wins. */
  lemma {:induction false} MatchesCountsPositions(winning: seq<nat>, numbers: seq<nat>)
    ensures Matches(winning, numbers) == |MatchingPositions(winning, numbers)|
    decreases |numbers|
  {
    if numbers != [] {
      var init := numbers[..|numbers| - 1];
      var last := |numbers| - 1;
      MatchesCountsPositions(winning, init);
      var before := MatchingPositions(winning, init);
      if numbers[last] in winning {
        assert MatchingPositions(winning, numbers) == before + {last};
      } else {
        assert MatchingPositions(winning, numbers) == before;
      }
    }
  }

  function Pow2(n: nat): (p: nat)
    ensures p >= 1
  {
    if n == 0 then 1 else 2 * Pow2(n - 1)
  }

  /** The score of `process_card` in part 1. */
  function CardScore(c: Card): nat {
    var n := Matches(c.winning, c.numbers);
    if n > 0 then Pow2(n - 1) else 0
  }

  /** A card without a match scores nothing; one match scores 1; every further match
      doubles the score. */
  lemma CardScoreDoubles(c: Card, x: nat)
    requires x in c.winning
    ensures Matches(c.winning, c.numbers) == 0 ==> CardScore(c.(numbers := c.numbers + [x])) == 1
    ensures Matches(c.winning, c.numbers) > 0 ==> CardScore(c.(numbers := c.numbers + [x])) == 2 * CardScore(c)
  {
    var more := c.numbers + [x];
    assert more[..|more| - 1] == c.numbers;
  }

  /** `process_card` of part 1 on a line: the score, or the parse failure. */
  function Score(line: string): Result<int> {
    match ParseCard(line)
    case None => Err("Could not parse card")
    case Some(c) => Ok(CardScore(c))
  }

  /** `solve` of part 1: the sum of the scores. */
  method Part1(lines: seq<string>) returns (r: Result<int>)
    ensures r == SumAll(lines, Score)
  {
    r := SumLines(lines, Score);
  }

  // ------------------------------------------------------------------ part 2

  /** `process_card` of part 2 on a line: the number of matches. */
  function Wins(line: string): Result<nat> {
    match ParseCard(line)
    case None => Err("Could not parse card")
    case Some(c) => Ok(Matches(c.winning, c.numbers))
  }

  /** a with v added to the entries at positions lo up to hi - 1. */
  function AddRange(a: seq<nat>, lo: nat, hi: nat, v: nat): (b: seq<nat>)
    ensures |b| == |a|
  {
    seq(|a|, k requires 0 <= k < |a| => if lo <= k < hi then a[k] + v else a[k])
  }

  /** `card_amount` once the first k cards have been processed, or the panic that
      stopped `solve` first: a line that does not parse, or wins reaching past the last
      card (the slice `card + 1..card + n + 1` out of range). */
  function AmountsAfter<T>(cards: seq<T>, wins: T -> Result<nat>, k: nat): (r: Result<seq<nat>>)
    requires k <= |cards|
    ensures r.Ok? ==> |r.value| == |cards|
  {
    if k == 0 then Ok(seq(|cards|, _ => 1))
    else
      match AmountsAfter(cards, wins, k - 1)
      case Err(e) => Err(e)
      case Ok(a) =>
        match wins(cards[k - 1])
        case Err(e) => Err(e)
        case Ok(n) =>
          if n == 0 then Ok(a)
          else if k + n > |cards| then Err("range end index out of range for slice")
          else Ok(AddRange(a, k, k + n, a[k - 1]))
  }

  /** The answer of part 2: the sum of the amounts after the last card. */
  function TotalCards<T>(cards: seq<T>, wins: T -> Result<nat>): Result<int> {
    match AmountsAfter(cards, wins, |cards|)
    case Err(e) => Err(e)
    case Ok(a) => Ok(Sum(a))
  }

  /** The inner loop of `solve` in part 2: v added to each entry of the slice lo..hi. */
  method AddToRange(a: array<nat>, lo: nat, hi: nat, v: nat)
    requires lo <= hi <= a.Length
    modifies a
    ensures a[..] == AddRange(old(a[..]), lo, hi, v)
  {
    for c := lo to hi
      invariant a[..] == AddRange(old(a[..]), lo, c, v)
    {
      a[c] := a[c] + v;
    }
  }

  /** `card_amount.iter().sum()`. */
  method SumArray(a: array<nat>) returns (total: int)
    ensures total == Sum(a[..])
  {
    total := 0;
    for i := 0 to a.Length
      invariant total == Sum(a[..i])
    {
      assert a[..i + 1][..i] == a[..i];
      total := total + a[i];
    }
    assert a[..a.Length] == a[..];
  }

  /** One step of `AmountsAfter`, once the amounts after k cards are known. */
  lemma AmountsAfterStep<T>(cards: seq<T>, wins: T -> Result<nat>, k: nat)
    requires k < |cards| && AmountsAfter(cards, wins, k).Ok?
    ensures wins(cards[k]).Err? ==> AmountsAfter(cards, wins, k + 1) == Err(wins(cards[k]).error)
    ensures wins(cards[k]) == Ok(0) ==> AmountsAfter(cards, wins, k + 1) == AmountsAfter(cards, wins, k)
    ensures var n := wins(cards[k]);
            n.Ok? && n.value > 0 && k + 1 + n.value > |cards| ==> AmountsAfter(cards, wins, k + 1).Err?
    ensures var n, a := wins(cards[k]), AmountsAfter(cards, wins, k).value;
            n.Ok? && n.value > 0 && k + 1 + n.value <= |cards| ==>
              AmountsAfter(cards, wins, k + 1) == Ok(AddRange(a, k + 1, k + 1 + n.value, a[k]))
  {
  }

  /** `solve` of part 2: `card_amount` starts at one copy of every card; processing card
      i adds its amount to each of the next n cards, in place. */
  method CountCards<T>(cards: seq<T>, wins: T -> Result<nat>) returns (r: Result<int>)
    ensures r == TotalCards(cards, wins)
  {
    var card_amount := new nat[|cards|](_ => 1);
    for card := 0 to |cards|
      invariant AmountsAfter(cards, wins, card).Ok?
      invariant card_amount[..] == AmountsAfter(cards, wins, card).value
    {
      AmountsAfterStep(cards, wins, card);
      var n := wins(cards[card]);
      if n.Err? {
        AmountsStayFailed(cards, wins, card + 1, |cards|);
        return Err(n.error);
      }
      var current_card_amount := card_amount[card];
      if n.value > 0 {
        if card + n.value + 1 > |cards| {
          AmountsStayFailed(cards, wins, card + 1, |cards|);
          return Err("range end index out of range for slice");
        }
        AddToRange(card_amount, card + 1, card + n.value + 1, current_card_amount);
      }
    }
    var total := SumArray(card_amount);
    r := Ok(total);
  }

  /** Once `solve` has panicked it stays panicked. */
  lemma {:induction false} AmountsStayFailed<T>(cards: seq<T>, wins: T -> Result<nat>, k: nat, m: nat)
    requires k <= m <= |cards| && AmountsAfter(cards, wins, k).Err?
    ensures AmountsAfter(cards, wins, m) == AmountsAfter(cards, wins, k)
    decreases m - k
  {
    if k < m {
      AmountsStayFailed(cards, wins, k, m - 1);
    }
  }

  /** Every card is held at least once at every stage. */
  lemma {:induction false} AmountsPositive<T>(cards: seq<T>, wins: T -> Result<nat>, k: nat, j: nat)
    requires k <= |cards| && AmountsAfter(cards, wins, k).Ok? && j < |cards|
    ensures AmountsAfter(cards, wins, k).value[j] >= 1
    decreases k
  {
    if k > 0 {
      AmountsPositive(cards, wins, k - 1, j);
    }
  }

  /** Processing card k leaves the amounts of cards 0..k unchanged, adds the amount of
      card k to exactly the next n cards (n its number of matches), and lowers nothing. */
  lemma AmountsStep<T>(cards: seq<T>, wins: T -> Result<nat>, k: nat)
    requires k < |cards| && AmountsAfter(cards, wins, k + 1).Ok?
    ensures AmountsAfter(cards, wins, k).Ok? && wins(cards[k]).Ok?
    ensures var a, b, n := AmountsAfter(cards, wins, k).value, AmountsAfter(cards, wins, k + 1).value, wins(cards[k]).value;
            && k + n < |cards|
            && (forall j :: 0 <= j <= k ==> b[j] == a[j])
            && (forall j :: k < j <= k + n ==> b[j] == a[j] + a[k])
            && (forall j :: k + n < j < |cards| ==> b[j] == a[j])
            && (forall j :: 0 <= j < |cards| ==> a[j] <= b[j])
  {
  }

  /** After k cards the amounts of cards 0..k-1 are final: later cards only add to
      cards after themselves. */
  lemma {:induction false} AmountsSettled<T>(cards: seq<T>, wins: T -> Result<nat>, k: nat, m: nat, j: nat)
    requires j < k <= m <= |cards| && AmountsAfter(cards, wins, m).Ok?
    ensures AmountsAfter(cards, wins, k).Ok?
    ensures AmountsAfter(cards, wins, m).value[j] == AmountsAfter(cards, wins, k).value[j]
    decreases m - k
  {
    if k < m {
      AmountsStep(cards, wins, m - 1);
      AmountsSettled(cards, wins, k, m - 1, j);
    } else {
      assert k == m;
    }
  }

  // ------------------------------------------------------ reference definition

  /** The number of copies of card j as the puzzle defines it: the original, plus one
      copy for every copy of each earlier card i whose wins reach card j
      (i < j <= i + wins[i]). */
  function Copies(wins: seq<nat>, j: nat): nat
    decreases j, 1
  {
    1 + WonFrom(wins, j, j)
  }

  /** The copies of card j won by the cards before card i. */
  function WonFrom(wins: seq<nat>, j: nat, i: nat): nat
    requires i <= j
    decreases j, 0, i
  {
    if i == 0 then 0
    else WonFrom(wins, j, i - 1) + (if i - 1 < |wins| && j <= i - 1 + wins[i - 1] then Copies(wins, i - 1) else 0)
  }

  function Min(a: nat, b: nat): nat { if a < b then a else b }

  /** After the first k cards, card j holds its original plus what the cards before
      min(j, k) have won for it. */
  lemma {:induction false} AmountsAfterCopies<T>(cards: seq<T>, wins: T -> Result<nat>, counts: seq<nat>, k: nat, j: nat)
    requires |counts| == |cards| && forall i :: 0 <= i < |cards| ==> wins(cards[i]) == Ok(counts[i])
    requires k <= |cards| && j < |cards| && AmountsAfter(cards, wins, k).Ok?
    ensures AmountsAfter(cards, wins, k).value[j] == 1 + WonFrom(counts, j, Min(j, k))
    decreases k
  {
    if k > 0 {
      AmountsStep(cards, wins, k - 1);
      AmountsAfterCopies(cards, wins, counts, k - 1, j);
      if k - 1 < j {
        AmountsAfterCopies(cards, wins, counts, k - 1, k - 1);
      }
    }
  }

  /** `solve` of part 2 computes the number of copies the puzzle defines: when it does
      not panic, the final amount of every card is its number of copies. */
  lemma AmountsAreCopies<T>(cards: seq<T>, wins: T -> Result<nat>, counts: seq<nat>, j: nat)
    requires |counts| == |cards| && forall i :: 0 <= i < |cards| ==> wins(cards[i]) == Ok(counts[i])
    requires j < |cards| && AmountsAfter(cards, wins, |cards|).Ok?
    ensures AmountsAfter(cards, wins, |cards|).value[j] == Copies(counts, j)
  {
    AmountsAfterCopies(cards, wins, counts, |cards|, j);
  }

  /** `solve` of part 2 on the puzzle input. */
  method Part2(lines: seq<string>) returns (r: Result<int>)
    ensures r == TotalCards(lines, Wins)
  {
    r := CountCards(lines, Wins);
  }
}
