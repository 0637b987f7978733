/** Camel Cards, part 1: every line is a hand of cards and a bid. Hands are classified
    by how many kinds of card they hold and how often the commonest one appears, ranked
    weakest first (type, then the cards from the left), and each bid is multiplied by
    its hand's rank. */
module CamelCards {
  import opened Wrappers
  import opened Text
  import opened Sorting

  datatype HandType = Five | Four | Full | Three | TwoPairs | OnePair | HighCard

  /** `std::cmp::Ordering`. */
  datatype Ordering = Less | Equal | Greater

  function Flip(o: Ordering): Ordering {
    match o
    case Less => Greater
    case Equal => Equal
    case Greater => Less
  }

  /** `Ord::cmp` on integers. */
  function CompareInts(a: int, b: int): Ordering {
    if a < b then Less else if a == b then Equal else Greater
  }

  // ---------------------------------------------------------------- `from_value`

  /** The kinds of card in the hand: the keys of the counting map. */
  function Distinct(value: string): set<char> {
    set c | c in value
  }

  /** The largest count among the cards at positions before n. */
  function MostCommon(value: string, n: nat): nat
    requires n <= |value|
    decreases n
  {
    if n == 0 then 0
    else
      var m := MostCommon(value, n - 1);
      var here := multiset(value)[value[n - 1]];
      if here > m then here else m
  }

  /** How often the commonest card appears: the first of the sorted, reversed counts. */
  function MaxCount(value: string): nat {
    MostCommon(value, |value|)
  }

  /** The `match counts.len()` of `from_value`, given the number of kinds of card and the
      largest count. */
  function Classify(distinct: nat, most: nat): Option<HandType> {
    if distinct == 5 then Some(HighCard)
    else if distinct == 1 then Some(Five)
    else if distinct == 4 then Some(OnePair)
    else if distinct == 2 then
      (if most == 4 then Some(Four) else if most == 3 then Some(Full) else None)
    else if distinct == 3 then
      (if most == 3 then Some(Three) else if most == 2 then Some(TwoPairs) else None)
    else None
  }

  /** `HandType::from_value`. */
  function TypeOf(value: string): Option<HandType> {
    Classify(|Distinct(value)|, MaxCount(value))
  }

  lemma {:induction false} MostCommonSpec(value: string, n: nat)
    requires n <= |value|
    ensures forall i :: 0 <= i < n ==> multiset(value)[value[i]] <= MostCommon(value, n)
    ensures n > 0 ==> exists i :: 0 <= i < n && multiset(value)[value[i]] == MostCommon(value, n)
    decreases n
  {
    if n > 0 {
      MostCommonSpec(value, n - 1);
    }
  }

  /** MaxCount is the count of some card of the hand and no card is more frequent. */
  lemma MaxCountSpec(value: string)
    ensures forall c :: c in value ==> multiset(value)[c] <= MaxCount(value)
    ensures value != [] ==> exists c :: c in value && multiset(value)[c] == MaxCount(value)
  {
    MostCommonSpec(value, |value|);
    forall c | c in value
      ensures multiset(value)[c] <= MaxCount(value)
    {
      var i :| 0 <= i < |value| && value[i] == c;
    }
    if value != [] {
      var i :| 0 <= i < |value| && multiset(value)[value[i]] == MaxCount(value);
      assert value[i] in value;
    }
  }

  /** The first of the counts sorted and reversed is the largest. */
  lemma FirstOfDescending(counts: seq<int>, m: int)
    requires m in counts && forall j :: 0 <= j < |counts| ==> counts[j] <= m
    ensures |Reversed(SortBy(counts, IntLe))| == |counts|
    ensures Reversed(SortBy(counts, IntLe))[0] == m
  {
    var sorted := SortBy(counts, IntLe);
    SortByPermutes(counts, IntLe);
    IntLeTotal();
    SortBySorted(counts, IntLe);
    var last := sorted[|sorted| - 1];
    assert last in multiset(counts);
    assert m in multiset(sorted);
    var i :| 0 <= i < |sorted| && sorted[i] == m;
    if i < |sorted| - 1 {
      assert IntLe(sorted[i], last);
    }
  }

  /** `Vec::reverse`. */
  function Reversed(s: seq<int>): (r: seq<int>)
    ensures |r| == |s| && forall i :: 0 <= i < |s| ==> r[i] == s[|s| - 1 - i]
  {
    seq(|s|, i requires 0 <= i < |s| => s[|s| - 1 - i])
  }

  /** `HandType::from_value`: the cards are counted in a map, the counts are sorted in
      decreasing order, and the number of counts and the first of them pick the type. */
  method FromValue(value: string) returns (t: Option<HandType>)
    ensures t == TypeOf(value)
  {
    var tally: map<char, nat> := map[];
    for i := 0 to |value|
      invariant forall c :: c in tally <==> c in value[..i]
      invariant forall c :: c in tally ==> tally[c] == multiset(value[..i])[c]
    {
      assert value[..i + 1] == value[..i] + [value[i]];
      var c := value[i];
      if c in tally {
        tally := tally[c := tally[c] + 1];
      } else {
        tally := tally[c := 1];
      }
    }
    assert value[..|value|] == value;
    assert tally.Keys == Distinct(value);
    MaxCountSpec(value);
    var counts: seq<int> := [];
    var rest := tally.Keys;
    while rest != {}
      invariant rest <= tally.Keys
      invariant |counts| + |rest| == |tally.Keys|
      invariant forall j :: 0 <= j < |counts| ==> counts[j] <= MaxCount(value)
      invariant forall c :: c in tally.Keys - rest ==> tally[c] in counts
      decreases |rest|
    {
      var c :| c in rest;
      counts := counts + [tally[c]];
      rest := rest - {c};
    }
    if value != [] {
      var c :| c in value && multiset(value)[c] == MaxCount(value);
      assert tally[c] in counts;
      FirstOfDescending(counts, MaxCount(value));
    }
    counts := Reversed(SortBy(counts, IntLe));
    if |counts| == 5 {
      t := Some(HighCard);
    } else if |counts| == 1 {
      t := Some(Five);
    } else if |counts| == 4 {
      t := Some(OnePair);
    } else if |counts| == 2 {
      var first := counts[0];
      t := if first == 4 then Some(Four) else if first == 3 then Some(Full) else None;
    } else if |counts| == 3 {
      var first := counts[0];
      t := if first == 3 then Some(Three) else if first == 2 then Some(TwoPairs) else None;
    } else {
      t := None;
    }
  }

  /** The hand with every copy of card c taken out. */
  function Without(value: string, c: char): (r: string)
    ensures |r| + multiset(value)[c] == |value|
    ensures multiset(r)[c] == 0 && forall d :: d != c ==> multiset(r)[d] == multiset(value)[d]
    decreases |value|
  {
    if value == [] then []
    else
      var init, last := value[..|value| - 1], value[|value| - 1];
      assert value == init + [last];
      Without(init, c) + (if last == c then [] else [last])
  }

  lemma WithoutDistinct(value: string, c: char)
    ensures Distinct(Without(value, c)) == Distinct(value) - {c}
  {
    var w := Without(value, c);
    forall d
      ensures d in Distinct(w) <==> d in Distinct(value) - {c}
    {
      assert d in w <==> multiset(w)[d] > 0;
      assert d in value <==> multiset(value)[d] > 0;
    }
  }

  /** A hand holds no more kinds of card than cards. */
  lemma {:induction false} DistinctAtMostLength(value: string)
    ensures |Distinct(value)| <= |value|
    decreases |value|
  {
    if value != [] {
      var init := value[..|value| - 1];
      DistinctAtMostLength(init);
      assert Distinct(value) == Distinct(init) + {value[|value| - 1]};
    }
  }

  /** Taking a card out of the hand does not raise the largest count. */
  lemma MaxCountWithout(value: string, c: char)
    ensures MaxCount(Without(value, c)) <= MaxCount(value)
  {
    var w := Without(value, c);
    MaxCountSpec(value);
    MaxCountSpec(w);
    if w != [] {
      var d :| d in w && multiset(w)[d] == MaxCount(w);
      assert d in value by {
        assert multiset(value)[d] == multiset(w)[d] > 0;
      }
    }
  }

  /** Every kind of card appears at most MaxCount times: |value| <= kinds * MaxCount. */
  lemma {:induction false} Pigeonhole(value: string)
    ensures |value| <= |Distinct(value)| * MaxCount(value)
    decreases |value|
  {
    if value != [] {
      var c := value[0];
      var w := Without(value, c);
      Pigeonhole(w);
      WithoutDistinct(value, c);
      MaxCountWithout(value, c);
      MaxCountSpec(value);
      assert c in Distinct(value) && c in value;
      assert |Distinct(w)| + 1 == |Distinct(value)|;
      PigeonholeStep(|value|, multiset(value)[c], |w|, |Distinct(w)|, |Distinct(value)|, MaxCount(w), MaxCount(value));
    }
  }

  lemma PigeonholeStep(n: nat, here: nat, rest: nat, k: nat, kinds: nat, mostRest: nat, most: nat)
    requires n == here + rest && here <= most && rest <= k * mostRest && mostRest <= most
    requires kinds == k + 1
    ensures n <= kinds * most
  {
    assert k * mostRest <= k * most by {
      MultiplyMonotone(k, mostRest, most);
    }
    assert (k + 1) * most == k * most + most;
  }

  lemma MultiplyMonotone(k: nat, a: nat, b: nat)
    requires a <= b
    ensures k * a <= k * b
  {
  }

  /** Apart from the commonest card, each other kind takes at least one card. */
  lemma Spread(value: string)
    requires value != []
    ensures MaxCount(value) + |Distinct(value)| - 1 <= |value|
  {
    MaxCountSpec(value);
    var c :| c in value && multiset(value)[c] == MaxCount(value);
    var w := Without(value, c);
    WithoutDistinct(value, c);
    DistinctAtMostLength(w);
  }

  /** Every five-card hand gets a type: `Hand::new` never panics on one. */
  lemma FiveCardsClassified(value: string)
    requires |value| == 5
    ensures TypeOf(value).Some?
  {
    var d, m := |Distinct(value)|, MaxCount(value);
    Pigeonhole(value);
    Spread(value);
    DistinctAtMostLength(value);
    assert value[0] in Distinct(value);
    if d == 2 {
      assert 5 <= 2 * m;
    } else if d == 3 {
      assert 5 <= 3 * m;
    }
  }

  // ---------------------------------------------------------------- `Ord for HandType`

  /** `HandType::cmp`, the comparison table as written. */
  function CompareTypes(a: HandType, b: HandType): Ordering {
    match a
    case Five =>
      (match b
       case Five => Equal
       case _ => Greater)
    case Four =>
      (match b
       case Five => Less
       case Four => Equal
       case _ => Greater)
    case Full =>
      (match b
       case Five => Less
       case Four => Less
       case Full => Equal
       case _ => Greater)
    case Three =>
      (match b
       case Five => Less
       case Four => Less
       case Full => Less
       case Three => Equal
       case _ => Greater)
    case TwoPairs =>
      (match b
       case OnePair => Greater
       case HighCard => Greater
       case TwoPairs => Equal
       case _ => Less)
    case OnePair =>
      (match b
       case HighCard => Greater
       case OnePair => Equal
       case _ => Less)
    case HighCard =>
      (match b
       case HighCard => Equal
       case _ => Less)
  }

  /** The rank of a type: Five > Four > Full > Three > TwoPairs > OnePair > HighCard. */
  function Strength(t: HandType): nat {
    match t
    case Five => 6
    case Four => 5
    case Full => 4
    case Three => 3
    case TwoPairs => 2
    case OnePair => 1
    case HighCard => 0
  }

  /** The table compares the ranks: a total order, Equal only on the same type. */
  lemma CompareTypesByStrength(a: HandType, b: HandType)
    ensures CompareTypes(a, b) == CompareInts(Strength(a), Strength(b))
    ensures Strength(a) == Strength(b) <==> a == b
  {
  }

  // ---------------------------------------------------------------- `Ord for Hand`

  /** The value of a card: A, K, Q, J, T, then the digits by value; anything else
      (which no comparison below gives an order for) sits below them all. */
  function CardValue(c: char): int {
    if c == 'A' then 14
    else if c == 'K' then 13
    else if c == 'Q' then 12
    else if c == 'J' then 11
    else if c == 'T' then 10
    else if IsDigit(c) then DigitValue(c)
    else -1
  }

  /** A card of the deck: a face card, a ten or a decimal digit. */
  predicate IsCard(c: char) {
    c == 'A' || c == 'K' || c == 'Q' || c == 'J' || c == 'T' || IsDigit(c)
  }

  /** One turn of the card loop of `Hand::cmp`: Ok(Equal) is `continue`, and a
      numbered card met by something that is not a digit is the panic. */
  function CompareCards(a: char, b: char): Result<Ordering> {
    if a == 'A' then Ok(if b == 'A' then Equal else Greater)
    else if a == 'K' then Ok(if b == 'A' then Less else if b == 'K' then Equal else Greater)
    else if a == 'Q' then
      Ok(if b == 'A' || b == 'K' then Less else if b == 'Q' then Equal else Greater)
    else if a == 'J' then
      Ok(if b == 'A' || b == 'K' || b == 'Q' then Less else if b == 'J' then Equal else Greater)
    else if a == 'T' then
      Ok(if b == 'A' || b == 'K' || b == 'Q' || b == 'J' then Less
         else if b == 'T' then Equal else Greater)
    else if IsDigit(b) then
      (if IsDigit(a) then Ok(CompareInts(DigitValue(a), DigitValue(b)))
       else Err("Expected a numbered card"))
    else Ok(Less)
  }

  /** Between deck cards the loop compares card values; it panics exactly when the card
      on the left is not of the deck and the one on the right is a digit. */
  lemma CompareCardsByValue(a: char, b: char)
    ensures IsCard(a) && IsCard(b) ==> CompareCards(a, b) == Ok(CompareInts(CardValue(a), CardValue(b)))
    ensures CompareCards(a, b).Err? <==> !IsCard(a) && IsDigit(b)
  {
  }

  /** The zipped card loop: the first pair that is not Equal decides; running out of
      either hand is Equal. */
  function CompareCardSeqs(xs: string, ys: string): Result<Ordering>
    decreases |xs|
  {
    if xs == [] || ys == [] then Ok(Equal)
    else
      match CompareCards(xs[0], ys[0])
      case Err(e) => Err(e)
      case Ok(o) => if o == Equal then CompareCardSeqs(xs[1..], ys[1..]) else Ok(o)
  }

  datatype Hand = Hand(value: string, bid: nat, handType: HandType)

  /** `Hand::cmp`: the types first, then the cards. */
  function CompareHands(h: Hand, other: Hand): Result<Ordering> {
    var t := CompareTypes(h.handType, other.handType);
    if t == Equal then CompareCardSeqs(h.value, other.value) else Ok(t)
  }

  /** `Hand::cmp` as written: a loop over the zipped cards with early returns. */
  method Cmp(h: Hand, other: Hand) returns (r: Result<Ordering>)
    ensures r == CompareHands(h, other)
  {
    var t := CompareTypes(h.handType, other.handType);
    if t != Equal {
      return Ok(t);
    }
    var xs, ys := h.value, other.value;
    var n := if |xs| < |ys| then |xs| else |ys|;
    var i := 0;
    assert xs[0..] == xs && ys[0..] == ys;
    while i < n
      invariant i <= n
      invariant CompareCardSeqs(xs, ys) == CompareCardSeqs(xs[i..], ys[i..])
    {
      assert xs[i..][1..] == xs[i + 1..] && ys[i..][1..] == ys[i + 1..];
      var c := CompareCards(xs[i], ys[i]);
      if c.Err? {
        return Err(c.error);
      }
      if c.value != Equal {
        return Ok(c.value);
      }
      i := i + 1;
    }
    r := Ok(Equal);
  }

  /** A hand as the puzzle deals it: five cards of the deck. */
  predicate Dealt(h: Hand) {
    |h.value| == 5 && forall i :: 0 <= i < 5 ==> IsCard(h.value[i])
  }

  /** The values of the cards, in order. */
  function CardValues(value: string): (r: seq<int>)
    ensures |r| == |value| && forall i :: 0 <= i < |value| ==> r[i] == CardValue(value[i])
  {
    seq(|value|, i requires 0 <= i < |value| => CardValue(value[i]))
  }

  /** What a hand is ranked by: its type's strength, then its card values. */
  function HandKey(h: Hand): (k: seq<int>)
    ensures |k| == |h.value| + 1
  {
    [Strength(h.handType)] + CardValues(h.value)
  }

  /** The zipped comparison of two sequences: the first difference decides; running
      out of either is Equal. */
  function CompareLex(xs: seq<int>, ys: seq<int>): Ordering
    decreases |xs|
  {
    if xs == [] || ys == [] then Equal
    else if xs[0] != ys[0] then CompareInts(xs[0], ys[0])
    else CompareLex(xs[1..], ys[1..])
  }

  lemma {:induction false} CompareCardSeqsByValue(xs: string, ys: string)
    requires forall i :: 0 <= i < |xs| ==> IsCard(xs[i])
    requires forall i :: 0 <= i < |ys| ==> IsCard(ys[i])
    ensures CompareCardSeqs(xs, ys) == Ok(CompareLex(CardValues(xs), CardValues(ys)))
    decreases |xs|
  {
    if xs != [] && ys != [] {
      CompareCardsByValue(xs[0], ys[0]);
      CompareCardSeqsByValue(xs[1..], ys[1..]);
      assert CardValues(xs)[1..] == CardValues(xs[1..]);
      assert CardValues(ys)[1..] == CardValues(ys[1..]);
    }
  }

  /** Different deck cards have different values. */
  lemma CardValueInjective(a: char, b: char)
    requires IsCard(a) && IsCard(b) && CardValue(a) == CardValue(b)
    ensures a == b
  {
  }

  /** On dealt hands `Hand::cmp` never panics: it compares the keys. */
  lemma CompareHandsByKey(h: Hand, other: Hand)
    requires Dealt(h) && Dealt(other)
    ensures CompareHands(h, other) == Ok(CompareLex(HandKey(h), HandKey(other)))
  {
    CompareTypesByStrength(h.handType, other.handType);
    CompareCardSeqsByValue(h.value, other.value);
    assert HandKey(h)[1..] == CardValues(h.value);
    assert HandKey(other)[1..] == CardValues(other.value);
  }

  lemma {:induction false} CompareLexFlip(xs: seq<int>, ys: seq<int>)
    ensures CompareLex(ys, xs) == Flip(CompareLex(xs, ys))
    decreases |xs|
  {
    if xs != [] && ys != [] && xs[0] == ys[0] {
      CompareLexFlip(xs[1..], ys[1..]);
    }
  }

  lemma {:induction false} CompareLexEqual(xs: seq<int>, ys: seq<int>)
    requires |xs| == |ys|
    ensures CompareLex(xs, ys) == Equal <==> xs == ys
    decreases |xs|
  {
    if xs != [] {
      CompareLexEqual(xs[1..], ys[1..]);
      if xs[0] == ys[0] && xs[1..] == ys[1..] {
        assert xs == [xs[0]] + xs[1..] && ys == [ys[0]] + ys[1..];
      }
    }
  }

  /** `Hand::cmp` on dealt hands is an order: swapping the hands flips the answer, and
      Equal means the same cards and the same type. */
  lemma CompareHandsOrder(h: Hand, other: Hand)
    requires Dealt(h) && Dealt(other)
    ensures CompareHands(h, other).Ok? && CompareHands(other, h).Ok?
    ensures CompareHands(other, h).value == Flip(CompareHands(h, other).value)
    ensures CompareHands(h, other) == Ok(Equal) <==> h.value == other.value && h.handType == other.handType
  {
    CompareHandsByKey(h, other);
    CompareHandsByKey(other, h);
    CompareLexFlip(HandKey(h), HandKey(other));
    CompareLexEqual(HandKey(h), HandKey(other));
    CompareTypesByStrength(h.handType, other.handType);
    if HandKey(h) == HandKey(other) {
      assert HandKey(h)[1..] == CardValues(h.value) && HandKey(other)[1..] == CardValues(other.value);
      forall i | 0 <= i < 5
        ensures h.value[i] == other.value[i]
      {
        CardValueInjective(h.value[i], other.value[i]);
      }
    }
  }

  /** The test `test_cmp`: "2222Q" beats "22228", both being four of a kind. */
  lemma CmpExample()
    ensures TypeOf("2222Q") == Some(Four) && TypeOf("22228") == Some(Four)
    ensures CompareHands(Hand("2222Q", 0, Four), Hand("22228", 0, Four)) == Ok(Greater)
  {
    ExampleType("2222Q", 'Q');
    ExampleType("22228", '8');
    ExampleCards("2222Q", "22228");
  }

  lemma ExampleCards(xs: string, ys: string)
    requires xs == "2222Q" && ys == "22228"
    ensures CompareCardSeqs(xs, ys) == Ok(Greater)
  {
    assert CompareCards('2', '2') == Ok(Equal) && CompareCards('Q', '8') == Ok(Greater);
    assert CompareCardSeqs(xs[4..], ys[4..]) == Ok(Greater);
    assert CompareCardSeqs(xs[3..], ys[3..]) == Ok(Greater) by {
      assert xs[3..][1..] == xs[4..] && ys[3..][1..] == ys[4..];
    }
    assert CompareCardSeqs(xs[2..], ys[2..]) == Ok(Greater) by {
      assert xs[2..][1..] == xs[3..] && ys[2..][1..] == ys[3..];
    }
    assert CompareCardSeqs(xs[1..], ys[1..]) == Ok(Greater) by {
      assert xs[1..][1..] == xs[2..] && ys[1..][1..] == ys[2..];
    }
  }

  lemma ExampleType(value: string, c: char)
    requires value == ['2', '2', '2', '2', c] && c != '2'
    ensures TypeOf(value) == Some(Four)
  {
    assert Distinct(value) == {'2', c};
    assert multiset(value)['2'] == 4 && multiset(value)[c] == 1;
    MaxCountSpec(value);
  }

  // ---------------------------------------------------------------- ranking

  /** Lexicographic order on sequences, a shorter prefix first. */
  predicate LexLe(xs: seq<int>, ys: seq<int>)
    decreases |xs|
  {
    xs == [] || (ys != [] && (xs[0] < ys[0] || (xs[0] == ys[0] && LexLe(xs[1..], ys[1..]))))
  }

  /** The order `hands.sort()` uses: on dealt hands it is `Hand::cmp` (see HandLeIsCmp);
      on other hands, where `Hand::cmp` is no order, it is the order of their keys. */
  predicate HandLe(h: Hand, other: Hand) {
    LexLe(HandKey(h), HandKey(other))
  }

  lemma {:induction false} LexLeTotal(xs: seq<int>, ys: seq<int>)
    ensures LexLe(xs, ys) || LexLe(ys, xs)
    decreases |xs|
  {
    if xs != [] && ys != [] && xs[0] == ys[0] {
      LexLeTotal(xs[1..], ys[1..]);
    }
  }

  lemma {:induction false} LexLeTransitive(xs: seq<int>, ys: seq<int>, zs: seq<int>)
    requires LexLe(xs, ys) && LexLe(ys, zs)
    ensures LexLe(xs, zs)
    decreases |xs|
  {
    if xs != [] && xs[0] == ys[0] && ys[0] == zs[0] {
      LexLeTransitive(xs[1..], ys[1..], zs[1..]);
    }
  }

  lemma {:induction false} LexLeAntisymmetric(xs: seq<int>, ys: seq<int>)
    requires LexLe(xs, ys) && LexLe(ys, xs)
    ensures xs == ys
    decreases |xs|
  {
    if xs != [] {
      LexLeAntisymmetric(xs[1..], ys[1..]);
      assert xs == [xs[0]] + xs[1..] && ys == [ys[0]] + ys[1..];
    }
  }

  lemma {:induction false} LexLeByCompare(xs: seq<int>, ys: seq<int>)
    requires |xs| == |ys|
    ensures LexLe(xs, ys) <==> CompareLex(xs, ys) != Greater
    decreases |xs|
  {
    if xs != [] && xs[0] == ys[0] {
      LexLeByCompare(xs[1..], ys[1..]);
    }
  }

  /** The ranking order is a total preorder on all hands. */
  lemma HandLeTotal()
    ensures TotalPreorder(HandLe)
  {
    forall a: Hand, b: Hand
      ensures HandLe(a, b) || HandLe(b, a)
    {
      LexLeTotal(HandKey(a), HandKey(b));
    }
    forall a: Hand, b: Hand, c: Hand | HandLe(a, b) && HandLe(b, c)
      ensures HandLe(a, c)
    {
      LexLeTransitive(HandKey(a), HandKey(b), HandKey(c));
    }
  }

  /** On dealt hands the ranking order is `Hand::cmp` not answering Greater. */
  lemma HandLeIsCmp(h: Hand, other: Hand)
    requires Dealt(h) && Dealt(other)
    ensures HandLe(h, other) <==> CompareHands(h, other) != Ok(Greater)
  {
    CompareHandsByKey(h, other);
    LexLeByCompare(HandKey(h), HandKey(other));
  }

  /** Two hands tie in the ranking order only when they have the same key. */
  lemma TieIsSameKey(h: Hand, other: Hand)
    ensures Tie(HandLe, h, other) <==> HandKey(h) == HandKey(other)
  {
    if Tie(HandLe, h, other) {
      LexLeAntisymmetric(HandKey(h), HandKey(other));
    } else if HandKey(h) == HandKey(other) {
      LexLeTotal(HandKey(h), HandKey(other));
    }
  }

  // ---------------------------------------------------------------- parsing and `solve`

  /** nom's `alphanumeric1` accepts ASCII letters and digits. */
  predicate IsAlphanumeric(c: char) {
    IsAlpha(c) || IsDigit(c)
  }

  /** `parse_race_duration` without the hand classification: the cards, at least one
      space, then the bid. */
  function HandPieces(line: string): Option<(string, nat)> {
    var a := SpanEnd(line, 0, IsAlphanumeric);
    var b := SpanEnd(line, a, IsSpace);
    if a == 0 || b == a then None
    else
      match NumberAt(line, b)
      case None => None
      case Some((bid, _)) => Some((line[..a], bid))
  }

  /** `parse_race_duration` with `Hand::new`, and the `expect` of `solve`. */
  function ParseHand(line: string): Result<Hand> {
    match HandPieces(line)
    case None => Err("Could not parse hand")
    case Some((cards, bid)) =>
      match TypeOf(cards)
      case None => Err("Could not identify the hand type")
      case Some(t) => Ok(Hand(cards, bid, t))
  }

  /** The hands of all lines, or the failure of the first line that fails. */
  function ParseHands(lines: seq<string>): (r: Result<seq<Hand>>)
    ensures r.Ok? ==> |r.value| == |lines|
    decreases |lines|
  {
    if lines == [] then Ok([])
    else
      match ParseHands(lines[..|lines| - 1])
      case Err(e) => Err(e)
      case Ok(hands) =>
        match ParseHand(lines[|lines| - 1])
        case Err(e) => Err(e)
        case Ok(h) => Ok(hands + [h])
  }

  /** The final fold of `solve`: each bid times its rank, the rank counted from 1. */
  function Winnings(ranked: seq<Hand>): int
    decreases |ranked|
  {
    if ranked == [] then 0
    else Winnings(ranked[..|ranked| - 1]) + ranked[|ranked| - 1].bid * |ranked|
  }

  /** `solve`: every line is parsed into a hand (classified by `from_value`), the hands
      are sorted and the ranked bids are added up. */
  method Solve(lines: seq<string>) returns (r: Result<int>)
    ensures ParseHands(lines).Err? ==> r == Err(ParseHands(lines).error)
    ensures ParseHands(lines).Ok? ==> r == Ok(Winnings(SortBy(ParseHands(lines).value, HandLe)))
  {
    var hands: seq<Hand> := [];
    for k := 0 to |lines|
      invariant ParseHands(lines[..k]) == Ok(hands)
    {
      assert lines[..k + 1][..k] == lines[..k];
      var pieces := HandPieces(lines[k]);
      if pieces.None? {
        ParseHandsFails(lines, k + 1);
        return Err("Could not parse hand");
      }
      var (cards, bid) := pieces.value;
      var t := FromValue(cards);
      if t.None? {
        ParseHandsFails(lines, k + 1);
        return Err("Could not identify the hand type");
      }
      hands := hands + [Hand(cards, bid, t.value)];
    }
    assert lines[..|lines|] == lines;
    hands := SortBy(hands, HandLe);
    r := Ok(Winnings(hands));
  }

  /** Once a prefix of the lines fails, all of them fail with the same message. */
  lemma {:induction false} ParseHandsFails(lines: seq<string>, n: nat)
    requires n <= |lines| && ParseHands(lines[..n]).Err?
    ensures ParseHands(lines) == ParseHands(lines[..n])
    decreases |lines| - n
  {
    if n < |lines| {
      assert lines[..n + 1][..n] == lines[..n];
      ParseHandsFails(lines, n + 1);
    } else {
      assert lines[..n] == lines;
    }
  }

  /** The number of hands in the pool strictly weaker than h. */
  function Weaker(pool: seq<Hand>, h: Hand): nat {
    CountOf(pool, (g: Hand) => HandLe(g, h) && !HandLe(h, g))
  }

  /** Each hand's bid times one more than the number of hands it beats. */
  function RankedBids(hands: seq<Hand>, pool: seq<Hand>): int {
    SumOf(hands, (h: Hand) => h.bid * (Weaker(pool, h) + 1))
  }

  /** In a sorted sequence without ties, the hand at k beats exactly the k before it. */
  lemma {:induction false} WeakerInSorted(s: seq<Hand>, n: nat, k: nat)
    requires SortedBy(s, HandLe) && k < |s| && n <= |s|
    requires forall i, j :: 0 <= i < j < |s| ==> !Tie(HandLe, s[i], s[j])
    ensures CountOf(s[..n], (g: Hand) => HandLe(g, s[k]) && !HandLe(s[k], g)) == if n <= k then n else k
    decreases n
  {
    HandLeTotal();
    if n > 0 {
      WeakerInSorted(s, n - 1, k);
      assert s[..n][..n - 1] == s[..n - 1];
    }
  }

  /** The fold in sorted order is the sum over the sorted hands of bid times rank. */
  lemma {:induction false} WinningsAsRanks(s: seq<Hand>, n: nat)
    requires SortedBy(s, HandLe) && n <= |s|
    requires forall i, j :: 0 <= i < j < |s| ==> !Tie(HandLe, s[i], s[j])
    ensures Winnings(s[..n]) == RankedBids(s[..n], s)
    decreases n
  {
    if n > 0 {
      WinningsAsRanks(s, n - 1);
      assert s[..n][..n - 1] == s[..n - 1];
      WeakerInSorted(s, |s|, n - 1);
      assert s[..|s|] == s;
    }
  }

  /** When no two hands tie, every hand wins its bid times one more than the number of
      hands it beats, whatever order the lines came in. */
  lemma WinningsByRank(hands: seq<Hand>)
    requires forall i, j :: 0 <= i < j < |hands| ==> !Tie(HandLe, hands[i], hands[j])
    ensures Winnings(SortBy(hands, HandLe)) == RankedBids(hands, hands)
  {
    var s := SortBy(hands, HandLe);
    HandLeTotal();
    SortBySorted(hands, HandLe);
    SortByPermutes(hands, HandLe);
    forall i, j | 0 <= i < j < |s|
      ensures !Tie(HandLe, s[i], s[j])
    {
      if Tie(HandLe, s[i], s[j]) {
        TiedAtLeastTwo(s, HandLe, i, j, s[j]);
        SortByStable(hands, HandLe, s[j]);
        TiedAtMostOne(hands, HandLe, s[j]);
        assert false;
      }
    }
    WinningsAsRanks(s, |s|);
    assert s[..|s|] == s;
    forall h: Hand
      ensures Weaker(s, h) == Weaker(hands, h)
    {
      CountOfPermutation(s, hands, (g: Hand) => HandLe(g, h) && !HandLe(h, g));
    }
    SumOfPermutation(s, hands, (h: Hand) => h.bid * (Weaker(s, h) + 1));
    assert RankedBids(hands, s) == RankedBids(hands, hands) by {
      RankedBidsSamePool(hands, s, hands);
    }
  }

  /** Two pools with the same Weaker counts give the same RankedBids. */
  lemma {:induction false} RankedBidsSamePool(hands: seq<Hand>, p: seq<Hand>, q: seq<Hand>)
    requires forall h: Hand :: Weaker(p, h) == Weaker(q, h)
    ensures RankedBids(hands, p) == RankedBids(hands, q)
    decreases |hands|
  {
    if hands != [] {
      RankedBidsSamePool(hands[..|hands| - 1], p, q);
    }
  }
}
