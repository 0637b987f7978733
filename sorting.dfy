/** Sorting by a caller-supplied order, standing in for `Vec::sort`, `sort_by` and
    `sort_by_key`: a stable insertion sort, with the facts the solvers rely on (the
    result is ordered, it is a permutation of the input, and elements that tie keep
    their input order). */
module Sorting {

  /** `le` is total and transitive on the values involved: what `Ord` promises. */
  ghost predicate TotalPreorder<T(!new)>(le: (T, T) -> bool) {
    && (forall a: T, b: T :: le(a, b) || le(b, a))
    && (forall a: T, b: T, c: T :: le(a, b) && le(b, c) ==> le(a, c))
  }

  predicate SortedBy<T>(s: seq<T>, le: (T, T) -> bool) {
    forall i, j :: 0 <= i < j < |s| ==> le(s[i], s[j])
  }

  /** x placed after every leading element that is not greater than it. */
  function Insert<T>(x: T, s: seq<T>, le: (T, T) -> bool): (r: seq<T>)
    ensures |r| == |s| + 1
    decreases |s|
  {
    if s == [] || !le(s[0], x) then [x] + s else [s[0]] + Insert(x, s[1..], le)
  }

  /** Insertion sort: each element in input order is inserted into the sorted prefix. */
  function SortBy<T>(s: seq<T>, le: (T, T) -> bool): (r: seq<T>)
    ensures |r| == |s|
    decreases |s|
  {
    if s == [] then [] else Insert(s[|s| - 1], SortBy(s[..|s| - 1], le), le)
  }

  lemma {:induction false} InsertPermutes<T>(x: T, s: seq<T>, le: (T, T) -> bool)
    ensures multiset(Insert(x, s, le)) == multiset(s) + multiset{x}
    decreases |s|
  {
    if s != [] && le(s[0], x) {
      InsertPermutes(x, s[1..], le);
      assert s == [s[0]] + s[1..];
    }
  }

  /** The sorted sequence holds the same elements, as often, as the input. */
  lemma {:induction false} SortByPermutes<T>(s: seq<T>, le: (T, T) -> bool)
    ensures multiset(SortBy(s, le)) == multiset(s)
    decreases |s|
  {
    if s != [] {
      var init := s[..|s| - 1];
      SortByPermutes(init, le);
      InsertPermutes(s[|s| - 1], SortBy(init, le), le);
      assert s == init + [s[|s| - 1]];
    }
  }

  lemma {:induction false} InsertSorted<T(!new)>(x: T, s: seq<T>, le: (T, T) -> bool)
    requires TotalPreorder(le) && SortedBy(s, le)
    ensures SortedBy(Insert(x, s, le), le)
    decreases |s|
  {
    if s != [] && le(s[0], x) {
      InsertSorted(x, s[1..], le);
      var r := Insert(x, s, le);
      InsertPermutes(x, s[1..], le);
      forall j | 1 <= j < |r|
        ensures le(r[0], r[j])
      {
        assert r[j] in multiset(Insert(x, s[1..], le));
        assert r[j] == x || r[j] in s[1..];
      }
    }
  }

  /** The result is ordered by le. */
  lemma {:induction false} SortBySorted<T(!new)>(s: seq<T>, le: (T, T) -> bool)
    requires TotalPreorder(le)
    ensures SortedBy(SortBy(s, le), le)
    decreases |s|
  {
    if s != [] {
      SortBySorted(s[..|s| - 1], le);
      InsertSorted(s[|s| - 1], SortBy(s[..|s| - 1], le), le);
    }
  }

  /** An element no smaller than any of s goes at the end. */
  lemma {:induction false} InsertAtEnd<T>(x: T, s: seq<T>, le: (T, T) -> bool)
    requires forall i :: 0 <= i < |s| ==> le(s[i], x)
    ensures Insert(x, s, le) == s + [x]
    decreases |s|
  {
    if s != [] {
      InsertAtEnd(x, s[1..], le);
      assert s == [s[0]] + s[1..];
    }
  }

  /** Sorting what is already in order changes nothing. */
  lemma {:induction false} SortBySortedInput<T>(s: seq<T>, le: (T, T) -> bool)
    requires SortedBy(s, le)
    ensures SortBy(s, le) == s
    decreases |s|
  {
    if s != [] {
      var init := s[..|s| - 1];
      SortBySortedInput(init, le);
      InsertAtEnd(s[|s| - 1], init, le);
      assert s == init + [s[|s| - 1]];
    }
  }

  /** le ranks a and b the same. */
  predicate Tie<T>(le: (T, T) -> bool, a: T, b: T) {
    le(a, b) && le(b, a)
  }

  /** The elements of s that tie with k, in their order in s. */
  function Tied<T>(s: seq<T>, le: (T, T) -> bool, k: T): (r: seq<T>)
    ensures |r| <= |s|
    decreases |s|
  {
    if s == [] then []
    else Tied(s[..|s| - 1], le, k) + (if Tie(le, s[|s| - 1], k) then [s[|s| - 1]] else [])
  }

  lemma {:induction false} TiedCons<T>(a: T, s: seq<T>, le: (T, T) -> bool, k: T)
    ensures Tied([a] + s, le, k) == (if Tie(le, a, k) then [a] else []) + Tied(s, le, k)
    decreases |s|
  {
    if s != [] {
      var init := s[..|s| - 1];
      TiedCons(a, init, le, k);
      assert ([a] + s)[..|s|] == [a] + init;
    }
  }

  /** Nothing in s ties with k. */
  lemma {:induction false} TiedNone<T>(s: seq<T>, le: (T, T) -> bool, k: T)
    requires forall i :: 0 <= i < |s| ==> !Tie(le, s[i], k)
    ensures Tied(s, le, k) == []
    decreases |s|
  {
    if s != [] {
      TiedNone(s[..|s| - 1], le, k);
    }
  }

  /** A prefix holds no more elements tied with k than the whole. */
  lemma {:induction false} TiedPrefix<T>(s: seq<T>, m: nat, le: (T, T) -> bool, k: T)
    requires m <= |s|
    ensures |Tied(s[..m], le, k)| <= |Tied(s, le, k)|
    decreases |s|
  {
    if m < |s| {
      var init := s[..|s| - 1];
      TiedPrefix(init, m, le, k);
      assert init[..m] == s[..m];
    } else {
      assert s[..m] == s;
    }
  }

  /** When no two elements of s tie, at most one of them ties with k. */
  lemma {:induction false} TiedAtMostOne<T(!new)>(s: seq<T>, le: (T, T) -> bool, k: T)
    requires TotalPreorder(le)
    requires forall i, j :: 0 <= i < j < |s| ==> !Tie(le, s[i], s[j])
    ensures |Tied(s, le, k)| <= 1
    decreases |s|
  {
    if s != [] {
      var init, last := s[..|s| - 1], s[|s| - 1];
      TiedAtMostOne(init, le, k);
      if Tie(le, last, k) {
        forall i | 0 <= i < |init|
          ensures !Tie(le, init[i], k)
        {
          assert !Tie(le, s[i], s[|s| - 1]);
        }
        TiedNone(init, le, k);
      }
    }
  }

  /** Two positions tying with k put at least two elements in `Tied`. */
  lemma TiedAtLeastTwo<T>(s: seq<T>, le: (T, T) -> bool, j: nat, l: nat, k: T)
    requires j < l < |s| && Tie(le, s[j], k) && Tie(le, s[l], k)
    ensures |Tied(s, le, k)| >= 2
  {
    assert s[..l + 1][..l] == s[..l];
    assert s[..j + 1][..j] == s[..j];
    assert s[..l][..j + 1] == s[..j + 1];
    TiedPrefix(s[..l], j + 1, le, k);
    TiedPrefix(s, l + 1, le, k);
  }

  /** Inserting x into a sorted sequence puts it after every element it ties with. */
  lemma {:induction false} InsertTied<T(!new)>(x: T, s: seq<T>, le: (T, T) -> bool, k: T)
    requires TotalPreorder(le) && SortedBy(s, le)
    ensures Tied(Insert(x, s, le), le, k) == Tied(s + [x], le, k)
    decreases |s|
  {
    assert (s + [x])[..|s|] == s;
    if s == [] {
    } else if !le(s[0], x) {
      TiedCons(x, s, le, k);
      if Tie(le, x, k) {
        assert forall i :: 0 <= i < |s| ==> !Tie(le, s[i], k);
        TiedNone(s, le, k);
      }
    } else {
      var rest := s[1..];
      InsertTied(x, rest, le, k);
      TiedCons(s[0], Insert(x, rest, le), le, k);
      assert s + [x] == [s[0]] + (rest + [x]);
      TiedCons(s[0], rest + [x], le, k);
    }
  }

  /** The sort is stable: the elements that tie with any k come out in their input
      order. */
  lemma {:induction false} SortByStable<T(!new)>(s: seq<T>, le: (T, T) -> bool, k: T)
    requires TotalPreorder(le)
    ensures Tied(SortBy(s, le), le, k) == Tied(s, le, k)
    decreases |s|
  {
    if s != [] {
      var init, last := s[..|s| - 1], s[|s| - 1];
      SortByStable(init, le, k);
      SortBySorted(init, le);
      InsertTied(last, SortBy(init, le), le, k);
      var sorted := SortBy(init, le);
      assert (sorted + [last])[..|sorted|] == sorted;
    }
  }

  /** The sum of f over the elements of s. */
  function SumOf<T>(s: seq<T>, f: T -> int): int
    decreases |s|
  {
    if s == [] then 0 else SumOf(s[..|s| - 1], f) + f(s[|s| - 1])
  }

  lemma {:induction false} SumOfAppend<T>(a: seq<T>, b: seq<T>, f: T -> int)
    ensures SumOf(a + b, f) == SumOf(a, f) + SumOf(b, f)
    decreases |b|
  {
    if b != [] {
      SumOfAppend(a, b[..|b| - 1], f);
      assert (a + b)[..|a + b| - 1] == a + b[..|b| - 1];
    } else {
      assert a + b == a;
    }
  }

  /** A sum over the elements does not depend on their order. */
  lemma {:induction false} SumOfPermutation<T>(s: seq<T>, t: seq<T>, f: T -> int)
    requires multiset(s) == multiset(t)
    ensures SumOf(s, f) == SumOf(t, f)
    decreases |s|
  {
    if s == [] {
      assert |t| == |multiset(t)| == 0;
    } else {
      var init, x := s[..|s| - 1], s[|s| - 1];
      assert s == init + [x];
      assert x in multiset(t);
      var i :| 0 <= i < |t| && t[i] == x;
      var rest := t[..i] + t[i + 1..];
      assert t == t[..i] + [x] + t[i + 1..];
      assert multiset(rest) == multiset(t) - multiset{x};
      SumOfPermutation(init, rest, f);
      SumOfAppend(t[..i] + [x], t[i + 1..], f);
      SumOfAppend(t[..i], [x], f);
      SumOfAppend(t[..i], t[i + 1..], f);
    }
  }

  /** How many elements of s satisfy p. */
  function CountOf<T>(s: seq<T>, p: T -> bool): (n: nat)
    ensures n <= |s|
    decreases |s|
  {
    if s == [] then 0 else CountOf(s[..|s| - 1], p) + (if p(s[|s| - 1]) then 1 else 0)
  }

  lemma {:induction false} CountOfAppend<T>(a: seq<T>, b: seq<T>, p: T -> bool)
    ensures CountOf(a + b, p) == CountOf(a, p) + CountOf(b, p)
    decreases |b|
  {
    if b != [] {
      CountOfAppend(a, b[..|b| - 1], p);
      assert (a + b)[..|a + b| - 1] == a + b[..|b| - 1];
    } else {
      assert a + b == a;
    }
  }

  /** A count over the elements does not depend on their order. */
  lemma {:induction false} CountOfPermutation<T>(s: seq<T>, t: seq<T>, p: T -> bool)
    requires multiset(s) == multiset(t)
    ensures CountOf(s, p) == CountOf(t, p)
    decreases |s|
  {
    if s == [] {
      assert |t| == |multiset(t)| == 0;
    } else {
      var init, x := s[..|s| - 1], s[|s| - 1];
      assert s == init + [x];
      assert x in multiset(t);
      var i :| 0 <= i < |t| && t[i] == x;
      var rest := t[..i] + t[i + 1..];
      assert t == t[..i] + [x] + t[i + 1..];
      assert multiset(rest) == multiset(t) - multiset{x};
      CountOfPermutation(init, rest, p);
      CountOfAppend(t[..i] + [x], t[i + 1..], p);
      CountOfAppend(t[..i], [x], p);
      CountOfAppend(t[..i], t[i + 1..], p);
    }
  }

  /** The natural order on integers, as `Vec::sort` on integers uses it. */
  predicate IntLe(a: int, b: int) {
    a <= b
  }

  lemma IntLeTotal()
    ensures TotalPreorder(IntLe)
  {
  }
}
