/** Discounted cumulative gain over a vector of relevance grades, and the
    "ideal" ordering that nDCG compares against. */
module DiscountedGain {
  import opened Common

  /** `2**n`. */
  function Pow2(n: nat): (p: nat)
    ensures p >= 1
  {
    if n == 0 then 1 else 2 * Pow2(n - 1)
  }

  /** The gain `2**rel - 1` of a relevance grade. */
  function Gain(g: nat): (r: nat)
    ensures r >= 1 <==> g >= 1
  {
    Pow2(g) - 1
  }

  /** Higher grades never gain less. */
  lemma {:induction false} GainMonotone(a: nat, b: nat)
    requires a <= b
    ensures Gain(a) <= Gain(b)
  {
    if a < b {
      GainMonotone(a, b - 1);
      assert Pow2(b) == 2 * Pow2(b - 1);
    }
  }

  /** The rank discount `log2(i + 1)` of the 1-based position i. It is
      kept abstract: all the model relies on is that it is positive and
      does not decrease from one position to the next. */
  type Discount = d: nat -> real
    | (forall i :: 1 <= i ==> d(i) > 0.0) && (forall i, j :: 1 <= i <= j ==> d(i) <= d(j))
    witness (i: nat) => 1.0

  /** The DCG term of grade g at 1-based position pos. */
  function Term(g: nat, pos: nat, d: Discount): (t: real)
    requires 1 <= pos
    ensures t >= 0.0
    ensures t == 0.0 <==> g == 0
  {
    Gain(g) as real / d(pos)
  }

  /** DCG of the first m grades of s, the first one standing at position pos. */
  function DcgFrom(s: seq<nat>, pos: nat, m: nat, d: Discount): (r: real)
    requires 1 <= pos
    ensures r >= 0.0
    decreases |s|
  {
    if m == 0 || s == [] then 0.0 else Term(s[0], pos, d) + DcgFrom(s[1..], pos + 1, m - 1, d)
  }

  /** `dcg_at_k(rels, k)`: the DCG of `rels[:k]`. */
  function Dcg(rels: seq<nat>, k: int, d: Discount): (r: real)
    ensures r >= 0.0
  {
    DcgFrom(rels, 1, Cut(k, |rels|), d)
  }

  /** `dcg_at_k`: the loop over `rels[:k]` that accumulates the terms. */
  method DcgAtK(rels: seq<nat>, k: int, d: Discount) returns (dcg: real)
    ensures dcg == Dcg(rels, k, d)
    ensures dcg >= 0.0
  {
    var c := Cut(k, |rels|);
    dcg := 0.0;
    for i := 0 to c
      invariant dcg + DcgFrom(rels[i..], i + 1, c - i, d) == DcgFrom(rels, 1, c, d)
    {
      assert rels[i..][1..] == rels[i + 1..];
      dcg := dcg + Term(rels[i], i + 1, d);
    }
    assert rels[c..] == [] || c - c == 0;
  }

  /** Only the first m grades matter. */
  lemma {:induction false} DcgFromPrefixOnly(a: seq<nat>, b: seq<nat>, pos: nat, m: nat, d: Discount)
    requires 1 <= pos
    requires m <= |a| && m <= |b| && a[..m] == b[..m]
    ensures DcgFrom(a, pos, m, d) == DcgFrom(b, pos, m, d)
  {
    if m > 0 {
      assert a[0] == a[..m][0] && b[0] == b[..m][0];
      assert a[1..][..m - 1] == a[..m][1..] && b[1..][..m - 1] == b[..m][1..];
      DcgFromPrefixOnly(a[1..], b[1..], pos + 1, m - 1, d);
    }
  }

  /** `dcg_at_k(rels, k)` depends on `rels[:k]` alone: grades at positions
      k and beyond do not change it. */
  lemma DcgPrefixOnly(a: seq<nat>, b: seq<nat>, k: int, d: Discount)
    requires PyPrefix(a, k) == PyPrefix(b, k)
    ensures Dcg(a, k, d) == Dcg(b, k, d)
  {
    var c := Cut(k, |a|);
    assert |PyPrefix(a, k)| == c && |PyPrefix(b, k)| == Cut(k, |b|);
    DcgFromPrefixOnly(a, b, 1, c, d);
  }

  /** The DCG is zero exactly when each of the first m grades is zero. */
  lemma {:induction false} DcgFromZeroIff(s: seq<nat>, pos: nat, m: nat, d: Discount)
    requires 1 <= pos
    ensures DcgFrom(s, pos, m, d) == 0.0 <==> forall i :: 0 <= i < m && i < |s| ==> s[i] == 0
  {
    if m > 0 && s != [] {
      DcgFromZeroIff(s[1..], pos + 1, m - 1, d);
      if forall i :: 0 <= i < m && i < |s| ==> s[i] == 0 {
        forall i | 0 <= i < m - 1 && i < |s[1..]| ensures s[1..][i] == 0 {
          assert s[1..][i] == s[i + 1];
        }
      } else {
        var i :| 0 <= i < m && i < |s| && s[i] != 0;
        if i > 0 {
          assert s[1..][i - 1] == s[i];
        }
      }
    }
  }

  // ----- The ideal ordering -----

  /** Position of a largest grade (the first one). */
  function ArgMax(s: seq<nat>): (j: nat)
    requires s != []
    ensures j < |s|
  {
    if |s| == 1 then 0
    else
      var j := ArgMax(s[1..]);
      if s[0] >= s[1 + j] then 0 else 1 + j
  }

  lemma {:induction false} ArgMaxIsMax(s: seq<nat>)
    requires s != []
    ensures forall i :: 0 <= i < |s| ==> s[i] <= s[ArgMax(s)]
  {
    if |s| > 1 {
      ArgMaxIsMax(s[1..]);
      assert forall i :: 1 <= i < |s| ==> s[i] == s[1..][i - 1];
    }
  }

  /** `sorted(rels, reverse=True)`: repeatedly takes a largest grade to the front. */
  function SortDesc(s: seq<nat>): (t: seq<nat>)
    ensures |t| == |s|
    ensures multiset(t) == multiset(s)
    decreases |s|
  {
    if s == [] then []
    else
      var j := ArgMax(s);
      assert s == s[..j] + [s[j]] + s[j + 1..];
      [s[j]] + SortDesc(s[..j] + s[j + 1..])
  }

  /** One step of the ideal ordering: a largest grade, then the ideal
      ordering of the others. */
  lemma SortDescUnfold(s: seq<nat>)
    requires s != []
    ensures SortDesc(s) == [s[ArgMax(s)]] + SortDesc(s[..ArgMax(s)] + s[ArgMax(s) + 1..])
  {
  }

  /** The ideal list starts with a largest grade. */
  lemma SortDescHead(s: seq<nat>)
    requires s != []
    ensures SortDesc(s)[0] == s[ArgMax(s)]
  {
  }

  predicate SortedDesc(t: seq<nat>)
  {
    forall i, j :: 0 <= i < j < |t| ==> t[i] >= t[j]
  }

  /** A grade no smaller than any of a sorted list can lead it. */
  lemma ConsSorted(x: nat, tail: seq<nat>)
    requires SortedDesc(tail)
    requires forall i :: 0 <= i < |tail| ==> tail[i] <= x
    ensures SortedDesc([x] + tail)
  {
    var t := [x] + tail;
    forall a, b | 0 <= a < b < |t| ensures t[a] >= t[b] {
      assert t[b] == tail[b - 1];
      if a > 0 {
        assert t[a] == tail[a - 1];
      }
    }
  }

  /** A bound on every element carries over to any permutation. */
  lemma PermutationBounded(a: seq<nat>, b: seq<nat>, x: nat)
    requires multiset(a) == multiset(b)
    requires forall i :: 0 <= i < |a| ==> a[i] <= x
    ensures forall i :: 0 <= i < |b| ==> b[i] <= x
  {
    forall i | 0 <= i < |b| ensures b[i] <= x {
      assert b[i] in multiset(a);
    }
  }

  /** The grades left after removing a largest one are all at most it. */
  lemma RestBelowMax(s: seq<nat>, rest: seq<nat>)
    requires s != [] && rest == s[..ArgMax(s)] + s[ArgMax(s) + 1..]
    ensures forall k :: 0 <= k < |rest| ==> rest[k] <= s[ArgMax(s)]
  {
    var j := ArgMax(s);
    ArgMaxIsMax(s);
    forall k | 0 <= k < |rest| ensures rest[k] <= s[j] {
      assert rest[k] == if k < j then s[k] else s[k + 1];
    }
  }

  /** The ideal list is a descending-sorted permutation of the grades. */
  lemma {:induction false} IdealIsSortedPermutation(s: seq<nat>)
    ensures multiset(SortDesc(s)) == multiset(s)
    ensures SortedDesc(SortDesc(s))
    decreases |s|
  {
    if s != [] {
      var j := ArgMax(s);
      var rest := s[..j] + s[j + 1..];
      SortDescUnfold(s);
      IdealIsSortedPermutation(rest);
      RestBelowMax(s, rest);
      PermutationBounded(rest, SortDesc(rest), s[j]);
      ConsSorted(s[j], SortDesc(rest));
    }
  }

  /** Python's `sorted(rels, reverse=True)` is therefore this list: a
      descending-sorted permutation of the grades is unique. */
  lemma {:induction false} SortedDescUnique(a: seq<nat>, b: seq<nat>)
    requires multiset(a) == multiset(b)
    requires SortedDesc(a) && SortedDesc(b)
    ensures a == b
  {
    assert |a| == |multiset(a)| == |b|;
    if a != [] {
      SortedDescHeads(a, b);
      TailsPermutation(a, b);
      assert SortedDesc(a[1..]) && SortedDesc(b[1..]);
      SortedDescUnique(a[1..], b[1..]);
      assert a == [a[0]] + a[1..];
      assert b == [b[0]] + b[1..];
    }
  }

  /** Two descending permutations of the same grades start alike. */
  lemma SortedDescHeads(a: seq<nat>, b: seq<nat>)
    requires multiset(a) == multiset(b) && a != [] && b != []
    requires SortedDesc(a) && SortedDesc(b)
    ensures a[0] == b[0]
  {
    assert a[0] in multiset(b);
    assert b[0] in multiset(a);
    var i :| 0 <= i < |b| && b[i] == a[0];
    var j :| 0 <= j < |a| && a[j] == b[0];
    assert b[i] <= b[0];
    assert a[j] <= a[0];
  }

  /** Removing equal first elements from two permutations leaves two
      permutations. */
  lemma TailsPermutation(a: seq<nat>, b: seq<nat>)
    requires multiset(a) == multiset(b) && a != [] && b != [] && a[0] == b[0]
    ensures multiset(a[1..]) == multiset(b[1..])
  {
    assert a == [a[0]] + a[1..];
    assert b == [b[0]] + b[1..];
    assert multiset(a[1..]) == multiset(a) - multiset{a[0]};
    assert multiset(b[1..]) == multiset(b) - multiset{b[0]};
  }

  /** Grades already in descending order are their own ideal ordering. */
  lemma SortDescOfSorted(s: seq<nat>)
    requires SortedDesc(s)
    ensures SortDesc(s) == s
  {
    IdealIsSortedPermutation(s);
    SortedDescUnique(SortDesc(s), s);
  }

  /** Swapping a grade with a larger one right after it never lowers the DCG. */
  lemma {:induction false} SwapUp(s: seq<nat>, i: nat, pos: nat, m: nat, d: Discount)
    requires 1 <= pos && i + 1 < |s| && s[i] <= s[i + 1]
    ensures DcgFrom(s, pos, m, d) <= DcgFrom(s[i := s[i + 1]][i + 1 := s[i]], pos, m, d)
  {
    var t := s[i := s[i + 1]][i + 1 := s[i]];
    if m == 0 {
    } else if i > 0 {
      assert t[1..] == s[1..][i - 1 := s[i + 1]][i := s[i]];
      SwapUp(s[1..], i - 1, pos + 1, m - 1, d);
    } else {
      SwapFront(s, pos, m, d);
    }
  }

  /** The first two grades, in increasing order, swapped. */
  lemma SwapFront(s: seq<nat>, pos: nat, m: nat, d: Discount)
    requires 1 <= pos && 1 <= m && 2 <= |s| && s[0] <= s[1]
    ensures DcgFrom(s, pos, m, d) <= DcgFrom(s[0 := s[1]][1 := s[0]], pos, m, d)
  {
    var t := s[0 := s[1]][1 := s[0]];
    GainMonotone(s[0], s[1]);
    if m == 1 {
      DivMonotone(Gain(s[0]) as real, Gain(s[1]) as real, d(pos));
    } else {
      assert t[1..][1..] == s[1..][1..];
      SwapPair(Gain(s[0]) as real, Gain(s[1]) as real, d(pos), d(pos + 1));
    }
  }

  lemma DivMonotone(a: real, b: real, x: real)
    requires a <= b && x > 0.0
    ensures a / x <= b / x
  {
  }

  /** With 0 <= a <= b, b belongs in the better position x. */
  lemma SwapPair(a: real, b: real, x: real, y: real)
    requires 0.0 <= a <= b && 0.0 < x <= y
    ensures a / x + b / y <= b / x + a / y
  {
    DivAntitone(b - a, x, y);
    assert (b - a) / x == b / x - a / x;
    assert (b - a) / y == b / y - a / y;
  }

  /** A non-negative amount shrinks when divided by a larger divisor. */
  lemma DivAntitone(u: real, x: real, y: real)
    requires 0.0 <= u && 0.0 < x <= y
    ensures u / y <= u / x
  {
    var p := u / x;
    var q := u / y;
    assert p * x == u;
    assert q * y == u;
    assert q * x <= q * y;
  }

  /** Moving a grade forward over smaller grades never lowers the DCG. */
  lemma {:induction false} MaxToFront(s: seq<nat>, j: nat, pos: nat, m: nat, d: Discount)
    requires 1 <= pos && j < |s|
    requires forall i :: 0 <= i < j ==> s[i] <= s[j]
    ensures DcgFrom(s, pos, m, d) <= DcgFrom([s[j]] + s[..j] + s[j + 1..], pos, m, d)
    decreases j
  {
    if j == 0 {
      assert [s[0]] + s[..0] + s[1..] == s;
    } else {
      var t := s[j - 1 := s[j]][j := s[j - 1]];
      SwapUp(s, j - 1, pos, m, d);
      assert forall i :: 0 <= i < j - 1 ==> t[i] == s[i];
      MaxToFront(t, j - 1, pos, m, d);
      SwapThenMove(s, j);
      var moved := [t[j - 1]] + t[..j - 1] + t[j..];
      assert DcgFrom(s, pos, m, d) <= DcgFrom(t, pos, m, d) <= DcgFrom(moved, pos, m, d);
    }
  }

  /** Swapping positions j - 1 and j and then moving position j - 1 to the
      front moves position j to the front. */
  lemma SwapThenMove(s: seq<nat>, j: nat)
    requires 0 < j < |s|
    ensures var t := s[j - 1 := s[j]][j := s[j - 1]];
      [t[j - 1]] + t[..j - 1] + t[j..] == [s[j]] + s[..j] + s[j + 1..]
  {
    var t := s[j - 1 := s[j]][j := s[j - 1]];
    assert t[..j - 1] == s[..j - 1];
    assert t[j..] == [s[j - 1]] + s[j + 1..];
    assert s[..j] == s[..j - 1] + [s[j - 1]];
  }

  /** Putting a grade at the front adds its term at the first position. */
  lemma DcgFromCons(x: nat, rest: seq<nat>, pos: nat, m: nat, d: Discount)
    requires 1 <= pos && 1 <= m
    ensures DcgFrom([x] + rest, pos, m, d) == Term(x, pos, d) + DcgFrom(rest, pos + 1, m - 1, d)
  {
    assert ([x] + rest)[1..] == rest;
  }

  /** Bringing a largest grade to the front never lowers the DCG. */
  lemma MaxFirst(s: seq<nat>, rest: seq<nat>, pos: nat, m: nat, d: Discount)
    requires 1 <= pos && s != [] && rest == s[..ArgMax(s)] + s[ArgMax(s) + 1..]
    ensures DcgFrom(s, pos, m, d) <= DcgFrom([s[ArgMax(s)]] + rest, pos, m, d)
  {
    var j := ArgMax(s);
    ArgMaxIsMax(s);
    MaxToFront(s, j, pos, m, d);
    assert [s[j]] + s[..j] + s[j + 1..] == [s[j]] + rest;
  }

  /** One step of the exchange argument: a larger DCG behind the same first
      grade stays larger. */
  lemma DominatesStep(s: seq<nat>, x: nat, a: seq<nat>, b: seq<nat>, pos: nat, m: nat, d: Discount)
    requires 1 <= pos && 1 <= m
    requires DcgFrom(s, pos, m, d) <= DcgFrom([x] + a, pos, m, d)
    requires DcgFrom(a, pos + 1, m - 1, d) <= DcgFrom(b, pos + 1, m - 1, d)
    ensures DcgFrom(s, pos, m, d) <= DcgFrom([x] + b, pos, m, d)
  {
    DcgFromCons(x, a, pos, m, d);
    DcgFromCons(x, b, pos, m, d);
  }

  /** No ordering of the grades has a larger DCG than the ideal one. */
  lemma {:induction false} IdealDominates(s: seq<nat>, pos: nat, m: nat, d: Discount)
    requires 1 <= pos
    ensures DcgFrom(s, pos, m, d) <= DcgFrom(SortDesc(s), pos, m, d)
    decreases |s|
  {
    if s != [] && m > 0 {
      var j := ArgMax(s);
      var rest := s[..j] + s[j + 1..];
      MaxFirst(s, rest, pos, m, d);
      IdealDominates(rest, pos + 1, m - 1, d);
      DominatesStep(s, s[j], rest, SortDesc(rest), pos, m, d);
      SortDescUnfold(s);
    }
  }

  /** The ideal DCG is zero exactly when no grade is positive (for k >= 1). */
  lemma IdealZeroIff(s: seq<nat>, k: int, d: Discount)
    requires 1 <= k
    ensures Dcg(SortDesc(s), k, d) == 0.0 <==> forall i :: 0 <= i < |s| ==> s[i] == 0
  {
    var t := SortDesc(s);
    var c := Cut(k, |t|);
    DcgFromZeroIff(t, 1, c, d);
    if forall i :: 0 <= i < |s| ==> s[i] == 0 {
      forall i | 0 <= i < |t| ensures t[i] == 0 {
        assert t[i] in multiset(s);
      }
    } else {
      var i :| 0 <= i < |s| && s[i] != 0;
      SortDescHead(s);
      ArgMaxIsMax(s);
      assert t[0] != 0;
    }
  }
}
