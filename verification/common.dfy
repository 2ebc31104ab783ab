/** Small shared vocabulary: an optional value, Python's `s[:k]` slice and
    the two sums the metrics take over 0/1 relevance vectors. */
module Common {

  datatype Option<+T> = None | Some(value: T)

  /** Number of elements Python's slice `s[:k]` keeps of a sequence of
      length n: a negative k counts from the end. */
  function Cut(k: int, n: nat): (c: nat)
    ensures c <= n
    ensures 0 <= k ==> (c == k || c == n)
  {
    if 0 <= k then (if k < n then k else n)
    else if n + k < 0 then 0 else n + k
  }

  /** Python's `s[:k]`. */
  function PyPrefix<T>(s: seq<T>, k: int): (p: seq<T>)
    ensures |p| <= |s| && p == s[..|p|]
  {
    s[..Cut(k, |s|)]
  }

  /** Taking one more element of s appends that element. */
  lemma TakeOneMore<T>(s: seq<T>, i: nat)
    requires i < |s|
    ensures s[..i + 1] == s[..i] + [s[i]]
  {
  }

  /** Dropping the last element of s + [x] gives back s. */
  lemma DropLast<T>(s: seq<T>, x: T)
    ensures (s + [x])[..|s|] == s
  {
  }

  /** A concatenation is empty exactly when both parts are. */
  lemma EmptyConcat<T>(a: seq<T>, b: seq<T>)
    ensures a + b == [] <==> a == [] && b == []
  {
    assert |a + b| == |a| + |b|;
  }

  lemma ConcatAssoc<T>(a: seq<T>, b: seq<T>, c: seq<T>)
    ensures a + (b + c) == a + b + c
  {
  }

  /** Python's `sum(s)`. */
  function Sum(s: seq<int>): int
  {
    if s == [] then 0 else s[0] + Sum(s[1..])
  }

  /** A vector of zeros sums to zero. */
  lemma {:induction false} SumOfZeros(s: seq<int>)
    requires forall i :: 0 <= i < |s| ==> s[i] == 0
    ensures Sum(s) == 0
  {
    if s != [] {
      assert forall i :: 0 <= i < |s[1..]| ==> s[1..][i] == s[i + 1];
      SumOfZeros(s[1..]);
    }
  }

  /** The number of elements equal to 1. */
  function Ones(s: seq<int>): (n: nat)
    ensures n <= |s|
  {
    if s == [] then 0 else (if s[0] == 1 then 1 else 0) + Ones(s[1..])
  }

  /** A 0/1 relevance vector. */
  predicate IsBinary(s: seq<int>)
  {
    forall i :: 0 <= i < |s| ==> s[i] == 0 || s[i] == 1
  }

  /** On a 0/1 vector the sum counts the ones. */
  lemma {:induction false} BinarySumIsOnes(s: seq<int>)
    requires IsBinary(s)
    ensures Sum(s) == Ones(s)
  {
    if s != [] {
      assert IsBinary(s[1..]) by {
        forall i | 0 <= i < |s[1..]| ensures s[1..][i] == 0 || s[1..][i] == 1 {
          assert s[1..][i] == s[i + 1];
        }
      }
      BinarySumIsOnes(s[1..]);
    }
  }

  /** Splitting a vector splits its count of ones. */
  lemma {:induction false} OnesSplit(s: seq<int>, i: nat)
    requires i <= |s|
    ensures Ones(s[..i]) + Ones(s[i..]) == Ones(s)
  {
    if i > 0 {
      OnesSplit(s[1..], i - 1);
      assert s[..i][1..] == s[1..][..i - 1];
      assert s[i..] == s[1..][i - 1..];
    }
  }

  /** Extending a prefix by one element adds one to its count of ones
      exactly when that element is 1. */
  lemma OnesStep(s: seq<int>, i: nat)
    requires i < |s|
    ensures Ones(s[..i + 1]) == Ones(s[..i]) + (if s[i] == 1 then 1 else 0)
  {
    var t := s[..i + 1];
    OnesSplit(t, i);
    assert t[..i] == s[..i];
    assert t[i..] == [s[i]];
  }
}
