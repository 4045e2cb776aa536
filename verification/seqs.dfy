/** Sequences of player indices and of scores: sums, ranges, numpy's sort and
    delete, and the facts about canonical (sorted) coalitions the rest of the
    model relies on. */
module Seqs {

  /** Sum of a sequence of reals, accumulated left to right. */
  function Sum(s: seq<real>): real
  {
    if |s| == 0 then 0.0 else Sum(s[..|s| - 1]) + s[|s| - 1]
  }

  lemma {:induction false} SumConcat(a: seq<real>, b: seq<real>)
    ensures Sum(a + b) == Sum(a) + Sum(b)
  {
    if |b| == 0 {
      assert a + b == a;
    } else {
      assert (a + b)[..|a + b| - 1] == a + b[..|b| - 1];
      SumConcat(a, b[..|b| - 1]);
    }
  }

  /** A sequence of `n` zeros (numpy's zeros(n)). */
  function Zeros(n: nat): (r: seq<real>)
    ensures |r| == n && forall i :: 0 <= i < n ==> r[i] == 0.0
  {
    if n == 0 then [] else Zeros(n - 1) + [0.0]
  }

  lemma {:induction false} SumZeros(n: nat)
    ensures Sum(Zeros(n)) == 0.0
  {
    if n > 0 {
      assert Zeros(n)[..n - 1] == Zeros(n - 1);
      SumZeros(n - 1);
    }
  }

  /** Sum changes by the difference at the written position. */
  lemma {:induction false} SumUpdate(s: seq<real>, i: nat, v: real)
    requires i < |s|
    ensures Sum(s[i := v]) == Sum(s) - s[i] + v
  {
    if i == |s| - 1 {
      assert s[i := v][..|s| - 1] == s[..|s| - 1];
    } else {
      assert s[i := v][..|s| - 1] == s[..|s| - 1][i := v];
      SumUpdate(s[..|s| - 1], i, v);
    }
  }

  function Abs(x: real): real
  {
    if x < 0.0 then -x else x
  }

  function Min(a: real, b: real): real
  {
    if a <= b then a else b
  }

  function Max(a: real, b: real): real
  {
    if a <= b then b else a
  }

  /** numpy's arange(n). */
  function Range(n: nat): (r: seq<nat>)
    ensures |r| == n
    ensures forall i :: 0 <= i < n ==> r[i] == i
  {
    if n == 0 then [] else Range(n - 1) + [n - 1]
  }

  predicate Sorted(s: seq<nat>)
  {
    forall i, j :: 0 <= i < j < |s| ==> s[i] <= s[j]
  }

  predicate StrictlySorted(s: seq<nat>)
  {
    forall i, j :: 0 <= i < j < |s| ==> s[i] < s[j]
  }

  predicate NoDup(s: seq<nat>)
  {
    forall i, j :: 0 <= i < j < |s| ==> s[i] != s[j]
  }

  /** Every entry is a valid player index for `n` players. */
  predicate Below(s: seq<nat>, n: nat)
  {
    forall x :: x in s ==> x < n
  }

  /** The canonical form of a coalition of `n` players: ascending, no repeats. */
  predicate IsCoalition(s: seq<nat>, n: nat)
  {
    StrictlySorted(s) && Below(s, n)
  }

  /** Inserts `x` into a sorted sequence before the first larger-or-equal entry. */
  function InsertSorted(s: seq<nat>, x: nat): (r: seq<nat>)
    ensures |r| == |s| + 1
  {
    if |s| == 0 then [x]
    else if x <= s[0] then [x] + s
    else
      assert s == [s[0]] + s[1..];
      [s[0]] + InsertSorted(s[1..], x)
  }

  lemma {:induction false} InsertSortedCount(s: seq<nat>, x: nat)
    ensures multiset(InsertSorted(s, x)) == multiset(s) + multiset{x}
  {
    if |s| > 0 {
      assert s == [s[0]] + s[1..];
      if x > s[0] {
        InsertSortedCount(s[1..], x);
      }
    }
  }

  lemma {:induction false} InsertSortedSorted(s: seq<nat>, x: nat)
    requires Sorted(s)
    ensures Sorted(InsertSorted(s, x))
  {
    if |s| > 0 && x > s[0] {
      InsertSortedSorted(s[1..], x);
      InsertSortedCount(s[1..], x);
      var r' := InsertSorted(s[1..], x);
      forall y | y in r'
        ensures s[0] <= y
      {
        assert y in multiset(r');
        assert y in multiset(s[1..]) || y == x;
      }
      assert InsertSorted(s, x) == [s[0]] + r';
      ConsSorted(s[0], r');
    }
  }

  /** numpy's sort on a vector of player indices. */
  function Sort(s: seq<nat>): (r: seq<nat>)
    ensures |r| == |s|
  {
    if |s| == 0 then []
    else
      InsertSorted(Sort(s[..|s| - 1]), s[|s| - 1])
  }

  /** Sorting yields an ascending rearrangement of its input. */
  lemma {:induction false} SortFacts(s: seq<nat>)
    ensures Sorted(Sort(s)) && multiset(Sort(s)) == multiset(s)
  {
    if |s| > 0 {
      var init := s[..|s| - 1];
      assert s == init + [s[|s| - 1]];
      SortFacts(init);
      InsertSortedSorted(Sort(init), s[|s| - 1]);
      InsertSortedCount(Sort(init), s[|s| - 1]);
    }
  }

  /** The head of a non-empty sorted sequence is its least entry. */
  lemma {:induction false} SortedHeadLeast(a: seq<nat>, y: nat)
    requires Sorted(a) && y in multiset(a)
    ensures |a| > 0 && a[0] <= y
  {
    assert y in a;
    var j :| 0 <= j < |a| && a[j] == y;
  }

  /** A sorted sequence is determined by its multiset of entries. */
  lemma {:induction false} SortedUnique(a: seq<nat>, b: seq<nat>)
    requires Sorted(a) && Sorted(b) && multiset(a) == multiset(b)
    ensures a == b
  {
    assert |a| == |multiset(a)| == |multiset(b)| == |b|;
    if |a| > 0 {
      assert a[0] in a;
      SortedHeadLeast(b, a[0]);
      assert b[0] in b;
      SortedHeadLeast(a, b[0]);
      assert a[0] in multiset(a);
      assert a[0] == b[0];
      assert a == [a[0]] + a[1..];
      assert b == [b[0]] + b[1..];
      assert multiset(a) == multiset{a[0]} + multiset(a[1..]);
      assert multiset(b) == multiset{a[0]} + multiset(b[1..]);
      var ma: multiset<nat>, mb: multiset<nat> := multiset(a[1..]), multiset(b[1..]);
      assert ma == mb by {
        forall y: nat
          ensures ma[y] == mb[y]
        {
          assert multiset(a)[y] == multiset{a[0]}[y] + ma[y];
          assert multiset(b)[y] == multiset{a[0]}[y] + mb[y];
        }
      }
      SortedUnique(a[1..], b[1..]);
    }
  }

  lemma {:induction false} SortOfSorted(s: seq<nat>)
    requires Sorted(s)
    ensures Sort(s) == s
  {
    SortFacts(s);
    SortedUnique(Sort(s), s);
  }

  /** numpy's delete of every occurrence of `x`. */
  function Remove(s: seq<nat>, x: nat): (r: seq<nat>)
    ensures multiset(r) == multiset(s)[x := 0]
  {
    if |s| == 0 then []
    else
      assert s == [s[0]] + s[1..];
      if s[0] == x then Remove(s[1..], x)
      else [s[0]] + Remove(s[1..], x)
  }

  lemma {:induction false} RemoveMembers(s: seq<nat>, x: nat)
    ensures forall y :: y in Remove(s, x) <==> y in s && y != x
  {
    forall y
      ensures y in Remove(s, x) <==> y in s && y != x
    {
      assert y in Remove(s, x) <==> y in multiset(Remove(s, x));
      assert y in s <==> y in multiset(s);
    }
  }

  lemma {:induction false} RemoveSorted(s: seq<nat>, x: nat)
    ensures Sorted(s) ==> Sorted(Remove(s, x))
    ensures StrictlySorted(s) ==> StrictlySorted(Remove(s, x))
  {
    if |s| > 0 {
      var t := s[1..];
      RemoveSorted(t, x);
      if s[0] != x {
        RemoveMembers(t, x);
        var r := Remove(t, x);
        assert Remove(s, x) == [s[0]] + r;
        forall y | y in r
          ensures (Sorted(s) ==> s[0] <= y) && (StrictlySorted(s) ==> s[0] < y)
        {
          var j :| 0 <= j < |t| && t[j] == y;
          assert s[j + 1] == y;
        }
        ConsSorted(s[0], r);
      }
    }
  }

  /** Prefixing a sorted sequence with a value no larger than its entries keeps it sorted. */
  lemma {:induction false} ConsSorted(h: nat, r: seq<nat>)
    ensures Sorted(r) && (forall y :: y in r ==> h <= y) ==> Sorted([h] + r)
    ensures StrictlySorted(r) && (forall y :: y in r ==> h < y) ==> StrictlySorted([h] + r)
  {
    var c := [h] + r;
    if Sorted(r) && (forall y :: y in r ==> h <= y) {
      forall i, j | 0 <= i < j < |c|
        ensures c[i] <= c[j]
      {
        if i > 0 {
          assert c[i] == r[i - 1] && c[j] == r[j - 1];
        } else {
          assert c[j] == r[j - 1] && c[j] in r;
        }
      }
    }
    if StrictlySorted(r) && (forall y :: y in r ==> h < y) {
      forall i, j | 0 <= i < j < |c|
        ensures c[i] < c[j]
      {
        if i > 0 {
          assert c[i] == r[i - 1] && c[j] == r[j - 1];
        } else {
          assert c[j] == r[j - 1] && c[j] in r;
        }
      }
    }
  }

  lemma {:induction false} NoDupCount(s: seq<nat>, x: nat)
    requires NoDup(s)
    ensures multiset(s)[x] <= 1
    ensures x in s ==> multiset(s)[x] == 1
  {
    if |s| > 0 {
      assert s == [s[0]] + s[1..];
      NoDupCount(s[1..], x);
    }
  }

  lemma {:induction false} DupCount(s: seq<nat>, i: nat, j: nat)
    requires i < j < |s| && s[i] == s[j]
    ensures multiset(s)[s[i]] >= 2
  {
    assert s == s[..i] + [s[i]] + s[i + 1..j] + [s[j]] + s[j + 1..];
  }

  /** A strictly sorted sequence is determined by its members. */
  lemma {:induction false} StrictlySortedUnique(a: seq<nat>, b: seq<nat>)
    requires StrictlySorted(a) && StrictlySorted(b)
    requires forall x :: x in a <==> x in b
    ensures a == b
  {
    assert NoDup(a) && NoDup(b);
    forall x
      ensures multiset(a)[x] == multiset(b)[x]
    {
      NoDupCount(a, x);
      NoDupCount(b, x);
    }
    assert multiset(a) == multiset(b);
    SortedUnique(a, b);
  }

  /** Having no repeated entry depends only on the multiset. */
  lemma {:induction false} NoDupMultiset(a: seq<nat>, b: seq<nat>)
    requires NoDup(a) && multiset(a) == multiset(b)
    ensures NoDup(b)
  {
    forall i, j | 0 <= i < j < |b|
      ensures b[i] != b[j]
    {
      if b[i] == b[j] {
        DupCount(b, i, j);
        NoDupCount(a, b[i]);
      }
    }
  }

  /** Sorting a repeat-free vector of valid players yields a coalition. */
  lemma {:induction false} SortIsCoalition(s: seq<nat>, n: nat)
    requires NoDup(s) && Below(s, n)
    ensures IsCoalition(Sort(s), n)
  {
    var t := Sort(s);
    SortFacts(s);
    NoDupMultiset(s, t);
    forall x | x in t
      ensures x < n
    {
      SortMembers(s, x);
    }
  }

  lemma {:induction false} SortMembers(s: seq<nat>, x: nat)
    ensures x in Sort(s) <==> x in s
  {
    SortFacts(s);
    assert x in Sort(s) <==> x in multiset(Sort(s));
    assert x in s <==> x in multiset(s);
  }

  /** The canonical coalition S ∪ {i}: numpy's sort(append(S, i)). */
  function Insert(s: seq<nat>, i: nat): seq<nat>
  {
    Sort(s + [i])
  }

  lemma {:induction false} InsertOfSorted(s: seq<nat>, i: nat)
    requires Sorted(s)
    ensures Insert(s, i) == InsertSorted(s, i)
  {
    assert (s + [i])[..|s|] == s;
    SortOfSorted(s);
  }

  /** Adding a new player to a coalition gives a coalition one larger. */
  lemma {:induction false} InsertFacts(s: seq<nat>, i: nat, n: nat)
    requires IsCoalition(s, n) && i < n && i !in s
    ensures IsCoalition(Insert(s, i), n)
    ensures |Insert(s, i)| == |s| + 1
    ensures forall y :: y in Insert(s, i) <==> y in s || y == i
  {
    var t := Insert(s, i);
    SortFacts(s + [i]);
    assert NoDup(s + [i]);
    NoDupMultiset(s + [i], t);
    forall y
      ensures y in t <==> y in s || y == i
    {
      assert y in t <==> y in multiset(t);
      assert y in s + [i] <==> y in multiset(s + [i]);
    }
  }

  /** Removing a player from the coalition it was added to gives the coalition back. */
  lemma {:induction false} RemoveInsert(s: seq<nat>, i: nat)
    requires StrictlySorted(s) && i !in s
    ensures Remove(Insert(s, i), i) == s
  {
    var t := Insert(s, i);
    SortFacts(s + [i]);
    var r := Remove(t, i);
    RemoveSorted(t, i);
    assert multiset(t) == multiset(s) + multiset{i};
    assert multiset(s)[i] == 0;
    var mr: multiset<nat>, ms: multiset<nat> := multiset(r), multiset(s);
    assert mr == ms by {
      forall y: nat
        ensures mr[y] == ms[y]
      {
      }
    }
    SortedUnique(r, s);
  }

  /** Adding a member back after removing it gives the coalition back. */
  lemma {:induction false} InsertRemove(k: seq<nat>, i: nat)
    requires StrictlySorted(k) && i in k
    ensures Insert(Remove(k, i), i) == k
  {
    NoDupCount(k, i);
    var m := multiset(k);
    var t := Insert(Remove(k, i), i);
    SortFacts(Remove(k, i) + [i]);
    assert multiset(t) == m[i := 0] + multiset{i};
    var mt: multiset<nat> := multiset(t);
    assert mt == m by {
      forall y: nat
        ensures mt[y] == m[y]
      {
      }
    }
    SortedUnique(t, k);
  }

  lemma {:induction false} RemoveAbsent(s: seq<nat>, x: nat)
    requires Sorted(s) && x !in s
    ensures Remove(s, x) == s
  {
    RemoveSorted(s, x);
    assert multiset(s)[x] == 0;
    var mr: multiset<nat>, ms: multiset<nat> := multiset(Remove(s, x)), multiset(s);
    assert mr == ms by {
      forall y: nat
        ensures mr[y] == ms[y]
      {
      }
    }
    SortedUnique(Remove(s, x), s);
  }

  /** numpy's delete(arange(n), k): every player except `k`. */
  function Others(n: nat, k: nat): seq<nat>
  {
    Remove(Range(n), k)
  }

  lemma {:induction false} RangeFacts(n: nat)
    ensures IsCoalition(Range(n), n)
    ensures forall x: nat :: x in Range(n) <==> x < n
  {
    forall x: nat | x < n
      ensures x in Range(n)
    {
      assert Range(n)[x] == x;
    }
  }

  /** The players other than `k` form a coalition of n - 1 players without `k`. */
  lemma {:induction false} OthersFacts(n: nat, k: nat)
    requires k < n
    ensures IsCoalition(Others(n, k), n)
    ensures k !in Others(n, k)
    ensures |Others(n, k)| == n - 1
    ensures forall x: nat :: x in Others(n, k) <==> x < n && x != k
    ensures Insert(Others(n, k), k) == Range(n)
  {
    RangeFacts(n);
    RemoveSorted(Range(n), k);
    RemoveMembers(Range(n), k);
    NoDupCount(Range(n), k);
    var m := multiset(Range(n));
    var o := Others(n, k);
    assert m == m[k := 0] + multiset{k} by {
      forall y: nat
        ensures m[y] == (m[k := 0] + multiset{k})[y]
      {
      }
    }
    assert |multiset(o)| + 1 == |m|;
    InsertRemove(Range(n), k);
  }

  /** A permutation of the players 0 .. n-1, as numpy's permutation(n) returns:
      n valid players, none repeated. */
  predicate IsPermutation(p: seq<nat>, n: nat)
  {
    |p| == n && (forall i :: 0 <= i < |p| ==> p[i] < n) && NoDup(p)
  }

  /** Entries of an ascending sequence grow by at least one per position. */
  lemma {:induction false} StrictGap(s: seq<nat>, i: nat, j: nat)
    requires StrictlySorted(s) && i <= j < |s|
    ensures s[j] - s[i] >= j - i
    decreases j - i
  {
    if i < j {
      StrictGap(s, i + 1, j);
    }
  }

  /** The only coalition of all n players is range(n). */
  lemma {:induction false} FullCoalition(s: seq<nat>, n: nat)
    requires IsCoalition(s, n) && |s| == n
    ensures s == Range(n)
  {
    forall i | 0 <= i < n
      ensures s[i] == i
    {
      StrictGap(s, 0, i);
      StrictGap(s, i, n - 1);
      assert s[n - 1] in s;
    }
  }

  lemma {:induction false} PermutationFacts(p: seq<nat>, n: nat)
    requires IsPermutation(p, n)
    ensures Below(p, n)
    ensures Sort(p) == Range(n)
    ensures multiset(p) == multiset(Range(n))
  {
    SortIsCoalition(p, n);
    FullCoalition(Sort(p), n);
    SortFacts(p);
  }

  /** Tuple comparison of Python: the first differing entry decides, a proper prefix is smaller. */
  predicate LexLess(a: seq<nat>, b: seq<nat>)
  {
    |b| > 0 && (|a| == 0 || a[0] < b[0] || (a[0] == b[0] && LexLess(a[1..], b[1..])))
  }

  /** The order of coalitions enumerated by increasing size, then lexicographically. */
  predicate SizeLexLess(a: seq<nat>, b: seq<nat>)
  {
    |a| < |b| || (|a| == |b| && LexLess(a, b))
  }

  lemma {:induction false} LexLessIrreflexive(a: seq<nat>)
    ensures !LexLess(a, a)
  {
    if |a| > 0 {
      LexLessIrreflexive(a[1..]);
    }
  }
}
