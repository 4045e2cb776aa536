/** Coalition enumeration as itertools.combinations produces it, and the
    factorial and binomial counts the Shapley densities are built from. */
module Combinatorics {
  import opened Seqs

  function Fact(n: nat): (r: nat)
    ensures r >= 1
  {
    if n == 0 then 1 else n * Fact(n - 1)
  }

  /** Pascal's rule; zero when k exceeds m. */
  function Binom(m: nat, k: nat): nat
  {
    if k == 0 then 1 else if m == 0 then 0 else Binom(m - 1, k - 1) + Binom(m - 1, k)
  }

  function Pow2(n: nat): (r: nat)
    ensures r >= 1
  {
    if n == 0 then 1 else 2 * Pow2(n - 1)
  }

  /** Prefixes every coalition of `cs` with the player `x`. */
  function Prepend(x: nat, cs: seq<seq<nat>>): (r: seq<seq<nat>>)
    ensures |r| == |cs|
    ensures forall i {:trigger r[i]} :: 0 <= i < |cs| ==> r[i] == [x] + cs[i]
  {
    if |cs| == 0 then [] else [[x] + cs[0]] + Prepend(x, cs[1..])
  }

  /** itertools.combinations(xs, k): the k-element sub-sequences of `xs`,
      those starting with xs[0] first. */
  function Combinations(xs: seq<nat>, k: nat): (r: seq<seq<nat>>)
    ensures |r| == Binom(|xs|, k)
    decreases |xs|
  {
    if k == 0 then [[]]
    else if |xs| == 0 then []
    else Prepend(xs[0], Combinations(xs[1..], k - 1)) + Combinations(xs[1..], k)
  }

  /** The sizes lo..hi enumerated in turn: the nested loop
      `for size in range(lo, hi + 1): for subset in combinations(xs, size)`. */
  function BySize(xs: seq<nat>, lo: nat, hi: int): seq<seq<nat>>
    decreases hi + 1 - lo
  {
    if lo > hi then [] else Combinations(xs, lo) + BySize(xs, lo + 1, hi)
  }

  /** Every sub-coalition of `xs`, the empty one first (the sampling loops of the estimators). */
  function AllSubsets(xs: seq<nat>): seq<seq<nat>>
  {
    BySize(xs, 0, |xs|)
  }

  /** The non-empty coalitions of `n` players in the order compute_SV lists them. */
  function NonEmptyCoalitions(n: nat): seq<seq<nat>>
  {
    BySize(Range(n), 1, n)
  }

  /** `c` draws its members from `xs`. */
  predicate Within(c: seq<nat>, xs: seq<nat>)
  {
    forall y :: y in c ==> y in xs
  }

  predicate LexOrdered(cs: seq<seq<nat>>)
  {
    forall i, j :: 0 <= i < j < |cs| ==> LexLess(cs[i], cs[j])
  }

  predicate SizeLexOrdered(cs: seq<seq<nat>>)
  {
    forall i, j :: 0 <= i < j < |cs| ==> SizeLexLess(cs[i], cs[j])
  }

  predicate Distinct(cs: seq<seq<nat>>)
  {
    forall i, j :: 0 <= i < j < |cs| ==> cs[i] != cs[j]
  }

  /** Facts about the tail of an ascending sequence. */
  lemma {:induction false} TailFacts(xs: seq<nat>)
    requires StrictlySorted(xs) && |xs| > 0
    ensures StrictlySorted(xs[1..])
    ensures forall y :: y in xs[1..] <==> y in xs && y != xs[0]
    ensures forall y :: y in xs ==> xs[0] <= y
  {
    forall y | y in xs
      ensures xs[0] <= y
      ensures y != xs[0] ==> y in xs[1..]
    {
      var m :| 0 <= m < |xs| && xs[m] == y;
      if m > 0 {
        assert xs[1..][m - 1] == y;
      }
    }
    forall y | y in xs[1..]
      ensures y in xs && y != xs[0]
    {
      var m :| 0 <= m < |xs| - 1 && xs[1..][m] == y;
      assert xs[m + 1] == y;
    }
  }

  lemma {:induction false} TailSorted(xs: seq<nat>)
    requires StrictlySorted(xs) && |xs| > 0
    ensures StrictlySorted(xs[1..])
  {
  }

  /** Prefixing a selection from the tail with the head gives a selection from the whole. */
  lemma {:induction false} ConsSelection(xs: seq<nat>, d: seq<nat>)
    requires StrictlySorted(xs) && |xs| > 0
    requires StrictlySorted(d) && Within(d, xs[1..])
    ensures StrictlySorted([xs[0]] + d) && Within([xs[0]] + d, xs)
  {
    TailFacts(xs);
    ConsSorted(xs[0], d);
  }

  /** Each entry of `cs` is an ascending selection of exactly k members of `xs`. */
  predicate Selections(cs: seq<seq<nat>>, xs: seq<nat>, k: nat)
  {
    forall i :: 0 <= i < |cs| ==> StrictlySorted(cs[i]) && |cs[i]| == k && Within(cs[i], xs)
  }

  lemma {:induction false} PrependSelections(xs: seq<nat>, cs: seq<seq<nat>>, k: nat)
    requires StrictlySorted(xs) && |xs| > 0 && k > 0
    requires Selections(cs, xs[1..], k - 1)
    ensures Selections(Prepend(xs[0], cs), xs, k)
  {
    var p := Prepend(xs[0], cs);
    forall i | 0 <= i < |p|
      ensures StrictlySorted(p[i]) && |p[i]| == k && Within(p[i], xs)
    {
      ConsSelection(xs, cs[i]);
    }
  }

  lemma {:induction false} WidenSelections(xs: seq<nat>, cs: seq<seq<nat>>, k: nat)
    requires StrictlySorted(xs) && |xs| > 0
    requires Selections(cs, xs[1..], k)
    ensures Selections(cs, xs, k)
  {
    TailFacts(xs);
    forall i | 0 <= i < |cs|
      ensures Within(cs[i], xs)
    {
      assert Within(cs[i], xs[1..]);
    }
  }

  /** Every combination is an ascending selection of exactly k members of `xs`. */
  lemma {:induction false} CombinationsSound(xs: seq<nat>, k: nat)
    requires StrictlySorted(xs)
    ensures Selections(Combinations(xs, k), xs, k)
    decreases |xs|
  {
    if k > 0 && |xs| > 0 {
      var rest := xs[1..];
      TailFacts(xs);
      CombinationsSound(rest, k - 1);
      CombinationsSound(rest, k);
      var p := Prepend(xs[0], Combinations(rest, k - 1));
      var q := Combinations(rest, k);
      PrependSelections(xs, Combinations(rest, k - 1), k);
      WidenSelections(xs, q, k);
      assert Combinations(xs, k) == p + q;
    }
  }

  /** Every combination has exactly k members, whatever the order of `xs`. */
  lemma {:induction false} CombinationsSized(xs: seq<nat>, k: nat)
    ensures forall i :: 0 <= i < |Combinations(xs, k)| ==> |Combinations(xs, k)[i]| == k
    decreases |xs|
  {
    if k > 0 && |xs| > 0 {
      var rest := xs[1..];
      CombinationsSized(rest, k - 1);
      CombinationsSized(rest, k);
      var p := Prepend(xs[0], Combinations(rest, k - 1));
      assert Combinations(xs, k) == p + Combinations(rest, k);
    }
  }

  /** Membership form of CombinationsSound. */
  lemma {:induction false} CombinationMember(xs: seq<nat>, k: nat, c: seq<nat>)
    requires StrictlySorted(xs) && c in Combinations(xs, k)
    ensures StrictlySorted(c) && |c| == k && Within(c, xs)
  {
    CombinationsSound(xs, k);
  }

  /** Every ascending selection of k members of `xs` is enumerated. */
  lemma {:induction false} CombinationsComplete(xs: seq<nat>, k: nat, c: seq<nat>)
    requires StrictlySorted(xs) && StrictlySorted(c) && |c| == k && Within(c, xs)
    ensures c in Combinations(xs, k)
    decreases |xs|
  {
    if k > 0 {
      assert c[0] in c;
      var rest := xs[1..];
      TailFacts(xs);
      TailFacts(c);
      if c[0] == xs[0] {
        var d := c[1..];
        CombinationsComplete(rest, k - 1, d);
        var cs := Combinations(rest, k - 1);
        var i :| 0 <= i < |cs| && cs[i] == d;
        assert c == [xs[0]] + d;
        assert Prepend(xs[0], cs)[i] == c;
      } else {
        assert forall y :: y in c ==> xs[0] < y;
        CombinationsComplete(rest, k, c);
      }
    }
  }

  lemma {:induction false} LexLessPrepend(x: nat, a: seq<nat>, b: seq<nat>)
    ensures LexLess([x] + a, [x] + b) <==> LexLess(a, b)
  {
    assert ([x] + a)[1..] == a;
    assert ([x] + b)[1..] == b;
  }

  /** Two ordered lists whose every cross pair is ordered concatenate to an ordered list. */
  lemma {:induction false} LexOrderedConcat(p: seq<seq<nat>>, q: seq<seq<nat>>)
    requires LexOrdered(p) && LexOrdered(q)
    requires forall i, j :: 0 <= i < |p| && 0 <= j < |q| ==> LexLess(p[i], q[j])
    ensures LexOrdered(p + q)
  {
    var r := p + q;
    forall i, j | 0 <= i < j < |r|
      ensures LexLess(r[i], r[j])
    {
      if j < |p| {
        assert r[i] == p[i] && r[j] == p[j];
      } else if i < |p| {
        assert r[i] == p[i] && r[j] == q[j - |p|];
      } else {
        assert r[i] == q[i - |p|] && r[j] == q[j - |p|];
      }
    }
  }

  /** Prefixing every entry with the same player keeps the order. */
  lemma {:induction false} PrependOrdered(x: nat, cs: seq<seq<nat>>)
    requires LexOrdered(cs)
    ensures LexOrdered(Prepend(x, cs))
  {
    var p := Prepend(x, cs);
    forall i, j | 0 <= i < j < |p|
      ensures LexLess(p[i], p[j])
    {
      LexLessPrepend(x, cs[i], cs[j]);
    }
  }

  /** The selections that start with the head come before those drawn from the tail alone. */
  lemma {:induction false} HeadFirst(xs: seq<nat>, cs: seq<seq<nat>>, q: seq<seq<nat>>, k: nat)
    requires StrictlySorted(xs) && |xs| > 0 && k > 0
    requires Selections(q, xs[1..], k)
    ensures forall i, j :: 0 <= i < |Prepend(xs[0], cs)| && 0 <= j < |q| ==> LexLess(Prepend(xs[0], cs)[i], q[j])
  {
    var p := Prepend(xs[0], cs);
    TailFacts(xs);
    forall i, j | 0 <= i < |p| && 0 <= j < |q|
      ensures LexLess(p[i], q[j])
    {
      assert q[j][0] in q[j];
      assert q[j][0] in xs[1..];
      assert p[i][0] == xs[0];
    }
  }

  /** The combinations of an ascending sequence come out in strictly increasing lexicographic order. */
  lemma {:induction false} CombinationsOrdered(xs: seq<nat>, k: nat)
    requires StrictlySorted(xs)
    ensures LexOrdered(Combinations(xs, k))
    decreases |xs|
  {
    if k > 0 && |xs| > 0 {
      var rest := xs[1..];
      TailSorted(xs);
      var c1 := Combinations(rest, k - 1);
      var q := Combinations(rest, k);
      CombinationsOrdered(rest, k - 1);
      CombinationsOrdered(rest, k);
      CombinationsSound(rest, k);
      PrependOrdered(xs[0], c1);
      HeadFirst(xs, c1, q, k);
      LexOrderedConcat(Prepend(xs[0], c1), q);
    }
  }

  /** Membership in the size-by-size enumeration. */
  lemma {:induction false} BySizeMembers(xs: seq<nat>, lo: nat, hi: int)
    requires StrictlySorted(xs)
    ensures forall c :: c in BySize(xs, lo, hi) <==>
      StrictlySorted(c) && Within(c, xs) && lo <= |c| <= hi
    decreases hi + 1 - lo
  {
    if lo <= hi {
      BySizeMembers(xs, lo + 1, hi);
      var p := Combinations(xs, lo);
      forall c
        ensures c in p <==> StrictlySorted(c) && Within(c, xs) && lo == |c|
      {
        if c in p {
          CombinationMember(xs, lo, c);
        }
        if StrictlySorted(c) && Within(c, xs) && lo == |c| {
          CombinationsComplete(xs, lo, c);
        }
      }
      assert BySize(xs, lo, hi) == p + BySize(xs, lo + 1, hi);
    }
  }

  /** The size-by-size enumeration is ordered by size, then lexicographically. */
  lemma {:induction false} BySizeOrdered(xs: seq<nat>, lo: nat, hi: int)
    requires StrictlySorted(xs)
    ensures SizeLexOrdered(BySize(xs, lo, hi))
    decreases hi + 1 - lo
  {
    if lo <= hi {
      var p := Combinations(xs, lo);
      var q := BySize(xs, lo + 1, hi);
      BySizeOrdered(xs, lo + 1, hi);
      CombinationsOrdered(xs, lo);
      CombinationsSound(xs, lo);
      BySizeMembers(xs, lo + 1, hi);
      var r := p + q;
      forall i, j | 0 <= i < j < |r|
        ensures SizeLexLess(r[i], r[j])
      {
        if j < |p| {
          assert r[i] == p[i] && r[j] == p[j];
          assert |p[i]| == lo && |p[j]| == lo;
        } else if i < |p| {
          assert r[i] == p[i] && r[j] == q[j - |p|];
          assert |p[i]| == lo && q[j - |p|] in q;
        } else {
          assert r[i] == q[i - |p|] && r[j] == q[j - |p|];
        }
      }
    }
  }

  lemma {:induction false} OrderedDistinct(cs: seq<seq<nat>>)
    requires SizeLexOrdered(cs)
    ensures Distinct(cs)
  {
    forall i, j | 0 <= i < j < |cs|
      ensures cs[i] != cs[j]
    {
      LexLessIrreflexive(cs[i]);
    }
  }

  /** Sum of Binom(m, k) for k = lo..hi. */
  function BinomSum(m: nat, lo: nat, hi: int): nat
    decreases hi + 1 - lo
  {
    if lo > hi then 0 else Binom(m, lo) + BinomSum(m, lo + 1, hi)
  }

  lemma {:induction false} BySizeCount(xs: seq<nat>, lo: nat, hi: int)
    ensures |BySize(xs, lo, hi)| == BinomSum(|xs|, lo, hi)
    decreases hi + 1 - lo
  {
    if lo <= hi {
      BySizeCount(xs, lo + 1, hi);
    }
  }

  lemma {:induction false} BinomBeyond(m: nat, k: nat)
    requires k > m
    ensures Binom(m, k) == 0
  {
    if m > 0 {
      BinomBeyond(m - 1, k - 1);
      BinomBeyond(m - 1, k);
    }
  }

  lemma {:induction false} BinomSumPascal(m: nat, lo: nat, hi: int)
    requires 1 <= lo <= hi + 1
    ensures BinomSum(m + 1, lo, hi) == BinomSum(m, lo - 1, hi - 1) + BinomSum(m, lo, hi)
    decreases hi + 1 - lo
  {
    if lo <= hi {
      BinomSumPascal(m, lo + 1, hi);
    }
  }

  lemma {:induction false} BinomSumPastTop(m: nat, lo: nat, hi: int)
    requires hi > m
    ensures BinomSum(m, lo, hi) == BinomSum(m, lo, hi - 1)
    decreases hi + 1 - lo
  {
    if lo <= hi - 1 {
      BinomSumPastTop(m, lo + 1, hi);
    } else if lo == hi {
      BinomBeyond(m, hi);
    }
  }

  /** The binomial coefficients of m sum to 2^m. */
  lemma {:induction false} BinomSumPow2(m: nat)
    ensures BinomSum(m, 0, m) == Pow2(m)
  {
    if m > 0 {
      var p := m - 1;
      BinomSumPow2(p);
      BinomSumPascal(p, 1, m);
      BinomSumPastTop(p, 1, m);
      assert BinomSum(m, 0, m) == 1 + BinomSum(m, 1, m);
      assert BinomSum(p, 0, m) == 1 + BinomSum(p, 1, m);
      BinomSumPastTop(p, 0, m);
    }
  }

  /** compute_SV lists each of the 2^n - 1 non-empty coalitions exactly once, each in
      canonical form, ordered by size and then lexicographically. */
  lemma {:induction false} NonEmptyCoalitionsEnumerated(n: nat)
    ensures forall c :: c in NonEmptyCoalitions(n) <==> IsCoalition(c, n) && |c| > 0
    ensures SizeLexOrdered(NonEmptyCoalitions(n)) && Distinct(NonEmptyCoalitions(n))
    ensures |NonEmptyCoalitions(n)| == Pow2(n) - 1
  {
    RangeFacts(n);
    BySizeMembers(Range(n), 1, n);
    forall c
      ensures c in NonEmptyCoalitions(n) <==> IsCoalition(c, n) && |c| > 0
    {
      if IsCoalition(c, n) && |c| > 0 {
        forall y | y in c
          ensures y in Range(n)
        {
        }
        assert |c| <= n by {
          CoalitionSize(c, n);
        }
      }
    }
    BySizeOrdered(Range(n), 1, n);
    OrderedDistinct(NonEmptyCoalitions(n));
    BySizeCount(Range(n), 1, n);
    BinomSumPow2(n);
    assert BinomSum(n, 0, n) == 1 + BinomSum(n, 1, n);
  }

  /** A coalition of n players has at most n members. */
  lemma {:induction false} CoalitionSize(c: seq<nat>, n: nat)
    requires IsCoalition(c, n)
    ensures |c| <= n
  {
    if |c| > 0 {
      forall i | 0 <= i < |c|
        ensures c[i] >= i
      {
        CoalitionEntryLower(c, i);
      }
      assert c[|c| - 1] in c;
    }
  }

  lemma {:induction false} CoalitionEntryLower(c: seq<nat>, i: nat)
    requires StrictlySorted(c) && i < |c|
    ensures c[i] >= i
  {
    if i > 0 {
      CoalitionEntryLower(c, i - 1);
    }
  }

  /** The arithmetic step of Pascal's rule on the factorial form. */
  lemma {:induction false} PascalArith(b1: int, b2: int, k: int, m: int, f1: int, f2: int, fk: int, fmk: int, fp: int)
    requires fk == k * f1 && fmk == (m - k) * f2
    requires b1 * f1 * fmk == fp && b2 * fk * f2 == fp
    ensures (b1 + b2) * fk * fmk == m * fp
  {
    assert (b1 + b2) * fk * fmk == b1 * fk * fmk + b2 * fk * fmk;
    assert b1 * fk * fmk == k * (b1 * f1 * fmk);
    assert b2 * fk * fmk == (m - k) * (b2 * fk * f2);
  }

  /** Binom(m, k) * k! * (m - k)! == m! */
  lemma {:induction false} BinomFactorial(m: nat, k: nat)
    requires k <= m
    ensures Binom(m, k) * Fact(k) * Fact(m - k) == Fact(m)
  {
    if m > 0 && k > 0 {
      var p := m - 1;
      if k == m {
        BinomFactorial(p, p);
        BinomBeyond(p, m);
        assert Binom(p, p) * Fact(p) == Fact(p);
        assert Binom(p, p) == 1;
      } else {
        BinomFactorial(p, k - 1);
        BinomFactorial(p, k);
        assert p - (k - 1) == m - k;
        assert Fact(m - k) == (m - k) * Fact(p - k) by {
          assert m - k == (p - k) + 1;
        }
        PascalArith(Binom(p, k - 1), Binom(p, k), k, m, Fact(k - 1), Fact(p - k),
                    Fact(k), Fact(m - k), Fact(p));
      }
    }
  }
}
