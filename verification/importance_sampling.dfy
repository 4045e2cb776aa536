/** IS_lin: importance sampling of the coalition a player joins. The Shapley density
    prob(S) is reweighted by a linear surrogate of the increment, interpolating between
    the player's first increment v({k}) and its last v(N) - v(N \ {k}) by the share of the
    training data S holds; a coalition is drawn by inverting the cumulative weight, and the
    observed increment is corrected by the ratio of the two densities. */
module ImportanceSampling {
  import opened Wrappers
  import opened Seqs
  import opened Cache
  import opened Combinatorics
  import opened Matrix

  /** a b / c on naturals, as a real. */
  function Ratio(a: nat, b: nat, c: nat): real
    requires c > 0
  {
    (a as real) * (b as real) / (c as real)
  }

  /** prob(S): the Shapley weight (n - 1 - |S|)! |S|! / n! of a coalition of size s that
      leaves the player out. */
  function Prob(n: nat, s: nat): (r: real)
    requires s < n
    ensures r > 0.0
  {
    Ratio(Fact(n - 1 - s), Fact(s), Fact(n))
  }

  /** Every listed coalition leaves at least one of the n players out. */
  predicate SizesBelow(cs: seq<seq<nat>>, n: nat)
  {
    forall i :: 0 <= i < |cs| ==> |cs[i]| < n
  }

  /** prob of each coalition of the list, in order. */
  function SizeProbs(n: nat, cs: seq<seq<nat>>): (r: seq<real>)
    requires SizesBelow(cs, n)
    ensures |r| == |cs| && forall i :: 0 <= i < |cs| ==> r[i] == Prob(n, |cs[i]|)
  {
    seq(|cs|, i requires 0 <= i < |cs| => Prob(n, |cs[i]|))
  }

  /** ProbShare on plain reals: b f1 f2 = (n - 1)! and n! = n (n - 1)!. */
  lemma {:induction false} ProbShareArith(b: real, f1: real, f2: real, fm: real, fn: real, n: real)
    requires b * f1 * f2 == fm && fn == n * fm && fm > 0.0 && n > 0.0
    ensures b * (f1 * f2 / fn) == 1.0 / n
  {
    calc {
      b * (f1 * f2 / fn);
      (b * f1 * f2) / fn;
      fm / (n * fm);
    }
  }

  /** ProbShare on plain naturals. */
  lemma {:induction false} ProbShareNat(b: nat, f1: nat, f2: nat, fm: nat, fn: nat, n: nat)
    requires b * f2 * f1 == fm && fn == n * fm && fm > 0 && n > 0
    ensures (b as real) * Ratio(f1, f2, fn) == 1.0 / (n as real)
  {
    assert b * f1 * f2 == fm;
    CastProduct3(b, f1, f2);
    CastProduct2(n, fm);
    ProbShareArith(b as real, f1 as real, f2 as real, fm as real, fn as real, n as real);
  }

  lemma {:induction false} FactStep(n: nat)
    requires n > 0
    ensures Fact(n) == n * Fact(n - 1)
  {
  }

  /** The C(n - 1, s) coalitions of size s together carry weight 1 / n. */
  lemma {:induction false} ProbShare(n: nat, s: nat)
    requires s < n
    ensures (Binom(n - 1, s) as real) * Prob(n, s) == 1.0 / (n as real)
  {
    var b, f1, f2, fn := Binom(n - 1, s), Fact(n - 1 - s), Fact(s), Fact(n);
    assert (b as real) * Ratio(f1, f2, fn) == 1.0 / (n as real) by {
      BinomFactorial(n - 1, s);
      FactStep(n);
      ProbShareNat(b, f1, f2, Fact(n - 1), fn, n);
    }
  }

  lemma {:induction false} CastProduct2(a: nat, b: nat)
    ensures (a * b) as real == (a as real) * (b as real)
  {
  }

  lemma {:induction false} CastProduct3(a: nat, b: nat, c: nat)
    ensures (a * b * c) as real == (a as real) * (b as real) * (c as real)
  {
    CastProduct2(a, b);
    CastProduct2(a * b, c);
  }

  /** The weights of one size add up to 1 / n. */
  lemma {:induction false} CombinationsProb(xs: seq<nat>, n: nat, s: nat)
    requires |xs| + 1 == n && s < n
    ensures SizesBelow(Combinations(xs, s), n)
    ensures Sum(SizeProbs(n, Combinations(xs, s))) == 1.0 / (n as real)
  {
    CombinationsSized(xs, s);
    SameSizeProbs(n, Combinations(xs, s), s);
    SizeShare(n, s, SizeProbs(n, Combinations(xs, s)));
  }

  /** C(n - 1, s) weights of size s add up to 1 / n. */
  lemma {:induction false} SizeShare(n: nat, s: nat, ps: seq<real>)
    requires s < n && |ps| == Binom(n - 1, s) && forall t :: 0 <= t < |ps| ==> ps[t] == Prob(n, s)
    ensures Sum(ps) == 1.0 / (n as real)
  {
    ProbShare(n, s);
    ConstantShare(ps, Prob(n, s), Binom(n - 1, s), 1.0 / (n as real));
  }

  /** Coalitions of one size all carry the same weight. */
  lemma {:induction false} SameSizeProbs(n: nat, cs: seq<seq<nat>>, s: nat)
    requires s < n && forall i :: 0 <= i < |cs| ==> |cs[i]| == s
    ensures SizesBelow(cs, n)
    ensures forall t :: 0 <= t < |SizeProbs(n, cs)| ==> SizeProbs(n, cs)[t] == Prob(n, s)
  {
  }

  /** m equal terms p add up to m p. */
  lemma {:induction false} ConstantShare(ps: seq<real>, p: real, m: nat, q: real)
    requires |ps| == m && (forall t :: 0 <= t < |ps| ==> ps[t] == p) && (m as real) * p == q
    ensures Sum(ps) == q
  {
    SumConstant(ps, p);
  }

  lemma {:induction false} SizeProbsConcat(n: nat, a: seq<seq<nat>>, b: seq<seq<nat>>)
    requires SizesBelow(a, n) && SizesBelow(b, n)
    ensures SizesBelow(a + b, n)
    ensures SizeProbs(n, a + b) == SizeProbs(n, a) + SizeProbs(n, b)
  {
  }

  /** A block adding up to x followed by blocks adding up to m x adds up to (m + 1) x. */
  lemma {:induction false} BlockStep(pa: seq<real>, pb: seq<real>, m: nat, x: real)
    requires Sum(pa) == x && Sum(pb) == Times(m, x)
    ensures Sum(pa + pb) == Times(m + 1, x)
  {
    SumConcat(pa, pb);
  }

  /** The sizes lo..hi together carry weight (hi + 1 - lo) / n. */
  lemma {:induction false} BySizeProb(xs: seq<nat>, n: nat, lo: nat, hi: int)
    requires |xs| + 1 == n && hi < n && lo <= hi + 1
    ensures SizesBelow(BySize(xs, lo, hi), n)
    ensures Sum(SizeProbs(n, BySize(xs, lo, hi))) == Times(hi + 1 - lo, 1.0 / (n as real))
    decreases hi + 1 - lo
  {
    if lo <= hi {
      BySizeProb(xs, n, lo + 1, hi);
      BySizeStep(xs, n, lo, hi);
    } else {
      BySizeNone(xs, n, lo, hi);
    }
  }

  lemma {:induction false} BySizeNone(xs: seq<nat>, n: nat, lo: nat, hi: int)
    requires lo == hi + 1 && n > 0
    ensures SizesBelow(BySize(xs, lo, hi), n)
    ensures Sum(SizeProbs(n, BySize(xs, lo, hi))) == Times(hi + 1 - lo, 1.0 / (n as real))
  {
    assert BySize(xs, lo, hi) == [];
  }

  /** One size more: the block of size lo in front of the sizes lo + 1..hi. */
  lemma {:induction false} BySizeStep(xs: seq<nat>, n: nat, lo: nat, hi: int)
    requires |xs| + 1 == n && hi < n && lo <= hi
    requires SizesBelow(BySize(xs, lo + 1, hi), n)
    requires Sum(SizeProbs(n, BySize(xs, lo + 1, hi))) == Times(hi - lo, 1.0 / (n as real))
    ensures SizesBelow(BySize(xs, lo, hi), n)
    ensures Sum(SizeProbs(n, BySize(xs, lo, hi))) == Times(hi + 1 - lo, 1.0 / (n as real))
  {
    CombinationsProb(xs, n, lo);
    BlockSum(n, Combinations(xs, lo), BySize(xs, lo + 1, hi), hi - lo);
  }

  /** A block of weight 1 / n in front of blocks of weight m / n. */
  lemma {:induction false} BlockSum(n: nat, p: seq<seq<nat>>, q: seq<seq<nat>>, m: nat)
    requires n > 0 && SizesBelow(p, n) && SizesBelow(q, n)
    requires Sum(SizeProbs(n, p)) == 1.0 / (n as real)
    requires Sum(SizeProbs(n, q)) == Times(m, 1.0 / (n as real))
    ensures SizesBelow(p + q, n)
    ensures Sum(SizeProbs(n, p + q)) == Times(m + 1, 1.0 / (n as real))
  {
    SizeProbsConcat(n, p, q);
    BlockStep(SizeProbs(n, p), SizeProbs(n, q), m, 1.0 / (n as real));
  }

  /** The candidate coalitions for player k: every subset of the others, in the order of
      the sampling loops (by size, then lexicographically). */
  function Candidates(n: nat, k: nat): seq<seq<nat>>
  {
    AllSubsets(Others(n, k))
  }

  /** The candidates are exactly the coalitions that leave player k out. */
  lemma {:induction false} CandidateMember(n: nat, k: nat, c: seq<nat>)
    requires k < n
    ensures c in Candidates(n, k) <==> IsCoalition(c, n) && k !in c
  {
    var xs := Others(n, k);
    OthersFacts(n, k);
    BySizeMembers(xs, 0, |xs|);
    if IsCoalition(c, n) && k !in c {
      assert Within(c, xs);
      CoalitionSize(c, n);
      FullContains(c, n, k);
    }
  }

  /** Each listed candidate is a coalition without k, so it has fewer than n members. */
  lemma {:induction false} CandidatesFacts(n: nat, k: nat)
    requires k < n
    ensures forall i :: 0 <= i < |Candidates(n, k)| ==>
      IsCoalition(Candidates(n, k)[i], n) && k !in Candidates(n, k)[i] && |Candidates(n, k)[i]| < n
  {
    forall i | 0 <= i < |Candidates(n, k)|
      ensures IsCoalition(Candidates(n, k)[i], n) && k !in Candidates(n, k)[i] && |Candidates(n, k)[i]| < n
    {
      var c := Candidates(n, k)[i];
      CandidateMember(n, k, c);
      CoalitionSize(c, n);
      FullContains(c, n, k);
    }
  }

  /** A coalition of all n players contains each of them. */
  lemma {:induction false} FullContains(c: seq<nat>, n: nat, k: nat)
    requires IsCoalition(c, n) && k < n
    ensures |c| == n ==> k in c
  {
    if |c| == n {
      FullCoalition(c, n);
      assert c[k] == k;
    }
  }

  /** prob sums to one over the coalitions a player can join. */
  lemma {:induction false} ProbSum(n: nat, k: nat)
    requires k < n
    ensures SizesBelow(Candidates(n, k), n)
    ensures Sum(SizeProbs(n, Candidates(n, k))) == 1.0
  {
    var xs := Others(n, k);
    var a := Sum(SizeProbs(n, BySize(xs, 0, n - 1))) by {
      OthersFacts(n, k);
      BySizeProb(xs, n, 0, n - 1);
    }
    assert a == Times(n, 1.0 / (n as real)) by {
      OthersFacts(n, k);
      BySizeProb(xs, n, 0, n - 1);
    }
    WholeShare(a, n);
    OthersFacts(n, k);
    assert Candidates(n, k) == BySize(xs, 0, n - 1);
  }

  /** n shares of 1 / n make one. */
  lemma {:induction false} WholeShare(a: real, n: nat)
    requires n > 0 && a == Times(n, 1.0 / (n as real))
    ensures a == 1.0
  {
    TimesIsProduct(n, 1.0 / (n as real));
  }

  /** ||S||: the number of training samples held by the players of S. */
  function SizeOf(sizes: seq<nat>, s: seq<nat>): nat
    requires Below(s, |sizes|)
  {
    if |s| == 0 then 0
    else
      PrefixBelow(s, |sizes|);
      SizeOf(sizes, s[..|s| - 1]) + sizes[s[|s| - 1]]
  }

  lemma {:induction false} PrefixBelow(s: seq<nat>, n: nat)
    requires Below(s, n) && |s| > 0
    ensures Below(s[..|s| - 1], n) && s[|s| - 1] < n
  {
    var p := s[..|s| - 1];
    forall x | x in p
      ensures x < n
    {
      assert x in s;
    }
    assert s[|s| - 1] in s;
  }

  /** The samples of the first m players; size_of_I is PrefixSize(sizes, |sizes|). */
  function PrefixSize(sizes: seq<nat>, m: nat): nat
    requires m <= |sizes|
  {
    if m == 0 then 0 else PrefixSize(sizes, m - 1) + sizes[m - 1]
  }

  function TotalSize(sizes: seq<nat>): nat
  {
    PrefixSize(sizes, |sizes|)
  }

  /** size_of_I is the size of the grand coalition. */
  lemma {:induction false} SizeOfRange(sizes: seq<nat>, m: nat)
    requires m <= |sizes|
    ensures Below(Range(m), |sizes|)
    ensures SizeOf(sizes, Range(m)) == PrefixSize(sizes, m)
  {
    if m > 0 {
      SizeOfRange(sizes, m - 1);
      assert Range(m)[..m - 1] == Range(m - 1);
    }
  }

  lemma {:induction false} PrefixMonotone(sizes: seq<nat>, a: nat, b: nat)
    requires a <= b <= |sizes|
    ensures PrefixSize(sizes, a) <= PrefixSize(sizes, b)
    decreases b - a
  {
    if a < b {
      PrefixMonotone(sizes, a, b - 1);
    }
  }

  /** A coalition of the first m players holds at most their samples. */
  lemma {:induction false} SizeBound(sizes: seq<nat>, s: seq<nat>, m: nat)
    requires StrictlySorted(s) && m <= |sizes| && forall x :: x in s ==> x < m
    ensures Below(s, |sizes|) && SizeOf(sizes, s) <= PrefixSize(sizes, m)
    decreases |s|
  {
    if |s| > 0 {
      var x := s[|s| - 1];
      var init := s[..|s| - 1];
      assert x in s;
      forall y | y in init
        ensures y < x
      {
        var i :| 0 <= i < |init| && init[i] == y;
        assert s[i] == y;
      }
      SizeBound(sizes, init, x);
      PrefixMonotone(sizes, x + 1, m);
    }
  }

  /** beta = ||S|| / ||I||, the share of the training data that S holds. */
  function Share(sizes: seq<nat>, s: seq<nat>): real
    requires Below(s, |sizes|) && TotalSize(sizes) > 0
  {
    (SizeOf(sizes, s) as real) / (TotalSize(sizes) as real)
  }

  /** beta lies in [0, 1] for every coalition. */
  lemma {:induction false} ShareBounds(sizes: seq<nat>, s: seq<nat>)
    requires IsCoalition(s, |sizes|) && TotalSize(sizes) > 0
    ensures 0.0 <= Share(sizes, s) <= 1.0
  {
    SizeBound(sizes, s, |sizes|);
    FractionBounds(SizeOf(sizes, s), TotalSize(sizes));
  }

  lemma {:induction false} FractionBounds(a: nat, b: nat)
    requires a <= b && b > 0
    ensures 0.0 <= (a as real) / (b as real) <= 1.0
  {
  }

  /** The boundary increments of every player and the sizes of their datasets:
      firsts[k] = v({k}) - v({}), lasts[k] = v(N) - v(N \ {k}). */
  datatype Surrogate = Surrogate(firsts: seq<real>, lasts: seq<real>, sizes: seq<nat>)
  {
    function Players(): nat
    {
      |sizes|
    }

    predicate Ready()
    {
      |firsts| == |sizes| && |lasts| == |sizes| && TotalSize(sizes) > 0
    }
  }

  /** approx_increment(S, k): the first increment and the last, mixed by S's share of the data.
      Player k must not be in S (the source asserts it). */
  function Approx(sg: Surrogate, s: seq<nat>, k: nat): real
    requires sg.Ready() && k < sg.Players() && Below(s, sg.Players()) && k !in s
  {
    var beta := Share(sg.sizes, s);
    (1.0 - beta) * sg.firsts[k] + beta * sg.lasts[k]
  }

  /** A point of the segment between a and b. */
  lemma {:induction false} Convex(a: real, b: real, beta: real)
    requires 0.0 <= beta <= 1.0
    ensures Min(a, b) <= (1.0 - beta) * a + beta * b <= Max(a, b)
  {
    var x := (1.0 - beta) * a + beta * b;
    assert x == a + beta * (b - a);
    if a <= b {
      ScaleDown(beta, b - a);
    } else {
      ScaleDown(beta, a - b);
      assert beta * (b - a) == -(beta * (a - b));
    }
  }

  lemma {:induction false} ScaleDown(beta: real, d: real)
    requires 0.0 <= beta <= 1.0 && d >= 0.0
    ensures 0.0 <= beta * d <= d
  {
    assert d - beta * d == (1.0 - beta) * d;
  }

  /** The surrogate of an increment lies between the player's first and last increments. */
  lemma {:induction false} ApproxBetween(sg: Surrogate, s: seq<nat>, k: nat)
    requires sg.Ready() && k < sg.Players() && IsCoalition(s, sg.Players()) && k !in s
    ensures Min(sg.firsts[k], sg.lasts[k]) <= Approx(sg, s, k) <= Max(sg.firsts[k], sg.lasts[k])
  {
    ShareBounds(sg.sizes, s);
    Convex(sg.firsts[k], sg.lasts[k], Share(sg.sizes, s));
  }

  /** On the empty coalition the surrogate is exactly the first increment. */
  lemma {:induction false} ApproxEmpty(sg: Surrogate, k: nat)
    requires sg.Ready() && k < sg.Players()
    ensures Approx(sg, [], k) == sg.firsts[k]
  {
    assert SizeOf(sg.sizes, []) == 0;
  }

  /** Coalitions a player can join: canonical, without the player, not the whole team. */
  predicate Joinable(cs: seq<seq<nat>>, n: nat, k: nat)
  {
    forall i :: 0 <= i < |cs| ==> IsCoalition(cs[i], n) && k !in cs[i] && |cs[i]| < n
  }

  /** prob(S) |approx_increment(S, k)|: the unnormalised importance density. */
  function Weights(sg: Surrogate, k: nat, cs: seq<seq<nat>>): (r: seq<real>)
    requires sg.Ready() && k < sg.Players() && Joinable(cs, sg.Players(), k)
    ensures |r| == |cs|
    ensures forall i :: 0 <= i < |cs| ==> r[i] >= 0.0
  {
    seq(|cs|, i requires 0 <= i < |cs| => Prob(sg.Players(), |cs[i]|) * Abs(Approx(sg, cs[i], k)))
  }

  /** renorms[k]: the total weight over the coalitions player k can join. */
  function Renorm(sg: Surrogate, k: nat): real
    requires sg.Ready() && k < sg.Players()
  {
    CandidatesFacts(sg.Players(), k);
    Sum(Weights(sg, k, Candidates(sg.Players(), k)))
  }

  /** The renormalisation constant is a sum of non-negative weights. */
  lemma {:induction false} RenormNonNegative(sg: Surrogate, k: nat)
    requires sg.Ready() && k < sg.Players()
    ensures Renorm(sg, k) >= 0.0
  {
    CandidatesFacts(sg.Players(), k);
    SumNonNegative(Weights(sg, k, Candidates(sg.Players(), k)));
  }

  lemma {:induction false} SumNonNegative(ws: seq<real>)
    requires forall i :: 0 <= i < |ws| ==> ws[i] >= 0.0
    ensures Sum(ws) >= 0.0
  {
    if |ws| > 0 {
      SumNonNegative(ws[..|ws| - 1]);
    }
  }

  /** The inverse-CDF draw: walk the weights in order and stop at the first entry whose
      cumulative weight, divided by renorm, exceeds u. */
  function Draw(ws: seq<real>, renorm: real, u: real, j: nat, cum: real): (r: Option<nat>)
    requires renorm != 0.0 && j <= |ws|
    ensures r.Some? ==> j <= r.value < |ws|
    decreases |ws| - j
  {
    if j == |ws| then None
    else if (cum + ws[j]) / renorm > u then Some(j)
    else Draw(ws, renorm, u, j + 1, cum + ws[j])
  }

  /** The cumulative weight up to and including entry i exceeds u renorm. */
  predicate Crosses(ws: seq<real>, renorm: real, u: real, i: nat)
    requires renorm != 0.0 && i < |ws|
  {
    Sum(ws[..i + 1]) / renorm > u
  }

  /** r is the first crossing at or after j, None when there is none. */
  predicate FirstCrossing(ws: seq<real>, renorm: real, u: real, j: nat, r: Option<nat>)
    requires renorm != 0.0
  {
    match r
    case Some(i) => j <= i < |ws| && Crosses(ws, renorm, u, i) &&
      forall m :: j <= m < i ==> !Crosses(ws, renorm, u, m)
    case None => forall m :: j <= m < |ws| ==> !Crosses(ws, renorm, u, m)
  }

  lemma {:induction false} PrefixSumStep(ws: seq<real>, i: nat)
    requires i < |ws|
    ensures Sum(ws[..i + 1]) == Sum(ws[..i]) + ws[i]
  {
    assert ws[..i + 1][..i] == ws[..i];
  }

  /** Draw finds the first crossing. */
  lemma {:induction false} DrawFirst(ws: seq<real>, renorm: real, u: real, j: nat, cum: real)
    requires renorm != 0.0 && j <= |ws| && cum == Sum(ws[..j])
    ensures FirstCrossing(ws, renorm, u, j, Draw(ws, renorm, u, j, cum))
    decreases |ws| - j
  {
    if j < |ws| {
      PrefixSumStep(ws, j);
      DrawFirst(ws, renorm, u, j + 1, cum + ws[j]);
    }
  }

  lemma {:induction false} SumPrefixMonotone(ws: seq<real>, a: nat, b: nat)
    requires a <= b <= |ws| && forall i :: 0 <= i < |ws| ==> ws[i] >= 0.0
    ensures Sum(ws[..a]) <= Sum(ws[..b])
    decreases b - a
  {
    if a < b {
      SumPrefixMonotone(ws, a, b - 1);
      PrefixSumStep(ws, b - 1);
    }
  }

  lemma {:induction false} DivMonotone(a: real, b: real, r: real)
    requires a <= b && r > 0.0
    ensures a / r <= b / r
  {
  }

  lemma {:induction false} DivWhole(a: real)
    requires a > 0.0
    ensures a / a == 1.0
  {
  }

  /** With non-negative weights of positive total and 0 <= u < 1, the draw selects entry i
      exactly when u falls in the i-th slice of the cumulative distribution. */
  lemma {:induction false} DrawInverse(ws: seq<real>, renorm: real, u: real, i: nat)
    requires forall t :: 0 <= t < |ws| ==> ws[t] >= 0.0
    requires renorm == Sum(ws) && renorm > 0.0 && 0.0 <= u && i < |ws|
    ensures Draw(ws, renorm, u, 0, 0.0) == Some(i) <==>
      Sum(ws[..i]) / renorm <= u < Sum(ws[..i + 1]) / renorm
  {
    assert ws[..0] == [];
    DrawFirst(ws, renorm, u, 0, 0.0);
    if Sum(ws[..i]) / renorm <= u < Sum(ws[..i + 1]) / renorm {
      assert Crosses(ws, renorm, u, i);
      forall m | 0 <= m < i
        ensures !Crosses(ws, renorm, u, m)
      {
        SumPrefixMonotone(ws, m + 1, i);
        DivMonotone(Sum(ws[..m + 1]), Sum(ws[..i]), renorm);
      }
    }
    if Draw(ws, renorm, u, 0, 0.0) == Some(i) {
      if i == 0 {
        assert ws[..i] == [];
      } else {
        assert !Crosses(ws, renorm, u, i - 1);
        assert ws[..(i - 1) + 1] == ws[..i];
      }
    }
  }

  /** The draw succeeds for any 0 <= u < 1 and picks a coalition of positive weight, so
      the ratio of densities it is corrected by is defined. */
  lemma {:induction false} DrawFound(ws: seq<real>, renorm: real, u: real)
    requires forall t :: 0 <= t < |ws| ==> ws[t] >= 0.0
    requires renorm == Sum(ws) && renorm > 0.0 && 0.0 <= u < 1.0
    ensures Draw(ws, renorm, u, 0, 0.0).Some?
    ensures Draw(ws, renorm, u, 0, 0.0).value < |ws| && ws[Draw(ws, renorm, u, 0, 0.0).value] > 0.0
  {
    assert ws[..0] == [];
    DrawFirst(ws, renorm, u, 0, 0.0);
    assert |ws| > 0;
    assert ws[..|ws|] == ws;
    DivWhole(renorm);
    assert Crosses(ws, renorm, u, |ws| - 1);
    var i := Draw(ws, renorm, u, 0, 0.0).value;
    DrawInverse(ws, renorm, u, i);
    PrefixSumStep(ws, i);
    PositiveGap(Sum(ws[..i]), ws[i], renorm, u);
  }

  lemma {:induction false} PositiveGap(a: real, w: real, r: real, u: real)
    requires r > 0.0 && a / r <= u < (a + w) / r
    ensures w > 0.0
  {
    if w <= 0.0 {
      DivMonotone(a + w, a, r);
    }
  }

  /** The corrected observation: the increment times renorm over |approx_increment(S, k)|. */
  function Corrected(increment: real, renorm: real, approx: real): real
    requires approx != 0.0
  {
    increment * renorm / Abs(approx)
  }

  /** The true marginal contribution v(S ∪ {k}) - v(S). */
  function Increment(f: CharFn, s: seq<nat>, k: nat): real
  {
    CharValue(f, Insert(s, k)) - CharValue(f, s)
  }

  function ShapleyTerms(f: CharFn, n: nat, k: nat, cs: seq<seq<nat>>): (r: seq<real>)
    requires SizesBelow(cs, n)
    ensures |r| == |cs|
  {
    seq(|cs|, i requires 0 <= i < |cs| => Prob(n, |cs[i]|) * Increment(f, cs[i], k))
  }

  /** The Shapley value of player k: its increments weighted by prob over the coalitions it can join. */
  function ShapleyValue(f: CharFn, n: nat, k: nat): real
    requires k < n
  {
    CandidatesFacts(n, k);
    Sum(ShapleyTerms(f, n, k, Candidates(n, k)))
  }

  /** The surrogate vanishes on none of the coalitions player k can join. */
  predicate SurrogateNonZero(sg: Surrogate, k: nat)
    requires sg.Ready() && k < sg.Players()
  {
    var cs := Candidates(sg.Players(), k);
    forall i :: 0 <= i < |cs| && IsCoalition(cs[i], sg.Players()) && k !in cs[i] ==>
      Approx(sg, cs[i], k) != 0.0
  }

  /** The importance density times the corrected observation, coalition by coalition. */
  function ExpectedTerms(sg: Surrogate, f: CharFn, k: nat, cs: seq<seq<nat>>, renorm: real): (r: seq<real>)
    requires sg.Ready() && k < sg.Players() && Joinable(cs, sg.Players(), k) && renorm != 0.0
    requires forall i :: 0 <= i < |cs| ==> Approx(sg, cs[i], k) != 0.0
    ensures |r| == |cs|
  {
    var ws := Weights(sg, k, cs);
    seq(|cs|, i requires 0 <= i < |cs| =>
      (ws[i] / renorm) * Corrected(Increment(f, cs[i], k), renorm, Approx(sg, cs[i], k)))
  }

  /** The mean of one IS_lin observation of player k under the importance density g. */
  function Expectation(sg: Surrogate, f: CharFn, k: nat): real
    requires sg.Ready() && k < sg.Players() && Renorm(sg, k) > 0.0 && SurrogateNonZero(sg, k)
  {
    CandidatesFacts(sg.Players(), k);
    Sum(ExpectedTerms(sg, f, k, Candidates(sg.Players(), k), Renorm(sg, k)))
  }

  /** One term on plain reals: (p |a| / r) (d r / |a|) = p d. */
  lemma {:induction false} TermArith(w: real, p: real, a: real, d: real, r: real)
    requires r > 0.0 && a != 0.0 && w == p * Abs(a)
    ensures (w / r) * Corrected(d, r, a) == p * d
  {
    var b := Abs(a);
    assert ((p * b) / r) * (d * r / b) == (p * b * d * r) / (r * b);
  }

  lemma {:induction false} ExpectedTerm(sg: Surrogate, f: CharFn, k: nat, cs: seq<seq<nat>>, r: real, i: nat)
    requires sg.Ready() && k < sg.Players() && Joinable(cs, sg.Players(), k) && r > 0.0
    requires forall i :: 0 <= i < |cs| ==> Approx(sg, cs[i], k) != 0.0
    requires i < |cs|
    ensures ExpectedTerms(sg, f, k, cs, r)[i] == ShapleyTerms(f, sg.Players(), k, cs)[i]
  {
    var a := Approx(sg, cs[i], k);
    var p := Prob(sg.Players(), |cs[i]|);
    var d := Increment(f, cs[i], k);
    var w := Weights(sg, k, cs)[i];
    assert w == p * Abs(a);
    TermArith(w, p, a, d, r);
  }

  /** IS_lin is unbiased: when the surrogate vanishes nowhere, an observation's mean under
      the importance density is the Shapley value. */
  lemma {:induction false} Unbiased(sg: Surrogate, f: CharFn, k: nat)
    requires sg.Ready() && k < sg.Players() && Renorm(sg, k) > 0.0 && SurrogateNonZero(sg, k)
    ensures Expectation(sg, f, k) == ShapleyValue(f, sg.Players(), k)
  {
    var n := sg.Players();
    CandidatesFacts(n, k);
    var cs := Candidates(n, k);
    var r := Renorm(sg, k);
    var e := ExpectedTerms(sg, f, k, cs, r);
    var s := ShapleyTerms(f, n, k, cs);
    forall i | 0 <= i < |cs|
      ensures e[i] == s[i]
    {
      ExpectedTerm(sg, f, k, cs, r, i);
    }
    assert e == s;
  }
}
