/** AIS_Kriging: adaptive importance sampling. A warm-up fills every player's ledger with
    the boundary increments; every `update` iterations a surrogate of each player's increment
    is fitted to its ledger (the kriging fit is a parameter), the importance density
    prob(S) |approx(S)| / renorm is tabulated from it, and each iteration draws one coalition
    per player and records the corrected increment. */
module AdaptiveIS {
  import opened Wrappers
  import opened Seqs
  import opened Cache
  import opened Matrix
  import opened PermutationMC
  import opened ImportanceSampling
  import opened IsLinEstimator

  // ---------------------------------------------------------------------------------------
  // Warm-up
  // ---------------------------------------------------------------------------------------

  /** The queries the warm-up makes for the pair (k1, k2): {k1} and N \ {k1}, and when the
      two differ also {k1, k2} and N \ {k1, k2}. */
  function PairQueries(n: nat, k1: nat, k2: nat): seq<seq<nat>>
  {
    [[k1], Others(n, k1)] + (if k1 != k2 then [[k1, k2], Remove(Others(n, k1), k2)] else [])
  }

  /** The blocks F(lo), F(lo + 1), ..., F(hi - 1) laid end to end: one pass of a loop over
      lo <= k < hi that makes the queries F(k) at step k. */
  function Blocks(F: nat -> seq<seq<nat>>, lo: nat, hi: nat): seq<seq<nat>>
    decreases hi - lo
  {
    if lo >= hi then [] else F(lo) + Blocks(F, lo + 1, hi)
  }

  /** Row k1 of the double loop, as a function of k2. */
  function PairRow(n: nat, k1: nat): nat -> seq<seq<nat>>
  {
    k2 => PairQueries(n, k1, k2)
  }

  /** The pairs (k1, k2), (k1, k2 + 1), ..., (k1, n - 1). */
  function InnerQueries(n: nat, k1: nat, k2: nat): seq<seq<nat>>
  {
    Blocks(PairRow(n, k1), k2, n)
  }

  /** The rows of the double loop, as a function of k1. */
  function Rows(n: nat): nat -> seq<seq<nat>>
  {
    k1 => InnerQueries(n, k1, 0)
  }

  /** The rows k1, k1 + 1, ..., n - 1 of the double loop over pairs. */
  function OuterQueries(n: nat, k1: nat): seq<seq<nat>>
  {
    Blocks(Rows(n), k1, n)
  }

  /** Every warm-up query, in source order: N first, then the double loop. */
  function WarmUpList(n: nat): seq<seq<nat>>
  {
    [Range(n)] + OuterQueries(n, 0)
  }

  /** Each query lists valid players without repetition. */
  predicate Queryable(qs: seq<seq<nat>>, n: nat)
  {
    forall j :: 0 <= j < |qs| ==> Below(qs[j], n) && NoDup(qs[j])
  }

  lemma {:induction false} QueryableConcat(a: seq<seq<nat>>, b: seq<seq<nat>>, n: nat)
    requires Queryable(a, n) && Queryable(b, n)
    ensures Queryable(a + b, n)
  {
    forall j | 0 <= j < |a + b|
      ensures Below((a + b)[j], n) && NoDup((a + b)[j])
    {
      if j >= |a| {
        assert (a + b)[j] == b[j - |a|];
      }
    }
  }

  lemma {:induction false} BlocksQueryable(F: nat -> seq<seq<nat>>, lo: nat, hi: nat, n: nat)
    requires forall k :: lo <= k < hi ==> Queryable(F(k), n)
    ensures Queryable(Blocks(F, lo, hi), n)
    decreases hi - lo
  {
    if lo < hi {
      BlocksQueryable(F, lo + 1, hi, n);
      QueryableConcat(F(lo), Blocks(F, lo + 1, hi), n);
    }
  }

  /** A query made at step k of the loop is among the queries of the loop from lo on. */
  lemma {:induction false} BlocksListed(F: nat -> seq<seq<nat>>, lo: nat, k: nat, hi: nat, q: seq<nat>)
    requires lo <= k < hi && q in F(k)
    ensures q in Blocks(F, lo, hi)
    decreases k - lo
  {
    if lo < k {
      BlocksListed(F, lo + 1, k, hi, q);
    }
    InConcat(F(lo), Blocks(F, lo + 1, hi), q);
  }

  lemma {:induction false} InConcat(a: seq<seq<nat>>, b: seq<seq<nat>>, q: seq<nat>)
    requires q in a || q in b
    ensures q in a + b
  {
    if q in a {
      var i :| 0 <= i < |a| && a[i] == q;
      assert (a + b)[i] == q;
    } else {
      var i :| 0 <= i < |b| && b[i] == q;
      assert (a + b)[|a| + i] == q;
    }
  }

  lemma {:induction false} PairQueryable(n: nat, k1: nat, k2: nat)
    requires k1 < n && k2 < n
    ensures Queryable(PairQueries(n, k1, k2), n)
  {
    var o := Others(n, k1);
    assert Below(o, n) && NoDup(o) by {
      OthersFacts(n, k1);
      StrictlySortedNoDup(o);
    }
    var r := Remove(o, k2);
    assert Below(r, n) && NoDup(r) by {
      OthersFacts(n, k1);
      RemoveSorted(o, k2);
      RemoveMembers(o, k2);
      StrictlySortedNoDup(r);
    }
  }

  lemma {:induction false} InnerQueryable(n: nat, k1: nat)
    requires k1 < n
    ensures Queryable(InnerQueries(n, k1, 0), n)
  {
    forall k2 | 0 <= k2 < n
      ensures Queryable(PairRow(n, k1)(k2), n)
    {
      PairQueryable(n, k1, k2);
    }
    BlocksQueryable(PairRow(n, k1), 0, n, n);
  }

  lemma {:induction false} OuterQueryable(n: nat)
    ensures Queryable(OuterQueries(n, 0), n)
  {
    forall k1 | 0 <= k1 < n
      ensures Queryable(Rows(n)(k1), n)
    {
      InnerQueryable(n, k1);
    }
    BlocksQueryable(Rows(n), 0, n, n);
  }

  /** Every warm-up query names valid players, none twice. */
  lemma {:induction false} WarmUpQueryable(n: nat)
    ensures Queryable(WarmUpList(n), n)
  {
    RangeFacts(n);
    StrictlySortedNoDup(Range(n));
    OuterQueryable(n);
    QueryableConcat([Range(n)], OuterQueries(n, 0), n);
  }

  /** Every query of every pair is made by the warm-up. */
  lemma {:induction false} PairListed(n: nat, k1: nat, k2: nat, q: seq<nat>)
    requires k1 < n && k2 < n && q in PairQueries(n, k1, k2)
    ensures q in WarmUpList(n)
  {
    BlocksListed(PairRow(n, k1), 0, k2, n, q);
    BlocksListed(Rows(n), 0, k1, n, q);
    InConcat([Range(n)], OuterQueries(n, 0), q);
  }

  /** The memo after the warm-up queries. */
  function WarmUp(cache: CacheState, f: CharFn): (b: Batch)
    ensures b.st.Players() == cache.Players()
  {
    WarmUpQueryable(cache.Players());
    QueryAll(cache, f, WarmUpList(cache.Players()))
  }

  /** The warm-up keeps the memo valid. */
  lemma {:induction false} WarmUpValid(cache: CacheState, f: CharFn)
    requires Valid(cache, f)
    ensures Valid(WarmUp(cache, f).st, f)
  {
    WarmUpQueryable(cache.Players());
    QueryAllValid(cache, f, WarmUpList(cache.Players()));
  }

  /** Every query the warm-up makes leaves its sorted coalition cached. */
  lemma {:induction false} WarmUpCached(cache: CacheState, f: CharFn, q: seq<nat>)
    requires q in WarmUpList(cache.Players())
    ensures Sort(q) in WarmUp(cache, f).st.values
  {
    var qs := WarmUpList(cache.Players());
    var j :| 0 <= j < |qs| && qs[j] == q;
  }

  /** After the warm-up every player's ledger holds its true increments on joining the empty
      coalition and on joining everyone else, from which IS_lin builds its surrogate. */
  lemma {:induction false} WarmUpBoundaries(cache: CacheState, f: CharFn, k: nat)
    requires Valid(cache, f) && k < cache.Players()
    ensures [] in WarmUp(cache, f).st.increments[k]
    ensures WarmUp(cache, f).st.increments[k][[]] == Increment(f, [], k)
    ensures Others(cache.Players(), k) in WarmUp(cache, f).st.increments[k]
    ensures WarmUp(cache, f).st.increments[k][Others(cache.Players(), k)] == Increment(f, Others(cache.Players(), k), k)
  {
    var n := cache.Players();
    var st := WarmUp(cache, f).st;
    WarmUpValid(cache, f);
    PairListed(n, k, 0, [k]);
    PairListed(n, k, 0, Others(n, k));
    WarmUpCached(cache, f, [k]);
    WarmUpCached(cache, f, Others(n, k));
    RangeFacts(n);
    OthersFacts(n, k);
    SortedFixed([k]);
    SortedFixed(Others(n, k));
    SortedFixed(Range(n));
    WarmUpCached(cache, f, Range(n));
    assert Insert([], k) == [k];
    KnownIncrement(st, f, k, []);
    KnownIncrement(st, f, k, Others(n, k));
  }

  /** After the warm-up, player k's ledger also holds its true increments on joining any
      single other player j and on joining everyone but j. */
  lemma {:induction false} WarmUpPairs(cache: CacheState, f: CharFn, k: nat, j: nat)
    requires Valid(cache, f) && k < cache.Players() && j < cache.Players() && j != k
    ensures [j] in WarmUp(cache, f).st.increments[k]
    ensures WarmUp(cache, f).st.increments[k][[j]] == Increment(f, [j], k)
    ensures Remove(Others(cache.Players(), j), k) in WarmUp(cache, f).st.increments[k]
    ensures WarmUp(cache, f).st.increments[k][Remove(Others(cache.Players(), j), k)] ==
      Increment(f, Remove(Others(cache.Players(), j), k), k)
  {
    WarmUpSingle(cache, f, k, j);
    WarmUpAllBut(cache, f, k, j);
  }

  /** Player k's increment on joining {j}: the warm-up queried both {j} and {j, k}. */
  lemma {:induction false} WarmUpSingle(cache: CacheState, f: CharFn, k: nat, j: nat)
    requires Valid(cache, f) && k < cache.Players() && j < cache.Players() && j != k
    ensures [j] in WarmUp(cache, f).st.increments[k]
    ensures WarmUp(cache, f).st.increments[k][[j]] == Increment(f, [j], k)
  {
    var n := cache.Players();
    var st := WarmUp(cache, f).st;
    WarmUpValid(cache, f);
    PairListed(n, j, k, [j]);
    PairListed(n, j, k, [j, k]);
    WarmUpCached(cache, f, [j]);
    WarmUpCached(cache, f, [j, k]);
    SortedFixed([j]);
    KnownIncrement(st, f, k, [j]);
  }

  /** Player k's increment on joining N \ {j, k}: the warm-up queried both N \ {j, k} and
      N \ {j}. */
  lemma {:induction false} WarmUpAllBut(cache: CacheState, f: CharFn, k: nat, j: nat)
    requires Valid(cache, f) && k < cache.Players() && j < cache.Players() && j != k
    ensures Remove(Others(cache.Players(), j), k) in WarmUp(cache, f).st.increments[k]
    ensures WarmUp(cache, f).st.increments[k][Remove(Others(cache.Players(), j), k)] ==
      Increment(f, Remove(Others(cache.Players(), j), k), k)
  {
    var n := cache.Players();
    var st := WarmUp(cache, f).st;
    var rest := Remove(Others(n, j), k);
    WarmUpValid(cache, f);
    PairListed(n, j, k, Others(n, j));
    PairListed(n, j, k, rest);
    WarmUpCached(cache, f, Others(n, j));
    WarmUpCached(cache, f, rest);
    OthersFacts(n, j);
    RemoveSorted(Others(n, j), k);
    RemoveMembers(Others(n, j), k);
    SortedFixed(Others(n, j));
    SortedFixed(rest);
    InsertRemove(Others(n, j), k);
    KnownIncrement(st, f, k, rest);
  }

  // ---------------------------------------------------------------------------------------
  // Coordinates
  // ---------------------------------------------------------------------------------------

  /** The dense size vector of a coalition: ||node i|| at position i for every member, 0
      elsewhere. */
  function Spread(sizes: seq<nat>, s: seq<nat>): (r: seq<nat>)
    ensures |r| == |sizes|
  {
    seq(|sizes|, i requires 0 <= i < |sizes| => if i in s then sizes[i] else 0)
  }

  /** make_coordinate(S, k): the dense size vector of S with position k deleted. The source
      asserts that k is not in S and indexes the node list with S's members. */
  function Coordinate(sizes: seq<nat>, s: seq<nat>, k: nat): (r: seq<nat>)
    requires k < |sizes| && Below(s, |sizes|) && k !in s
    ensures |r| == |sizes| - 1
  {
    var full := Spread(sizes, s);
    full[..k] + full[k + 1..]
  }

  /** The position player p's size takes once position k is deleted. */
  function Position(p: nat, k: nat): nat
    requires p != k
  {
    if p < k then p else p - 1
  }

  /** Each other player's entry holds its size when it is in S and 0 otherwise. */
  lemma {:induction false} CoordinateEntry(sizes: seq<nat>, s: seq<nat>, k: nat, p: nat)
    requires k < |sizes| && Below(s, |sizes|) && k !in s && p < |sizes| && p != k
    ensures Position(p, k) < |sizes| - 1
    ensures Coordinate(sizes, s, k)[Position(p, k)] == if p in s then sizes[p] else 0
  {
  }

  /** Two coalitions with the same members are the same ascending list. */
  lemma {:induction false} SameMembers(a: seq<nat>, b: seq<nat>)
    requires StrictlySorted(a) && StrictlySorted(b)
    requires forall x :: x in a <==> x in b
    ensures a == b
  {
    StrictlySortedNoDup(a);
    StrictlySortedNoDup(b);
    assert multiset(a) == multiset(b) by {
      forall x: nat
        ensures multiset(a)[x] == multiset(b)[x]
      {
        NoDupCount(a, x);
        NoDupCount(b, x);
      }
    }
    SortedUnique(a, b);
  }

  /** Every player holds some data. */
  predicate AllPositive(sizes: seq<nat>)
  {
    forall p :: 0 <= p < |sizes| ==> sizes[p] > 0
  }

  /** When every player holds data, the coordinate tells the coalitions without k apart:
      two coalitions share a coordinate exactly when they are the same coalition. */
  lemma {:induction false} CoordinateInjective(sizes: seq<nat>, a: seq<nat>, b: seq<nat>, k: nat)
    requires AllPositive(sizes) && k < |sizes|
    requires IsCoalition(a, |sizes|) && IsCoalition(b, |sizes|) && k !in a && k !in b
    ensures Coordinate(sizes, a, k) == Coordinate(sizes, b, k) <==> a == b
  {
    if Coordinate(sizes, a, k) == Coordinate(sizes, b, k) {
      forall x: nat
        ensures x in a <==> x in b
      {
        if x < |sizes| && x != k {
          CoordinateEntry(sizes, a, k, x);
          CoordinateEntry(sizes, b, k, x);
        }
      }
      SameMembers(a, b);
    }
  }

  /** A player without data is invisible: the empty coalition and the coalition of that
      player alone share a coordinate, so the kriging fit sees one input for two increments. */
  lemma {:induction false} CoordinateCollides(sizes: seq<nat>, k: nat, p: nat)
    requires k < |sizes| && p < |sizes| && p != k && sizes[p] == 0
    ensures Coordinate(sizes, [], k) == Coordinate(sizes, [p], k)
  {
    assert Spread(sizes, []) == Spread(sizes, [p]);
  }

  // ---------------------------------------------------------------------------------------
  // The kriging datasets and the fitted surrogates
  // ---------------------------------------------------------------------------------------

  /** One training point of a player's regression: a coordinate and the increment there. */
  datatype Point = Point(x: seq<nat>, y: real)

  /** The surrogate of one player's increment, evaluated on a coordinate. */
  type Predictor = seq<nat> -> real

  /** The kriging fit krigingModel(2, cov[k]).fit(x, y) of player k; the covariance and the
      regression are outside the model. The dataset is a set: permuting the rows of x and y
      permutes K, H and Y alike and leaves beta and predict unchanged, and with every partner
      holding a sample no two rows coincide (DatasetDistinct). */
  type Fit = (nat, set<Point>) -> Predictor

  /** Player k's dataset: one point per entry of its ledger. Keys that are not coalitions
      without k, where the source's assertion would stop, are skipped; a valid memo holds none. */
  function Dataset(ledger: map<seq<nat>, real>, sizes: seq<nat>, k: nat): set<Point>
    requires k < |sizes|
  {
    set s | s in ledger && Below(s, |sizes|) && k !in s :: Point(Coordinate(sizes, s, k), ledger[s])
  }

  /** Every point of a valid memo's dataset is the coordinate of a coalition without k paired
      with k's true increment on joining it. */
  lemma {:induction false} DatasetSound(cache: CacheState, f: CharFn, sizes: seq<nat>, k: nat, pt: Point)
    requires Valid(cache, f) && |sizes| == cache.Players() && k < |sizes|
    requires pt in Dataset(cache.increments[k], sizes, k)
    ensures exists s :: (s in cache.increments[k] && IsCoalition(s, |sizes|) && k !in s &&
      pt == Point(Coordinate(sizes, s, k), Increment(f, s, k)))
  {
    var s :| s in cache.increments[k] && Below(s, |sizes|) && k !in s &&
      pt == Point(Coordinate(sizes, s, k), cache.increments[k][s]);
    LedgerEntry(cache, f, k, s);
  }

  /** Every entry of a valid memo's ledger is a point of the dataset. */
  lemma {:induction false} DatasetComplete(cache: CacheState, f: CharFn, sizes: seq<nat>, k: nat, s: seq<nat>)
    requires Valid(cache, f) && |sizes| == cache.Players() && k < |sizes|
    requires s in cache.increments[k]
    ensures IsCoalition(s, |sizes|) && k !in s
    ensures Point(Coordinate(sizes, s, k), Increment(f, s, k)) in Dataset(cache.increments[k], sizes, k)
  {
    LedgerEntry(cache, f, k, s);
  }

  /** A ledger entry of a valid memo is a coalition without its player, recorded with the
      player's true increment. */
  lemma {:induction false} LedgerEntry(cache: CacheState, f: CharFn, k: nat, s: seq<nat>)
    requires Valid(cache, f) && k < cache.Players() && s in cache.increments[k]
    ensures IsCoalition(s, cache.Players()) && Below(s, cache.Players()) && k !in s
    ensures cache.increments[k][s] == Increment(f, s, k)
  {
    assert cache.increments[k][s] == cache.values[Insert(s, k)] - cache.values[s];
    assert s in cache.values && Insert(s, k) in cache.values;
  }
  /** When every partner holds a sample, distinct ledger entries give distinct coordinates:
      the dataset has one point per entry, and no two rows of make_models' x coincide. */
  lemma {:induction false} DatasetDistinct(cache: CacheState, f: CharFn, sizes: seq<nat>, k: nat, s1: seq<nat>, s2: seq<nat>)
    requires Valid(cache, f) && |sizes| == cache.Players() && k < |sizes|
    requires forall p :: 0 <= p < |sizes| ==> sizes[p] > 0
    requires s1 in cache.increments[k] && s2 in cache.increments[k]
    ensures IsCoalition(s1, |sizes|) && k !in s1 && IsCoalition(s2, |sizes|) && k !in s2
    ensures Coordinate(sizes, s1, k) == Coordinate(sizes, s2, k) ==> s1 == s2
  {
    DatasetComplete(cache, f, sizes, k, s1);
    DatasetComplete(cache, f, sizes, k, s2);
    if Coordinate(sizes, s1, k) == Coordinate(sizes, s2, k) {
      forall p: nat
        ensures p in s1 <==> p in s2
      {
        if p < |sizes| && p != k {
          CoordinateEntry(sizes, s1, k, p);
          CoordinateEntry(sizes, s2, k, p);
        }
      }
      StrictlySortedUnique(s1, s2);
    }
  }


  // ---------------------------------------------------------------------------------------
  // The importance density of a fitted surrogate
  // ---------------------------------------------------------------------------------------

  /** Player k's density for the surrogate `model` over the listed coalitions, in order:
      approx_increment, prob(S) |approx_increment| and the renormalisation constant. */
  function DensityOver(sizes: seq<nat>, k: nat, model: Predictor, cs: seq<seq<nat>>): (d: Density)
    requires k < |sizes| && Joinable(cs, |sizes|, k)
    ensures WellFormed(d, |sizes|, k) && d.coalitions == cs
  {
    var n := |sizes|;
    var approxs := seq(|cs|, i requires 0 <= i < |cs| => model(Coordinate(sizes, cs[i], k)));
    var weights := seq(|cs|, i requires 0 <= i < |cs| => WeightOf(n, |cs[i]|, approxs[i]));
    Density(cs, approxs, weights, Sum(weights))
  }

  /** Player k's density over the coalitions it can join, in the order of the sampling loops. */
  function KrigingDensity(sizes: seq<nat>, k: nat, model: Predictor): (d: Density)
    requires k < |sizes|
    ensures WellFormed(d, |sizes|, k)
  {
    CandidatesFacts(|sizes|, k);
    DensityOver(sizes, k, model, Candidates(|sizes|, k))
  }

  /** prob(S) |approx|: the unnormalised weight of a coalition of size s. */
  function WeightOf(n: nat, s: nat, approx: real): real
    requires s < n
  {
    Prob(n, s) * Abs(approx)
  }

  /** Every weight is prob(S) times the magnitude of the surrogate at S. */
  predicate ProbWeighted(d: Density, n: nat)
    requires Shaped(d) && SizesBelow(d.coalitions, n)
  {
    forall i :: 0 <= i < |d.weights| ==> d.weights[i] == WeightOf(n, |d.coalitions[i]|, d.approxs[i])
  }

  /** The surrogate vanishes on none of the tabulated coalitions. */
  predicate NonZero(d: Density)
  {
    forall i :: 0 <= i < |d.approxs| ==> d.approxs[i] != 0.0
  }

  /** The density weighs each listed coalition by prob |approx|. */
  lemma {:induction false} OverWeights(sizes: seq<nat>, k: nat, model: Predictor, cs: seq<seq<nat>>)
    requires k < |sizes| && Joinable(cs, |sizes|, k)
    ensures SizesBelow(cs, |sizes|)
    ensures ProbWeighted(DensityOver(sizes, k, model, cs), |sizes|)
  {
  }

  /** The density is consistent: non-negative weights, zero where the surrogate is, and
      renorm their total. */
  lemma {:induction false} OverConsistent(sizes: seq<nat>, k: nat, model: Predictor, cs: seq<seq<nat>>)
    requires k < |sizes| && Joinable(cs, |sizes|, k)
    ensures Consistent(DensityOver(sizes, k, model, cs))
  {
    var d := DensityOver(sizes, k, model, cs);
    forall i | 0 <= i < |d.weights|
      ensures d.weights[i] >= 0.0 && (d.approxs[i] == 0.0 ==> d.weights[i] == 0.0)
    {
      assert d.weights[i] == WeightOf(|sizes|, |cs[i]|, d.approxs[i]);
    }
  }

  /** The kriging density lists player k's candidates, weighs each by prob |approx|, and is
      consistent. */
  lemma {:induction false} KrigingWeights(sizes: seq<nat>, k: nat, model: Predictor)
    requires k < |sizes|
    ensures KrigingDensity(sizes, k, model).coalitions == Candidates(|sizes|, k)
    ensures SizesBelow(Candidates(|sizes|, k), |sizes|)
    ensures ProbWeighted(KrigingDensity(sizes, k, model), |sizes|)
    ensures Consistent(KrigingDensity(sizes, k, model))
  {
    CandidatesFacts(|sizes|, k);
    OverWeights(sizes, k, model, Candidates(|sizes|, k));
    OverConsistent(sizes, k, model, Candidates(|sizes|, k));
  }

  /** The mean of one observation under the density: each coalition's probability
      weight / renorm times the corrected increment it would yield. */
  function DensityExpectation(d: Density, f: CharFn, k: nat): real
    requires Shaped(d) && d.renorm != 0.0 && NonZero(d)
  {
    Sum(seq(|d.weights|, i requires 0 <= i < |d.weights| =>
      (d.weights[i] / d.renorm) * Corrected(Increment(f, d.coalitions[i], k), d.renorm, d.approxs[i])))
  }

  /** Importance sampling is unbiased for any density weighted by prob |approx| over the
      candidates, whatever surrogate produced it, as long as it vanishes nowhere. */
  lemma {:induction false} DensityUnbiased(d: Density, f: CharFn, n: nat, k: nat)
    requires k < n && Shaped(d) && d.coalitions == Candidates(n, k) && SizesBelow(d.coalitions, n)
    requires ProbWeighted(d, n) && NonZero(d) && d.renorm > 0.0
    ensures DensityExpectation(d, f, k) == ShapleyValue(f, n, k)
  {
    CandidatesFacts(n, k);
    var terms := seq(|d.weights|, i requires 0 <= i < |d.weights| =>
      (d.weights[i] / d.renorm) * Corrected(Increment(f, d.coalitions[i], k), d.renorm, d.approxs[i]));
    var shapley := ShapleyTerms(f, n, k, d.coalitions);
    forall i | 0 <= i < |d.weights|
      ensures terms[i] == shapley[i]
    {
      TermArith(d.weights[i], Prob(n, |d.coalitions[i]|), d.approxs[i], Increment(f, d.coalitions[i], k), d.renorm);
    }
    assert terms == shapley;
  }

  /** AIS is unbiased at every refit: whatever the kriging fit returns, if it vanishes on no
      candidate, an observation drawn from its density has the Shapley value as its mean. */
  lemma {:induction false} KrigingUnbiased(sizes: seq<nat>, f: CharFn, k: nat, model: Predictor)
    requires k < |sizes| && NonZero(KrigingDensity(sizes, k, model))
    requires KrigingDensity(sizes, k, model).renorm > 0.0
    ensures DensityExpectation(KrigingDensity(sizes, k, model), f, k) == ShapleyValue(f, |sizes|, k)
  {
    KrigingWeights(sizes, k, model);
    DensityUnbiased(KrigingDensity(sizes, k, model), f, |sizes|, k);
  }

  /** make_models and the renormalisation: every player's density, fitted to its ledger as
      the memo holds it now. */
  function Refit(cache: CacheState, fit: Fit, sizes: seq<nat>): (ds: seq<Density>)
    requires |sizes| == cache.Players()
    ensures Tables(ds, |sizes|)
    ensures forall k :: 0 <= k < |sizes| ==>
      ds[k] == KrigingDensity(sizes, k, fit(k, Dataset(cache.increments[k], sizes, k)))
  {
    var ds := seq(|sizes|, k requires 0 <= k < |sizes| =>
      KrigingDensity(sizes, k, fit(k, Dataset(cache.increments[k], sizes, k))));
    assert forall k :: 0 <= k < |sizes| ==>
      ds[k] == KrigingDensity(sizes, k, fit(k, Dataset(cache.increments[k], sizes, k)));
    assert forall k :: 0 <= k < |sizes| ==>
      WellFormed(KrigingDensity(sizes, k, fit(k, Dataset(cache.increments[k], sizes, k))), |sizes|, k);
    ds
  }

  // ---------------------------------------------------------------------------------------
  // The sampling loop
  // ---------------------------------------------------------------------------------------

  /** The sampler after some iterations: the memo, the contributions matrix, the densities in
      force, how many times the models were fitted (the length of all_models), and every
      iteration's row of observations in the order they were drawn. */
  datatype Sampler = Sampler(cache: CacheState, rows: seq<seq<real>>, tables: seq<Density>, fits: nat, drawn: seq<seq<real>>)

  /** Python's index i into a list of `count` entries: a negative index counts from the end. */
  function PyIndex(i: int, count: nat): int
  {
    if i < 0 then count + i else i
  }

  /** The densities iteration t samples from: refitted to the memo when t is a multiple of
      `update`, the previous ones otherwise. */
  function InForce(p: Sampler, fit: Fit, sizes: seq<nat>, update: nat, t: nat): (ds: seq<Density>)
    requires update > 0 && |sizes| == p.cache.Players()
    requires t % update != 0 ==> Tables(p.tables, |sizes|)
    ensures Tables(ds, |sizes|)
  {
    if t % update == 0 then Refit(p.cache, fit, sizes) else p.tables
  }

  lemma {:induction false} RectangularUpdate(rows: seq<seq<real>>, n: nat, i: int, row: seq<real>)
    requires Rectangular(rows, n) && 0 <= i < |rows| + 1 && |row| == n
    ensures Rectangular((rows + [Zeros(n)])[i := row], n)
  {
    var grown := rows + [Zeros(n)];
    var updated := grown[i := row];
    forall j | 0 <= j < |updated|
      ensures |updated[j]| == n
    {
      if j != i && j < |rows| {
        assert grown[j] == rows[j];
      }
    }
  }

  /** Iteration t: the contributions matrix grows by a zero row, the densities are refitted
      when due, one observation per player is drawn, and the row of observations is written
      to contributions[t - 1]. */
  function Step(p: Sampler, f: CharFn, fit: Fit, sizes: seq<nat>, update: nat, t: nat, us: seq<real>): (r: Result<Sampler, Error>)
    requires update > 0 && |sizes| == p.cache.Players() && |us| == |sizes|
    requires |p.rows| == t && Rectangular(p.rows, |sizes|)
    requires t % update != 0 ==> Tables(p.tables, |sizes|)
    ensures r.Success? ==> r.value.cache.Players() == p.cache.Players() && Tables(r.value.tables, |sizes|)
    ensures r.Success? ==> |r.value.rows| == t + 1 && Rectangular(r.value.rows, |sizes|)
  {
    var n := |sizes|;
    var ds := InForce(p, fit, sizes, update, t);
    match SampleRow(p.cache, f, ds, us, 0)
    case Failure(e) => Failure(e)
    case Success(b) =>
      RectangularUpdate(p.rows, n, PyIndex(t - 1, t + 1), b.values);
      var rows := (p.rows + [Zeros(n)])[PyIndex(t - 1, t + 1) := b.values];
      Success(Sampler(b.st, rows, ds, if t % update == 0 then p.fits + 1 else p.fits, p.drawn + [b.values]))
  }

  /** The sampler is ready for iteration t: one row of contributions per earlier iteration,
      and densities in force once there has been an iteration. */
  predicate Looping(p: Sampler, sizes: seq<nat>, update: nat, draws: seq<seq<real>>, t: nat)
  {
    && update > 0 && |sizes| == p.cache.Players() && DrawRows(draws, |sizes|) && t <= |draws|
    && |p.rows| == t && Rectangular(p.rows, |sizes|) && (t > 0 ==> Tables(p.tables, |sizes|))
  }

  /** Iterations t, t + 1, ..., one per row of draws. */
  function Loop(p: Sampler, f: CharFn, fit: Fit, sizes: seq<nat>, update: nat, draws: seq<seq<real>>, t: nat): (r: Result<Sampler, Error>)
    requires Looping(p, sizes, update, draws, t)
    ensures r.Success? ==> r.value.cache.Players() == p.cache.Players()
    ensures r.Success? ==> |r.value.rows| == |draws| && Rectangular(r.value.rows, |sizes|)
    decreases |draws| - t
  {
    if t == |draws| then Success(p)
    else
      match Step(p, f, fit, sizes, update, t, draws[t])
      case Failure(e) => Failure(e)
      case Success(q) => Loop(q, f, fit, sizes, update, draws, t + 1)
  }

  /** The sampler before the first iteration. */
  function Start(cache: CacheState): Sampler
  {
    Sampler(cache, [], [], 0, [])
  }

  /** The warm-up and the whole sampling loop. The source's `t % update` raises
      ZeroDivisionError when update is 0. */
  function Run(cache: CacheState, f: CharFn, fit: Fit, sizes: seq<nat>, update: nat, draws: seq<seq<real>>): (r: Result<Sampler, Error>)
    requires |sizes| == cache.Players() && DrawRows(draws, |sizes|)
    ensures r.Success? ==> r.value.cache.Players() == cache.Players()
    ensures r.Success? ==> |r.value.rows| == |draws| && Rectangular(r.value.rows, |sizes|)
  {
    if update == 0 then Failure(DivisionByZero)
    else Loop(Start(WarmUp(cache, f).st), f, fit, sizes, update, draws, 0)
  }

  /** AIS_Kriging(scenario): the scores are the column means of the contributions matrix and
      the spread its column variances over t - 1. The stopping rule is outside the model; it
      runs at least 100 iterations. */
  function AisKriging(cache: CacheState, f: CharFn, fit: Fit, sizes: seq<nat>, update: nat, draws: seq<seq<real>>): (r: Result<Estimate, Error>)
    requires |sizes| == cache.Players() && DrawRows(draws, |sizes|) && |draws| >= MinIterations
    ensures r.Success? ==> |r.value.scores| == |sizes| && |r.value.stdSquared| == |sizes|
    ensures r.Success? ==> r.value.cache.Players() == cache.Players()
  {
    match Run(cache, f, fit, sizes, update, draws)
    case Failure(e) => Failure(e)
    case Success(p) => Success(Estimate(p.cache, ColumnMeans(p.rows, |sizes|), StdSquared(p.rows, |sizes|)))
  }

  // ---------------------------------------------------------------------------------------
  // What the loop computes
  // ---------------------------------------------------------------------------------------

  /** How many times the models have been fitted after t iterations: at every iteration
      whose index is a multiple of `update`. */
  function Generations(t: nat, update: nat): nat
    requires update > 0
  {
    if t == 0 then 0 else Generations(t - 1, update) + (if (t - 1) % update == 0 then 1 else 0)
  }

  lemma {:induction false} DivUnique(a: int, u: int, q: int, r: int)
    requires u > 0 && a == q * u + r && 0 <= r < u
    ensures a / u == q && a % u == r
  {
    var q', r' := a / u, a % u;
    assert (q - q') * u == r' - r;
    if q > q' {
      MulAtLeast(q - q', u);
      assert false;
    } else if q < q' {
      MulAtLeast(q' - q, u);
      assert false;
    }
  }

  lemma {:induction false} MulAtLeast(x: int, u: int)
    requires x >= 1 && u > 0
    ensures x * u >= u
  {
  }

  /** The generation count is ceil(t / update), the length of all_models after t iterations. */
  lemma {:induction false} GenerationsCeil(t: nat, update: nat)
    requires update > 0
    ensures Generations(t, update) == (t + update - 1) / update
  {
    if t > 0 {
      GenerationsCeil(t - 1, update);
      var q, r := (t - 1) / update, (t - 1) % update;
      assert t - 1 == q * update + r;
      if r == 0 {
        DivUnique(t + update - 2, update, q, update - 1);
        DivUnique(t + update - 1, update, q + 1, 0);
      } else {
        DivUnique(t + update - 2, update, q + 1, r - 1);
        DivUnique(t + update - 1, update, q + 1, r);
      }
    }
  }

  /** A successful iteration extends the record by its row of observations, writes that row
      to contributions[t - 1], counts a fit when it refitted, and leaves the loop ready for
      iteration t + 1. */
  lemma {:induction false} StepFacts(p: Sampler, f: CharFn, fit: Fit, sizes: seq<nat>, update: nat, draws: seq<seq<real>>, t: nat)
    requires Looping(p, sizes, update, draws, t) && t < |draws|
    requires Step(p, f, fit, sizes, update, t, draws[t]).Success?
    ensures var q := Step(p, f, fit, sizes, update, t, draws[t]).value;
      && Looping(q, sizes, update, draws, t + 1)
      && Loop(p, f, fit, sizes, update, draws, t) == Loop(q, f, fit, sizes, update, draws, t + 1)
      && |q.drawn| == |p.drawn| + 1 && q.drawn[..|p.drawn|] == p.drawn && |q.drawn[|p.drawn|]| == |sizes|
      && q.rows == (p.rows + [Zeros(|sizes|)])[PyIndex(t - 1, t + 1) := q.drawn[|p.drawn|]]
      && q.fits == p.fits + (if t % update == 0 then 1 else 0)
  {
    var q := Step(p, f, fit, sizes, update, t, draws[t]).value;
    assert q.drawn[..|p.drawn|] == p.drawn;
  }

  /** After every iteration the fit count is the number of generations. */
  lemma {:induction false} LoopGenerations(p: Sampler, f: CharFn, fit: Fit, sizes: seq<nat>, update: nat, draws: seq<seq<real>>, t: nat)
    requires Looping(p, sizes, update, draws, t)
    requires p.fits == Generations(t, update)
    ensures Loop(p, f, fit, sizes, update, draws, t).Success? ==>
      Loop(p, f, fit, sizes, update, draws, t).value.fits == Generations(|draws|, update)
    decreases |draws| - t
  {
    if t < |draws| && Step(p, f, fit, sizes, update, t, draws[t]).Success? {
      var q := Step(p, f, fit, sizes, update, t, draws[t]).value;
      StepFacts(p, f, fit, sizes, update, draws, t);
      LoopGenerations(q, f, fit, sizes, update, draws, t + 1);
    }
  }

  /** Where the rows of observations end up: contributions[t - 1] is written at iteration t,
      so iteration 0's row is overwritten by iteration 1's, every later row moves up one place,
      and the last row keeps its zeros. */
  function Placed(drawn: seq<seq<real>>, n: nat): seq<seq<real>>
  {
    if |drawn| <= 1 then drawn else drawn[1..] + [Zeros(n)]
  }

  lemma {:induction false} StepPlaced(rows: seq<seq<real>>, drawn: seq<seq<real>>, n: nat, v: seq<real>)
    requires rows == Placed(drawn, n)
    ensures (rows + [Zeros(n)])[PyIndex(|drawn| - 1, |drawn| + 1) := v] == Placed(drawn + [v], n)
  {
    var t := |drawn|;
    var d := drawn + [v];
    if t == 1 {
      assert d[1..] == [v];
    } else if t >= 2 {
      assert d[1..] == drawn[1..] + [v];
      assert (rows + [Zeros(n)])[t - 1 := v] == drawn[1..] + [v] + [Zeros(n)];
    }
  }

  /** The contributions matrix is always the placed record of the rows drawn so far. */
  lemma {:induction false} LoopPlaced(p: Sampler, f: CharFn, fit: Fit, sizes: seq<nat>, update: nat, draws: seq<seq<real>>, t: nat)
    requires Looping(p, sizes, update, draws, t)
    requires |p.drawn| == t && Rectangular(p.drawn, |sizes|) && p.rows == Placed(p.drawn, |sizes|)
    ensures Loop(p, f, fit, sizes, update, draws, t).Success? ==>
      var r := Loop(p, f, fit, sizes, update, draws, t).value;
      |r.drawn| == |draws| && Rectangular(r.drawn, |sizes|) && r.rows == Placed(r.drawn, |sizes|)
    decreases |draws| - t
  {
    if t < |draws| && Step(p, f, fit, sizes, update, t, draws[t]).Success? {
      var q := Step(p, f, fit, sizes, update, t, draws[t]).value;
      StepFacts(p, f, fit, sizes, update, draws, t);
      RecordGrows(p.drawn, p.rows, q.drawn, q.rows, |sizes|, t);
      LoopPlaced(q, f, fit, sizes, update, draws, t + 1);
    }
  }

  /** One more row drawn and written to contributions[t - 1] keeps the matrix the placed
      record of the rows drawn. */
  lemma {:induction false} RecordGrows(drawn: seq<seq<real>>, rows: seq<seq<real>>, drawn': seq<seq<real>>, rows': seq<seq<real>>, n: nat, t: nat)
    requires |drawn| == t && Rectangular(drawn, n) && rows == Placed(drawn, n)
    requires |drawn'| == t + 1 && drawn'[..t] == drawn && |drawn'[t]| == n
    requires rows' == (rows + [Zeros(n)])[PyIndex(t - 1, t + 1) := drawn'[t]]
    ensures Rectangular(drawn', n) && rows' == Placed(drawn', n)
  {
    assert drawn' == drawn + [drawn'[t]];
    StepPlaced(rows, drawn, n, drawn'[t]);
    forall i | 0 <= i < |drawn'|
      ensures |drawn'[i]| == n
    {
      if i < t {
        assert drawn'[i] == drawn[i];
      }
    }
  }

  /** With two or more rows drawn, each column mean of the placed matrix is the sum of the
      rows drawn after the first, divided by the number of rows drawn. */
  lemma {:induction false} PlacedMeans(drawn: seq<seq<real>>, n: nat, k: nat)
    requires |drawn| >= 2 && Rectangular(drawn, n) && k < n
    ensures Rectangular(drawn[1..], n) && Rectangular(Placed(drawn, n), n) && |Placed(drawn, n)| == |drawn|
    ensures ColumnMeans(Placed(drawn, n), n)[k] == ColumnSum(drawn[1..], k) / (|drawn| as real)
  {
    var rows := Placed(drawn, n);
    assert Rectangular(drawn[1..], n) by {
      forall i | 0 <= i < |drawn[1..]|
        ensures |drawn[1..][i]| == n
      {
        assert drawn[1..][i] == drawn[i + 1];
      }
    }
    assert Rectangular(rows, n) by {
      forall i | 0 <= i < |rows|
        ensures |rows[i]| == n
      {
        if i < |drawn| - 1 {
          assert rows[i] == drawn[1..][i];
        }
      }
    }
    assert rows[..|rows| - 1] == drawn[1..];
    assert ColumnSum(rows, k) == ColumnSum(drawn[1..], k) + rows[|rows| - 1][k];
  }

  /** An iteration keeps the memo valid. */
  lemma {:induction false} StepKeepsValid(p: Sampler, f: CharFn, fit: Fit, sizes: seq<nat>, update: nat, draws: seq<seq<real>>, t: nat)
    requires Looping(p, sizes, update, draws, t) && t < |draws|
    requires Valid(p.cache, f) && Step(p, f, fit, sizes, update, t, draws[t]).Success?
    ensures Valid(Step(p, f, fit, sizes, update, t, draws[t]).value.cache, f)
  {
  }

  /** The loop keeps the memo valid. */
  lemma {:induction false} LoopKeepsValid(p: Sampler, f: CharFn, fit: Fit, sizes: seq<nat>, update: nat, draws: seq<seq<real>>, t: nat)
    requires Looping(p, sizes, update, draws, t)
    requires Valid(p.cache, f) && Loop(p, f, fit, sizes, update, draws, t).Success?
    ensures Valid(Loop(p, f, fit, sizes, update, draws, t).value.cache, f)
    decreases |draws| - t
  {
    if t < |draws| {
      var q := Step(p, f, fit, sizes, update, t, draws[t]).value;
      StepFacts(p, f, fit, sizes, update, draws, t);
      StepKeepsValid(p, f, fit, sizes, update, draws, t);
      LoopKeepsValid(q, f, fit, sizes, update, draws, t + 1);
    }
  }

  /** The warm-up and the loop keep the memo valid. */
  lemma {:induction false} RunKeepsValid(cache: CacheState, f: CharFn, fit: Fit, sizes: seq<nat>, update: nat, draws: seq<seq<real>>)
    requires |sizes| == cache.Players() && DrawRows(draws, |sizes|) && Valid(cache, f)
    requires Run(cache, f, fit, sizes, update, draws).Success?
    ensures Valid(Run(cache, f, fit, sizes, update, draws).value.cache, f)
  {
    WarmUpValid(cache, f);
    LoopKeepsValid(Start(WarmUp(cache, f).st), f, fit, sizes, update, draws, 0);
  }

  /** A complete run fitted the models once per generation over its T iterations (that is
      ceil(T / update) times, by GenerationsCeil), drew one row of observations per
      iteration, and left them placed in the matrix. */
  lemma {:induction false} RunRecord(cache: CacheState, f: CharFn, fit: Fit, sizes: seq<nat>, update: nat, draws: seq<seq<real>>)
    requires |sizes| == cache.Players() && DrawRows(draws, |sizes|)
    requires Run(cache, f, fit, sizes, update, draws).Success?
    ensures update > 0
    ensures Run(cache, f, fit, sizes, update, draws).value.fits == Generations(|draws|, update)
    ensures |Run(cache, f, fit, sizes, update, draws).value.drawn| == |draws|
    ensures Rectangular(Run(cache, f, fit, sizes, update, draws).value.drawn, |sizes|)
    ensures Run(cache, f, fit, sizes, update, draws).value.rows == Placed(Run(cache, f, fit, sizes, update, draws).value.drawn, |sizes|)
  {
    var start := Start(WarmUp(cache, f).st);
    RunIsLoop(cache, f, fit, sizes, update, draws);
    StartLooping(cache, f, sizes, update, draws);
    LoopGenerations(start, f, fit, sizes, update, draws, 0);
    LoopPlaced(start, f, fit, sizes, update, draws, 0);
  }

  /** Before the first iteration the loop is ready, nothing is drawn and nothing fitted. */
  lemma {:induction false} StartLooping(cache: CacheState, f: CharFn, sizes: seq<nat>, update: nat, draws: seq<seq<real>>)
    requires update > 0 && |sizes| == cache.Players() && DrawRows(draws, |sizes|)
    ensures var start := Start(WarmUp(cache, f).st);
      && Looping(start, sizes, update, draws, 0) && start.fits == Generations(0, update)
      && |start.drawn| == 0 && Rectangular(start.drawn, |sizes|) && start.rows == Placed(start.drawn, |sizes|)
  {
  }

  lemma {:induction false} RunIsLoop(cache: CacheState, f: CharFn, fit: Fit, sizes: seq<nat>, update: nat, draws: seq<seq<real>>)
    requires |sizes| == cache.Players() && DrawRows(draws, |sizes|)
    requires Run(cache, f, fit, sizes, update, draws).Success?
    ensures update > 0
    ensures Run(cache, f, fit, sizes, update, draws) == Loop(Start(WarmUp(cache, f).st), f, fit, sizes, update, draws, 0)
  {
  }

  /** What AIS_Kriging reports: each score is the sum of the rows of observations drawn at
      iterations 1 .. T - 1 divided by T, iteration 0's row having been overwritten. */
  lemma {:induction false} AisScores(cache: CacheState, f: CharFn, fit: Fit, sizes: seq<nat>, update: nat, draws: seq<seq<real>>, k: nat)
    requires |sizes| == cache.Players() && DrawRows(draws, |sizes|) && |draws| >= MinIterations
    requires Run(cache, f, fit, sizes, update, draws).Success? && k < |sizes|
    ensures AisKriging(cache, f, fit, sizes, update, draws).Success?
    ensures var drawn := Run(cache, f, fit, sizes, update, draws).value.drawn;
      |drawn| == |draws| && Rectangular(drawn[1..], |sizes|) &&
      AisKriging(cache, f, fit, sizes, update, draws).value.scores[k] == ColumnSum(drawn[1..], k) / (|draws| as real)
  {
    var run := Run(cache, f, fit, sizes, update, draws).value;
    RunRecord(cache, f, fit, sizes, update, draws);
    PlacedMeans(run.drawn, |sizes|, k);
    assert AisKriging(cache, f, fit, sizes, update, draws).value.scores == ColumnMeans(run.rows, |sizes|);
  }

  /** From a sound memo, when each player's draw selects a coalition of the densities in
      force, the iteration succeeds, keeps the memo sound, and records the row of corrected
      true increments those draws determine. */
  lemma {:induction false} StepObserves(p: Sampler, f: CharFn, fit: Fit, sizes: seq<nat>, update: nat, t: nat, us: seq<real>)
    requires update > 0 && |sizes| == p.cache.Players() && |us| == |sizes|
    requires |p.rows| == t && Rectangular(p.rows, |sizes|)
    requires t % update != 0 ==> Tables(p.tables, |sizes|)
    requires Sound(p.cache, f) && Picks(InForce(p, fit, sizes, update, t), us)
    ensures Step(p, f, fit, sizes, update, t, us).Success?
    ensures Sound(Step(p, f, fit, sizes, update, t, us).value.cache, f)
    ensures Step(p, f, fit, sizes, update, t, us).value.drawn == p.drawn + [ObservedRow(f, InForce(p, fit, sizes, update, t), us)]
  {
    var ds := InForce(p, fit, sizes, update, t);
    SampleRowSound(p.cache, f, ds, us, 0);
    assert ObservedRow(f, ds, us)[0..] == ObservedRow(f, ds, us);
  }

  /** The densities in force right after a refit are the kriging densities of models fitted
      to the ledgers as the memo then holds them; between refits they are kept. */
  lemma {:induction false} InForceRefit(p: Sampler, fit: Fit, sizes: seq<nat>, update: nat, t: nat, k: nat)
    requires update > 0 && |sizes| == p.cache.Players() && k < |sizes|
    requires t % update != 0 ==> Tables(p.tables, |sizes|)
    ensures t % update == 0 ==>
      InForce(p, fit, sizes, update, t)[k] == KrigingDensity(sizes, k, fit(k, Dataset(p.cache.increments[k], sizes, k)))
    ensures t % update != 0 ==> InForce(p, fit, sizes, update, t) == p.tables
  {
  }
}
