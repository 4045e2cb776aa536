/** Stratified_MC and support: stratified sampling of the coalition a player joins. For
    each player a stratum (a coalition size) is chosen, a coalition of that size is drawn
    uniformly among the others, and the increment is recorded in the player's table for that
    stratum. Stratified_MC keeps every increment; support keeps one entry per distinct
    coalition with its count, and a running mean of the distinct increments. The stratum
    choice and the uniform draw are parameters. */
module Stratified {
  import opened Wrappers
  import opened Seqs
  import opened Cache
  import opened Combinatorics
  import opened Matrix
  import opened ImportanceSampling
  import opened IsLinEstimator

  /** The number C(N - 1, s) of coalitions of size s among the N - 1 players other than the
      one sampled. */
  function StratumSize(n: nat, s: nat): nat
    requires s < n
  {
    Binom(n - 1, s)
  }

  /** The within-stratum weight (N - 1 - s)! s! / (N - 1)! of a coalition of size s among the
      N - 1 players other than the one sampled. */
  function StratumWeight(n: nat, s: nat): (r: real)
    requires s < n
    ensures r > 0.0
  {
    Ratio(Fact(n - 1 - s), Fact(s), Fact(n - 1))
  }

  /** b (f1 f2 / fm) = 1 when b f2 f1 = fm. */
  lemma {:induction false} InverseArith(b: real, f1: real, f2: real, fm: real)
    requires b * f2 * f1 == fm && fm > 0.0
    ensures b * (f1 * f2 / fm) == 1.0
  {
    assert b * (f1 * f2 / fm) == (b * f2 * f1) / fm;
  }

  /** The same on naturals, through the casts to real. */
  lemma {:induction false} InverseNat(b: nat, f1: nat, f2: nat, fm: nat)
    requires b * f2 * f1 == fm && fm > 0
    ensures b > 0 && (b as real) * Ratio(f1, f2, fm) == 1.0
  {
    CastProduct3(b, f2, f1);
    InverseArith(b as real, f1 as real, f2 as real, fm as real);
  }

  /** The weight is the reciprocal of the number C(N - 1, s) of coalitions in the stratum. */
  lemma {:induction false} StratumWeightInverse(n: nat, s: nat)
    requires s < n
    ensures StratumSize(n, s) > 0
    ensures (StratumSize(n, s) as real) * StratumWeight(n, s) == 1.0
  {
    var b, f1, f2, fm := Binom(n - 1, s), Fact(n - 1 - s), Fact(s), Fact(n - 1);
    assert b > 0 && (b as real) * Ratio(f1, f2, fm) == 1.0 by {
      BinomFactorial(n - 1, s);
      InverseNat(b, f1, f2, fm);
    }
  }

  /** The coalitions of stratum s for player k: those of size s among the others, in the
      order of itertools.combinations. */
  function Stratum(n: nat, k: nat, s: nat): seq<seq<nat>>
  {
    Combinations(Others(n, k), s)
  }

  /** Each member of a stratum is a coalition of size s that leaves k out. */
  lemma {:induction false} StratumFacts(n: nat, k: nat, s: nat)
    requires k < n
    ensures |Stratum(n, k, s)| == Binom(n - 1, s)
    ensures forall i :: 0 <= i < |Stratum(n, k, s)| ==>
      IsCoalition(Stratum(n, k, s)[i], n) && k !in Stratum(n, k, s)[i] && |Stratum(n, k, s)[i]| == s
  {
    var xs := Others(n, k);
    OthersFacts(n, k);
    CombinationsSound(xs, s);
    forall i | 0 <= i < |Stratum(n, k, s)|
      ensures IsCoalition(Stratum(n, k, s)[i], n) && k !in Stratum(n, k, s)[i]
    {
      var c := Stratum(n, k, s)[i];
      assert Within(c, xs);
    }
  }

  /** The draw's walk over a stratum of m coalitions of weight w each: cumSum grows by w per
      coalition, and the walk stops at the first coalition where it exceeds u. */
  function Walk(m: nat, w: real, u: real, j: nat): (r: Option<nat>)
    requires j <= m
    ensures r.Some? ==> j <= r.value < m
    decreases m - j
  {
    if j == m then None
    else if Times(j + 1, w) > u then Some(j)
    else Walk(m, w, u, j + 1)
  }

  /** The cumulative weight after position t does not exceed u. */
  predicate Short(w: real, u: real, t: nat)
  {
    Times(t + 1, w) <= u
  }

  /** The walk stops at the first position from j whose cumulative weight exceeds u. */
  lemma {:induction false} WalkFirst(m: nat, w: real, u: real, j: nat)
    requires j <= m
    ensures Walk(m, w, u, j).Some? ==>
      !Short(w, u, Walk(m, w, u, j).value) &&
      forall t :: j <= t < Walk(m, w, u, j).value ==> Short(w, u, t)
    ensures Walk(m, w, u, j).None? ==> forall t :: j <= t < m ==> Short(w, u, t)
    decreases m - j
  {
    if j < m && Times(j + 1, w) <= u {
      WalkFirst(m, w, u, j + 1);
    }
  }

  lemma {:induction false} TimesMonotone(a: nat, b: nat, w: real)
    requires a <= b && w >= 0.0
    ensures Times(a, w) <= Times(b, w)
    decreases b - a
  {
    if a < b {
      TimesMonotone(a, b - 1, w);
    }
  }

  /** With positive weights and u >= 0 the walk stops at i exactly when u lies in
      [i w, (i + 1) w). */
  lemma {:induction false} WalkBand(m: nat, w: real, u: real, i: nat)
    requires w > 0.0 && 0.0 <= u && i < m
    ensures Walk(m, w, u, 0) == Some(i) <==> Times(i, w) <= u < Times(i + 1, w)
  {
    WalkFirst(m, w, u, 0);
    if Times(i, w) <= u < Times(i + 1, w) {
      assert !Short(w, u, i);
      forall t | 0 <= t < i
        ensures Short(w, u, t)
      {
        TimesMonotone(t + 1, i, w);
      }
    }
    if Walk(m, w, u, 0) == Some(i) && i > 0 {
      assert Short(w, u, i - 1);
    }
  }

  /** When the m weights add up to more than u the walk stops. */
  lemma {:induction false} WalkFound(m: nat, w: real, u: real)
    requires m > 0 && Times(m, w) > u
    ensures Walk(m, w, u, 0).Some?
  {
    WalkFirst(m, w, u, 0);
    assert !Short(w, u, m - 1);
  }

  /** i weights of a stratum add up to i / C(N - 1, s). */
  lemma {:induction false} StratumPrefix(n: nat, s: nat, i: nat)
    requires s < n
    ensures StratumSize(n, s) > 0
    ensures Times(i, StratumWeight(n, s)) == (i as real) / (StratumSize(n, s) as real)
  {
    StratumWeightInverse(n, s);
    TimesIsProduct(i, StratumWeight(n, s));
    var b := StratumSize(n, s) as real;
    assert StratumWeight(n, s) == 1.0 / b;
  }

  /** The draw of Stratified_MC and support: walk the stratum and stop at the first
      coalition whose cumulative weight exceeds u. With no such coalition (u >= 1) the source
      would go on with a stale or unbound S. */
  function StratumDraw(n: nat, k: nat, s: nat, u: real): (r: Option<seq<nat>>)
    requires k < n && s < n
    ensures r.Some? ==> IsCoalition(r.value, n) && k !in r.value && |r.value| == s
  {
    StratumFacts(n, k, s);
    match Walk(StratumSize(n, s), StratumWeight(n, s), u, 0)
    case None => None
    case Some(i) => Some(Stratum(n, k, s)[i])
  }

  /** A draw is a member of its stratum. */
  lemma {:induction false} StratumDrawMember(n: nat, k: nat, s: nat, u: real)
    requires k < n && s < n && StratumDraw(n, k, s, u).Some?
    ensures StratumDraw(n, k, s, u).value in Stratum(n, k, s)
  {
    StratumFacts(n, k, s);
  }

  /** The draw is uniform within the stratum: for 0 <= u < 1 it selects the i-th coalition
      of the stratum exactly when i <= u C(N - 1, s) < i + 1. */
  lemma {:induction false} StratumDrawUniform(n: nat, k: nat, s: nat, u: real, i: nat)
    requires k < n && s < n && 0.0 <= u < 1.0 && i < StratumSize(n, s)
    ensures i < |Stratum(n, k, s)|
    ensures StratumDraw(n, k, s, u).Some?
    ensures StratumDraw(n, k, s, u) == Some(Stratum(n, k, s)[i]) <==>
      (i as real) <= u * (StratumSize(n, s) as real) < (i + 1) as real
  {
    StratumFacts(n, k, s);
    StratumDrawFound(n, s, u);
    StratumDrawAt(n, k, s, u, i);
    StratumBand(n, s, u, i);
  }

  /** The draw is the i-th coalition of the stratum exactly when the walk stops at i. */
  lemma {:induction false} StratumDrawAt(n: nat, k: nat, s: nat, u: real, i: nat)
    requires k < n && s < n && i < |Stratum(n, k, s)|
    ensures StratumDraw(n, k, s, u) == Some(Stratum(n, k, s)[i]) <==>
      Walk(StratumSize(n, s), StratumWeight(n, s), u, 0) == Some(i)
  {
    StratumFacts(n, k, s);
    StratumDistinct(n, k, s, i);
  }

  /** For u < 1 the walk over a stratum stops. */
  lemma {:induction false} StratumDrawFound(n: nat, s: nat, u: real)
    requires s < n && u < 1.0
    ensures Walk(StratumSize(n, s), StratumWeight(n, s), u, 0).Some?
  {
    StratumTotal(n, s);
    WalkFound(StratumSize(n, s), StratumWeight(n, s), u);
  }

  /** The weights of a whole stratum add up to 1. */
  lemma {:induction false} StratumTotal(n: nat, s: nat)
    requires s < n
    ensures Times(StratumSize(n, s), StratumWeight(n, s)) == 1.0
  {
    StratumPrefix(n, s, StratumSize(n, s));
  }

  /** The walk stops at position i exactly when u C(N - 1, s) lies in [i, i + 1). */
  lemma {:induction false} StratumBand(n: nat, s: nat, u: real, i: nat)
    requires s < n && 0.0 <= u && i < StratumSize(n, s)
    ensures Walk(StratumSize(n, s), StratumWeight(n, s), u, 0) == Some(i) <==>
      (i as real) <= u * (StratumSize(n, s) as real) < (i + 1) as real
  {
    StratumWeightInverse(n, s);
    UniformBand(StratumSize(n, s), StratumWeight(n, s), u, i);
  }

  /** For m weights of 1 / m each, the walk stops at i exactly when i <= u m < i + 1. */
  lemma {:induction false} UniformBand(m: nat, w: real, u: real, i: nat)
    requires (m as real) * w == 1.0 && 0.0 <= u && i < m
    ensures Walk(m, w, u, 0) == Some(i) <==> (i as real) <= u * (m as real) < (i + 1) as real
  {
    var b := m as real;
    assert w == 1.0 / b;
    TimesIsProduct(i, w);
    TimesIsProduct(i + 1, w);
    assert Times(i, w) == (i as real) / b;
    assert Times(i + 1, w) == ((i + 1) as real) / b;
    WalkBand(m, w, u, i);
    BandScale(i as real, u, b);
  }

  /** i / b <= u < (i + 1) / b exactly when i <= u b < i + 1. */
  lemma {:induction false} BandScale(i: real, u: real, b: real)
    requires b > 0.0
    ensures (i / b <= u < (i + 1.0) / b) <==> (i <= u * b < i + 1.0)
  {
    assert i / b <= u <==> i <= u * b;
    assert u < (i + 1.0) / b <==> u * b < i + 1.0;
  }

  /** Distinct positions of a stratum hold distinct coalitions. */
  lemma {:induction false} StratumDistinct(n: nat, k: nat, s: nat, i: nat)
    requires k < n && i < |Stratum(n, k, s)|
    ensures forall j :: 0 <= j < |Stratum(n, k, s)| && Stratum(n, k, s)[j] == Stratum(n, k, s)[i] ==> j == i
  {
    var cs := Stratum(n, k, s);
    OthersFacts(n, k);
    CombinationsOrdered(Others(n, k), s);
    forall j | 0 <= j < |cs| && j != i
      ensures cs[j] != cs[i]
    {
      LexLessIrreflexive(cs[i]);
      if j < i {
        assert LexLess(cs[j], cs[i]);
      } else {
        assert LexLess(cs[i], cs[j]);
      }
    }
  }

  /** One player's random inputs for one iteration: the stratum chosen and the uniform u. */
  datatype Choice = Choice(stratum: nat, u: real)

  /** The coalition drawn for a player, its increment, and the memo afterwards. */
  datatype Sample = Sample(st: CacheState, coalition: seq<nat>, value: real)

  /** One increment for player k: draw S from the chosen stratum, query S ∪ {k}
      (np.append(S, k)) and then S. */
  function Contribute(cache: CacheState, f: CharFn, k: nat, c: Choice): (r: Result<Sample, Error>)
    requires k < cache.Players() && c.stratum < cache.Players()
    ensures r.Success? ==> r.value.st.Players() == cache.Players()
    ensures r.Success? ==> StratumDraw(cache.Players(), k, c.stratum, c.u) == Some(r.value.coalition)
  {
    var n := cache.Players();
    match StratumDraw(n, k, c.stratum, c.u)
    case None => Failure(NoDraw)
    case Some(s) =>
      var withK := Query(cache, f, Join(s, k, n));
      var without := Query(withK.st, f, s);
      Success(Sample(without.st, s, withK.value - without.value))
  }

  /** From a sound memo and 0 <= u < 1, the contribution is the true increment of k at the
      drawn coalition, and the memo stays sound. */
  lemma {:induction false} ContributeSound(cache: CacheState, f: CharFn, k: nat, c: Choice)
    requires Sound(cache, f) && k < cache.Players() && c.stratum < cache.Players() && 0.0 <= c.u < 1.0
    ensures Contribute(cache, f, k, c).Success?
    ensures Sound(Contribute(cache, f, k, c).value.st, f)
    ensures Contribute(cache, f, k, c).value.value == Increment(f, Contribute(cache, f, k, c).value.coalition, k)
  {
    var n := cache.Players();
    StratumDrawFound(n, c.stratum, c.u);
    var s := StratumDraw(n, k, c.stratum, c.u).value;
    QueryPair(cache, f, s, k);
  }

  /** A contribution keeps the memo valid. */
  lemma {:induction false} ContributeValid(cache: CacheState, f: CharFn, k: nat, c: Choice)
    requires Valid(cache, f) && k < cache.Players() && c.stratum < cache.Players()
    requires Contribute(cache, f, k, c).Success?
    ensures Valid(Contribute(cache, f, k, c).value.st, f)
  {
    var n := cache.Players();
    var s := StratumDraw(n, k, c.stratum, c.u).value;
    JoinFacts(s, k, n);
    QueryKeepsValid(cache, f, Join(s, k, n));
    var withK := Query(cache, f, Join(s, k, n));
    QueryKeepsValid(withK.st, f, s);
  }

  /** support's record of a distinct coalition: its increment and how often it was drawn. */
  datatype Entry = Entry(increment: real, count: nat)

  /** support's table for one player and stratum: the distinct coalitions in the order they
      were first drawn (a Python dict keeps that order), their entries, and mu[k, strata]. */
  datatype Tally = Tally(keys: seq<seq<nat>>, entries: map<seq<nat>, Entry>, mu: real)

  /** The table before any draw: an empty dict and mu = 0. */
  function EmptyTally(): Tally
  {
    Tally([], map[], 0.0)
  }

  /** Records one draw: a repeated coalition only has its count raised; a new one is stored
      with count 1 and folded into the running mean of the distinct increments. */
  function Record(t: Tally, s: seq<nat>, x: real): Tally
  {
    if s in t.entries then
      t.(entries := t.entries[s := t.entries[s].(count := t.entries[s].count + 1)])
    else
      var length := |t.keys| + 1;
      Tally(t.keys + [s], t.entries[s := Entry(x, 1)], (t.mu * ((length - 1) as real) + x) / (length as real))
  }

  /** Every listed key has an entry. */
  predicate Listed(keys: seq<seq<nat>>, entries: map<seq<nat>, Entry>)
  {
    forall i :: 0 <= i < |keys| ==> keys[i] in entries
  }

  /** The increments of the distinct coalitions, in the order they were first drawn. */
  function Increments(t: Tally): (r: seq<real>)
    requires Listed(t.keys, t.entries)
    ensures |r| == |t.keys|
  {
    seq(|t.keys|, i requires 0 <= i < |t.keys| => t.entries[t.keys[i]].increment)
  }

  /** The number of draws the table has seen: the sum of the counts. */
  function Total(keys: seq<seq<nat>>, entries: map<seq<nat>, Entry>): nat
    requires Listed(keys, entries)
  {
    if |keys| == 0 then 0 else Total(keys[..|keys| - 1], entries) + entries[keys[|keys| - 1]].count
  }

  /** The mean of a non-empty list of reals, zero for the empty list (mu's initial value). */
  function Mean(xs: seq<real>): real
  {
    if |xs| == 0 then 0.0 else Sum(xs) / (|xs| as real)
  }

  /** No coalition is listed twice. */
  predicate Distinct(keys: seq<seq<nat>>)
  {
    forall i, j :: 0 <= i < j < |keys| ==> keys[i] != keys[j]
  }

  /** The table's invariant: its keys are distinct and are exactly the dict's keys, every
      count is positive, and mu is the mean of the distinct increments. */
  predicate Kept(t: Tally)
  {
    && Distinct(t.keys)
    && (forall s :: s in t.entries ==> s in t.keys)
    && Listed(t.keys, t.entries)
    && (forall s :: s in t.entries ==> t.entries[s].count >= 1)
    && t.mu == Mean(Increments(t))
  }

  lemma {:induction false} EmptyKept()
    ensures Kept(EmptyTally()) && Total(EmptyTally().keys, EmptyTally().entries) == 0
  {
  }

  /** Tables that agree on the counts of the listed keys have the same total. */
  lemma {:induction false} TotalAgree(keys: seq<seq<nat>>, a: map<seq<nat>, Entry>, b: map<seq<nat>, Entry>)
    requires Listed(keys, a) && Listed(keys, b)
    requires forall i :: 0 <= i < |keys| ==> a[keys[i]].count == b[keys[i]].count
    ensures Total(keys, a) == Total(keys, b)
    decreases |keys|
  {
    if |keys| > 0 {
      TotalAgree(keys[..|keys| - 1], a, b);
    }
  }

  /** Raising the count of a key listed exactly once raises the total by one. */
  lemma {:induction false} TotalBump(keys: seq<seq<nat>>, a: map<seq<nat>, Entry>, s: seq<nat>)
    requires Listed(keys, a) && s in a
    requires Distinct(keys)
    ensures Listed(keys, a[s := a[s].(count := a[s].count + 1)])
    ensures Total(keys, a[s := a[s].(count := a[s].count + 1)]) == Total(keys, a) + (if s in keys then 1 else 0)
    decreases |keys|
  {
    var b := a[s := a[s].(count := a[s].count + 1)];
    if |keys| > 0 {
      var init := keys[..|keys| - 1];
      var last := keys[|keys| - 1];
      TotalBump(init, a, s);
      if last == s {
        forall i | 0 <= i < |init|
          ensures init[i] != s
        {
          assert keys[i] != keys[|keys| - 1];
        }
        assert s in keys;
      } else {
        assert s in keys <==> s in init by {
          assert keys == init + [last];
        }
      }
    }
  }

  /** (mu (L - 1) + x) / L is the mean of L values when mu was the mean of the first L - 1. */
  lemma {:induction false} RunningMean(mu: real, total: real, l: nat, x: real)
    requires l >= 1
    requires l == 1 ==> mu == 0.0 && total == 0.0
    requires l > 1 ==> mu == total / ((l - 1) as real)
    ensures (mu * ((l - 1) as real) + x) / (l as real) == (total + x) / (l as real)
  {
    if l > 1 {
      var m := (l - 1) as real;
      assert mu * m == total;
    }
  }

  /** A repeated coalition only has its count raised: the keys, mu and every increment stay,
      and no other count moves. */
  lemma {:induction false} RecordRepeat(t: Tally, s: seq<nat>, x: real)
    requires Kept(t) && s in t.entries
    ensures var r := Record(t, s, x);
      && r.keys == t.keys && r.mu == t.mu && r.entries.Keys == t.entries.Keys
      && r.entries[s] == Entry(t.entries[s].increment, t.entries[s].count + 1)
      && (forall c :: c in t.entries && c != s ==> r.entries[c] == t.entries[c])
  {
  }

  /** A new coalition is appended with its increment and count 1. */
  lemma {:induction false} RecordNew(t: Tally, s: seq<nat>, x: real)
    requires Kept(t) && s !in t.entries
    ensures var r := Record(t, s, x);
      && r.keys == t.keys + [s] && r.entries.Keys == t.entries.Keys + {s} && r.entries[s] == Entry(x, 1)
      && (forall c :: c in t.entries ==> r.entries[c] == t.entries[c])
  {
  }

  /** Recording a draw keeps the table's invariant and adds exactly one to its total. */
  lemma {:induction false} RecordKept(t: Tally, s: seq<nat>, x: real)
    requires Kept(t)
    ensures Kept(Record(t, s, x))
    ensures Total(Record(t, s, x).keys, Record(t, s, x).entries) == Total(t.keys, t.entries) + 1
  {
    if s in t.entries {
      RepeatKept(t, s, x);
    } else {
      NewKept(t, s, x);
    }
  }

  lemma {:induction false} RepeatKept(t: Tally, s: seq<nat>, x: real)
    requires Kept(t) && s in t.entries
    ensures Kept(Record(t, s, x))
    ensures Total(Record(t, s, x).keys, Record(t, s, x).entries) == Total(t.keys, t.entries) + 1
  {
    var r := Record(t, s, x);
    TotalBump(t.keys, t.entries, s);
    assert Increments(r) == Increments(t);
  }

  lemma {:induction false} NewKept(t: Tally, s: seq<nat>, x: real)
    requires Kept(t) && s !in t.entries
    ensures Kept(Record(t, s, x))
    ensures Total(Record(t, s, x).keys, Record(t, s, x).entries) == Total(t.keys, t.entries) + 1
  {
    NewDistinct(t, s, x);
    NewShape(t, s, x);
    NewMean(t, s, x);
    NewTotal(t, s, x);
  }

  /** A new coalition is listed, and its count is 1. */
  lemma {:induction false} NewShape(t: Tally, s: seq<nat>, x: real)
    requires Kept(t) && s !in t.entries
    ensures forall c :: c in Record(t, s, x).entries ==> c in Record(t, s, x).keys
    ensures forall c :: c in Record(t, s, x).entries ==> Record(t, s, x).entries[c].count >= 1
  {
  }

  lemma {:induction false} NewDistinct(t: Tally, s: seq<nat>, x: real)
    requires Kept(t) && s !in t.entries
    ensures Distinct(Record(t, s, x).keys)
  {
    var r := Record(t, s, x);
    forall i, j | 0 <= i < j < |r.keys|
      ensures r.keys[i] != r.keys[j]
    {
      if j == |t.keys| {
        assert t.keys[i] in t.entries;
      } else {
        assert r.keys[i] == t.keys[i] && r.keys[j] == t.keys[j];
      }
    }
  }

  /** Folding a value into the running mean of a list gives the mean of the longer list. */
  lemma {:induction false} MeanStep(xs: seq<real>, mu: real, x: real)
    requires mu == Mean(xs)
    ensures Mean(xs + [x]) == (mu * (|xs| as real) + x) / ((|xs| + 1) as real)
  {
    assert (xs + [x])[..|xs|] == xs;
    assert Sum(xs + [x]) == Sum(xs) + x;
    RunningMean(mu, Sum(xs), |xs| + 1, x);
  }

  /** A new coalition appends its increment to the table's increments. */
  lemma {:induction false} NewIncrements(t: Tally, s: seq<nat>, x: real)
    requires Listed(t.keys, t.entries) && s !in t.entries
    ensures Listed(Record(t, s, x).keys, Record(t, s, x).entries)
    ensures Increments(Record(t, s, x)) == Increments(t) + [x]
  {
    var r := Record(t, s, x);
    forall i | 0 <= i < |t.keys|
      ensures r.entries[r.keys[i]] == t.entries[t.keys[i]]
    {
      assert r.keys[i] == t.keys[i] && t.keys[i] in t.entries && t.keys[i] != s;
    }
  }

  /** The running mean after a new coalition is the mean of the distinct increments. */
  lemma {:induction false} NewMean(t: Tally, s: seq<nat>, x: real)
    requires Listed(t.keys, t.entries) && s !in t.entries && t.mu == Mean(Increments(t))
    ensures Listed(Record(t, s, x).keys, Record(t, s, x).entries)
    ensures Record(t, s, x).mu == Mean(Increments(Record(t, s, x)))
  {
    NewIncrements(t, s, x);
    MeanStep(Increments(t), t.mu, x);
  }

  lemma {:induction false} NewTotal(t: Tally, s: seq<nat>, x: real)
    requires Kept(t) && s !in t.entries
    ensures Listed(Record(t, s, x).keys, Record(t, s, x).entries)
    ensures Total(Record(t, s, x).keys, Record(t, s, x).entries) == Total(t.keys, t.entries) + 1
  {
    var r := Record(t, s, x);
    assert r.keys[..|r.keys| - 1] == t.keys && r.keys[|r.keys| - 1] == s;
    forall i | 0 <= i < |t.keys|
      ensures t.entries[t.keys[i]].count == r.entries[t.keys[i]].count
    {
      assert t.keys[i] in t.entries;
    }
    TotalAgree(t.keys, t.entries, r.entries);
    assert r.entries[s].count == 1;
  }

  /** What both estimators keep for one player and stratum: Stratified_MC's list of every
      increment (contributions[k][strata]) and support's table. */
  datatype Cell = Cell(observed: seq<real>, tally: Tally)

  function EmptyCell(): Cell
  {
    Cell([], EmptyTally())
  }

  /** A draw of coalition s with increment x, recorded in both forms. */
  function AddToCell(c: Cell, s: seq<nat>, x: real): Cell
  {
    Cell(c.observed + [x], Record(c.tally, s, x))
  }

  /** The table is kept and has seen as many draws as the list holds. */
  predicate CellKept(c: Cell)
  {
    Kept(c.tally) && Total(c.tally.keys, c.tally.entries) == |c.observed|
  }

  lemma {:induction false} AddKept(c: Cell, s: seq<nat>, x: real)
    requires CellKept(c)
    ensures CellKept(AddToCell(c, s, x))
  {
    RecordKept(c.tally, s, x);
  }

  /** An n by n grid, indexed by player and then stratum. */
  predicate Square<T>(g: seq<seq<T>>, n: nat)
  {
    |g| == n && forall k :: 0 <= k < n ==> |g[k]| == n
  }

  /** Every cell of the grid is kept. */
  predicate AllKept(g: seq<seq<Cell>>)
  {
    forall k, s :: 0 <= k < |g| && 0 <= s < |g[k]| ==> CellKept(g[k][s])
  }

  /** The sampling state: the memo, the cells, and the continuer flags. */
  datatype Strata = Strata(cache: CacheState, cells: seq<seq<Cell>>, flags: seq<seq<bool>>)

  predicate Fits(st: Strata)
  {
    Square(st.cells, st.cache.Players()) && Square(st.flags, st.cache.Players())
  }

  /** Before the first iteration: empty records, and every flag set. */
  function Start(cache: CacheState): (st: Strata)
    ensures Fits(st) && st.cache == cache
  {
    var n := cache.Players();
    Strata(cache, seq(n, k => seq(n, s => EmptyCell())), seq(n, k => seq(n, s => true)))
  }

  /** The random inputs of one iteration: one choice per player, each naming a stratum. */
  predicate Choices(cs: seq<Choice>, n: nat)
  {
    |cs| == n && forall k :: 0 <= k < n ==> cs[k].stratum < n
  }

  /** The memo and the cells part-way through an iteration. */
  datatype Progress = Progress(cache: CacheState, cells: seq<seq<Cell>>)

  /** One iteration's samples, one per player in turn, and the memo after them. */
  datatype Drawn = Drawn(cache: CacheState, samples: seq<Sample>)

  /** The players k, k + 1, ... draw in turn, each from its chosen stratum and through the
      memo; the first failed draw ends the iteration. */
  function Draws(cache: CacheState, f: CharFn, cs: seq<Choice>, k: nat): (r: Result<Drawn, Error>)
    requires Choices(cs, cache.Players()) && k <= cache.Players()
    ensures r.Success? ==> r.value.cache.Players() == cache.Players() && |r.value.samples| == cache.Players() - k
    decreases cache.Players() - k
  {
    if k == cache.Players() then Success(Drawn(cache, []))
    else
      match Contribute(cache, f, k, cs[k])
      case Failure(e) => Failure(e)
      case Success(a) =>
        match Draws(a.st, f, cs, k + 1)
        case Failure(e) => Failure(e)
        case Success(d) => Success(Drawn(d.cache, [a] + d.samples))
  }

  /** Player k's sample recorded in the cell of its chosen stratum s. */
  function Place(cells: seq<seq<Cell>>, k: nat, s: nat, a: Sample): (g: seq<seq<Cell>>)
    requires k < |cells| && s < |cells[k]|
    ensures |g| == |cells| && forall i :: 0 <= i < |g| ==> |g[i]| == |cells[i]|
  {
    cells[k := cells[k][s := AddToCell(cells[k][s], a.coalition, a.value)]]
  }

  /** Recording a sample adds one draw to its own cell and none elsewhere. */
  lemma {:induction false} PlaceCount(cells: seq<seq<Cell>>, k: nat, s: nat, a: Sample, p: nat, q: nat)
    requires k < |cells| && s < |cells[k]| && p < |cells| && q < |cells[p]|
    ensures |Place(cells, k, s, a)[p][q].observed| == |cells[p][q].observed| + (if p == k && q == s then 1 else 0)
  {
  }

  /** The samples of players k, k + 1, ... recorded in turn, each in its chosen stratum. */
  function Fill(cells: seq<seq<Cell>>, cs: seq<Choice>, samples: seq<Sample>, k: nat): (g: seq<seq<Cell>>)
    requires Square(cells, |cells|) && Choices(cs, |cells|) && k + |samples| == |cells|
    ensures Square(g, |cells|)
    decreases |samples|
  {
    if |samples| == 0 then cells
    else Fill(Place(cells, k, cs[k].stratum, samples[0]), cs, samples[1..], k + 1)
  }

  /** One iteration: every player draws from its chosen stratum through the memo, and each
      sample is recorded in its cell. */
  function Round(cache: CacheState, f: CharFn, cells: seq<seq<Cell>>, cs: seq<Choice>): (r: Result<Progress, Error>)
    requires Square(cells, cache.Players()) && Choices(cs, cache.Players())
    ensures r.Success? ==> r.value.cache.Players() == cache.Players() && Square(r.value.cells, cache.Players())
  {
    match Draws(cache, f, cs, 0)
    case Failure(e) => Failure(e)
    case Success(d) => Success(Progress(d.cache, Fill(cells, cs, d.samples, 0)))
  }

  /** The draws after which a cell stops asking for more: more than 20. */
  const Saturation: nat := 20

  /** continuer after an iteration: a flag is cleared once its cell holds more than 20 draws,
      and is never set again. */
  function UpdateFlags(flags: seq<seq<bool>>, cells: seq<seq<Cell>>, n: nat): (r: seq<seq<bool>>)
    requires Square(flags, n) && Square(cells, n)
    ensures Square(r, n)
    ensures forall k, s :: 0 <= k < n && 0 <= s < n ==>
      r[k][s] == (flags[k][s] && |cells[k][s].observed| <= Saturation)
  {
    seq(n, k requires 0 <= k < n => seq(n, s requires 0 <= s < n => flags[k][s] && |cells[k][s].observed| <= Saturation))
  }

  /** One iteration of the while loop: every player contributes, then the flags are updated. */
  function Iteration(st: Strata, f: CharFn, cs: seq<Choice>): (r: Result<Strata, Error>)
    requires Fits(st) && Choices(cs, st.cache.Players())
    ensures r.Success? ==> Fits(r.value) && r.value.cache.Players() == st.cache.Players()
  {
    match Round(st.cache, f, st.cells, cs)
    case Failure(e) => Failure(e)
    case Success(p) => Success(Strata(p.cache, p.cells, UpdateFlags(st.flags, p.cells, st.cache.Players())))
  }

  predicate AllChoices(rounds: seq<seq<Choice>>, n: nat)
  {
    forall t :: 0 <= t < |rounds| ==> Choices(rounds[t], n)
  }

  /** The while loop, one iteration per row of choices; their number is whatever the
      stopping rule allowed. */
  function Iterate(st: Strata, f: CharFn, rounds: seq<seq<Choice>>): (r: Result<Strata, Error>)
    requires Fits(st) && AllChoices(rounds, st.cache.Players())
    ensures r.Success? ==> Fits(r.value) && r.value.cache.Players() == st.cache.Players()
    decreases |rounds|
  {
    if |rounds| == 0 then Success(st)
    else
      match Iteration(st, f, rounds[0])
      case Failure(e) => Failure(e)
      case Success(next) =>
        assert AllChoices(rounds[1..], st.cache.Players()) by {
          forall t | 0 <= t < |rounds| - 1
            ensures Choices(rounds[1..][t], st.cache.Players())
          {
            assert rounds[1..][t] == rounds[t + 1];
          }
        }
        Iterate(next, f, rounds[1..])
  }

  /** The number of iterations that routed player p to stratum q. */
  function Routed(rounds: seq<seq<Choice>>, n: nat, p: nat, q: nat): nat
    requires AllChoices(rounds, n) && p < n
    decreases |rounds|
  {
    if |rounds| == 0 then 0
    else
      assert AllChoices(rounds[1..], n) by {
        forall t | 0 <= t < |rounds| - 1
          ensures Choices(rounds[1..][t], n)
        {
          assert rounds[1..][t] == rounds[t + 1];
        }
      }
      (if rounds[0][p].stratum == q then 1 else 0) + Routed(rounds[1..], n, p, q)
  }

  /** Recording the samples of players k, k + 1, ... adds one draw to cell (p, q) exactly
      when p is among them and chose stratum q. */
  lemma {:induction false} FillCount(cells: seq<seq<Cell>>, cs: seq<Choice>, samples: seq<Sample>, k: nat, p: nat, q: nat)
    requires Square(cells, |cells|) && Choices(cs, |cells|) && k + |samples| == |cells|
    requires p < |cells| && q < |cells|
    ensures |Fill(cells, cs, samples, k)[p][q].observed| ==
      |cells[p][q].observed| + (if k <= p && cs[p].stratum == q then 1 else 0)
    decreases |samples|
  {
    if |samples| > 0 {
      var g := Place(cells, k, cs[k].stratum, samples[0]);
      PlaceCount(cells, k, cs[k].stratum, samples[0], p, q);
      FillCount(g, cs, samples[1..], k + 1, p, q);
    }
  }

  /** In an iteration, player p's draw lands in its chosen stratum and nowhere else. */
  lemma {:induction false} RoundCount(cache: CacheState, f: CharFn, cells: seq<seq<Cell>>, cs: seq<Choice>, p: nat, q: nat)
    requires Square(cells, cache.Players()) && Choices(cs, cache.Players())
    requires p < cache.Players() && q < cache.Players()
    requires Round(cache, f, cells, cs).Success?
    ensures |Round(cache, f, cells, cs).value.cells[p][q].observed| ==
      |cells[p][q].observed| + (if cs[p].stratum == q then 1 else 0)
  {
    FillCount(cells, cs, Draws(cache, f, cs, 0).value.samples, 0, p, q);
  }

  /** Recording samples keeps every cell's table consistent with its list. */
  lemma {:induction false} FillKept(cells: seq<seq<Cell>>, cs: seq<Choice>, samples: seq<Sample>, k: nat)
    requires Square(cells, |cells|) && Choices(cs, |cells|) && k + |samples| == |cells|
    requires AllKept(cells)
    ensures AllKept(Fill(cells, cs, samples, k))
    decreases |samples|
  {
    if |samples| > 0 {
      PlaceKept(cells, k, cs[k].stratum, samples[0]);
      FillKept(Place(cells, k, cs[k].stratum, samples[0]), cs, samples[1..], k + 1);
    }
  }

  /** Recording one sample keeps every cell's table consistent with its list. */
  lemma {:induction false} PlaceKept(cells: seq<seq<Cell>>, k: nat, s: nat, a: Sample)
    requires k < |cells| && s < |cells[k]| && AllKept(cells)
    ensures AllKept(Place(cells, k, s, a))
  {
    AddKept(cells[k][s], a.coalition, a.value);
    UpdateKept(cells, k, s, AddToCell(cells[k][s], a.coalition, a.value));
  }

  /** An iteration keeps every cell's table consistent with its list. */
  lemma {:induction false} RoundKept(cache: CacheState, f: CharFn, cells: seq<seq<Cell>>, cs: seq<Choice>)
    requires Square(cells, cache.Players()) && Choices(cs, cache.Players())
    requires AllKept(cells) && Round(cache, f, cells, cs).Success?
    ensures AllKept(Round(cache, f, cells, cs).value.cells)
  {
    FillKept(cells, cs, Draws(cache, f, cs, 0).value.samples, 0);
  }

  lemma {:induction false} UpdateKept(g: seq<seq<Cell>>, k: nat, s: nat, c: Cell)
    requires AllKept(g) && k < |g| && s < |g[k]| && CellKept(c)
    ensures AllKept(g[k := g[k][s := c]])
  {
    var h := g[k := g[k][s := c]];
    forall i, j | 0 <= i < |h| && 0 <= j < |h[i]|
      ensures CellKept(h[i][j])
    {
      if i == k && j == s {
        assert h[i][j] == c;
      } else {
        assert h[i][j] == g[i][j];
      }
    }
  }

  /** From a sound memo, with every u in [0, 1), the draws all succeed and keep the memo sound. */
  lemma {:induction false} DrawsSound(cache: CacheState, f: CharFn, cs: seq<Choice>, k: nat)
    requires Choices(cs, cache.Players()) && k <= cache.Players()
    requires Sound(cache, f) && forall p :: 0 <= p < |cs| ==> 0.0 <= cs[p].u < 1.0
    ensures Draws(cache, f, cs, k).Success?
    ensures Sound(Draws(cache, f, cs, k).value.cache, f)
    decreases cache.Players() - k
  {
    if k < cache.Players() {
      ContributeSound(cache, f, k, cs[k]);
      var a := Contribute(cache, f, k, cs[k]).value;
      DrawsSound(a.st, f, cs, k + 1);
      var d := Draws(a.st, f, cs, k + 1).value;
      assert Draws(cache, f, cs, k) == Success(Drawn(d.cache, [a] + d.samples));
    }
  }

  /** From a sound memo, with every u in [0, 1), an iteration completes and keeps the memo sound. */
  lemma {:induction false} RoundSound(cache: CacheState, f: CharFn, cells: seq<seq<Cell>>, cs: seq<Choice>)
    requires Square(cells, cache.Players()) && Choices(cs, cache.Players())
    requires Sound(cache, f) && forall p :: 0 <= p < |cs| ==> 0.0 <= cs[p].u < 1.0
    ensures Round(cache, f, cells, cs).Success?
    ensures Sound(Round(cache, f, cells, cs).value.cache, f)
  {
    DrawsSound(cache, f, cs, 0);
  }

  /** A flag that is set belongs to a cell with at most 20 draws. */
  predicate Coherent(st: Strata, p: nat, q: nat)
    requires Fits(st) && p < st.cache.Players() && q < st.cache.Players()
  {
    st.flags[p][q] ==> |st.cells[p][q].observed| <= Saturation
  }

  /** Over the loop, cell (p, q) receives one draw per iteration that routed p to q; its flag
      ends set exactly when it was set and the cell holds at most 20 draws. */
  lemma {:induction false} IterateCount(st: Strata, f: CharFn, rounds: seq<seq<Choice>>, p: nat, q: nat)
    requires Fits(st) && AllChoices(rounds, st.cache.Players())
    requires p < st.cache.Players() && q < st.cache.Players() && Coherent(st, p, q)
    requires Iterate(st, f, rounds).Success?
    ensures var r := Iterate(st, f, rounds).value;
      && |r.cells[p][q].observed| == |st.cells[p][q].observed| + Routed(rounds, st.cache.Players(), p, q)
      && r.flags[p][q] == (st.flags[p][q] && |r.cells[p][q].observed| <= Saturation)
    decreases |rounds|
  {
    if |rounds| > 0 {
      var n := st.cache.Players();
      var pr := Round(st.cache, f, st.cells, rounds[0]).value;
      RoundCount(st.cache, f, st.cells, rounds[0], p, q);
      var next := Iteration(st, f, rounds[0]).value;
      assert next.cells == pr.cells;
      assert AllChoices(rounds[1..], n) by {
        forall t | 0 <= t < |rounds| - 1
          ensures Choices(rounds[1..][t], n)
        {
          assert rounds[1..][t] == rounds[t + 1];
        }
      }
      IterateCount(next, f, rounds[1..], p, q);
    }
  }

  /** The loop keeps every cell's table consistent with its list. */
  lemma {:induction false} IterateKept(st: Strata, f: CharFn, rounds: seq<seq<Choice>>)
    requires Fits(st) && AllChoices(rounds, st.cache.Players())
    requires AllKept(st.cells) && Iterate(st, f, rounds).Success?
    ensures AllKept(Iterate(st, f, rounds).value.cells)
    decreases |rounds|
  {
    if |rounds| > 0 {
      var n := st.cache.Players();
      RoundKept(st.cache, f, st.cells, rounds[0]);
      var next := Iteration(st, f, rounds[0]).value;
      assert AllChoices(rounds[1..], n) by {
        forall t | 0 <= t < |rounds| - 1
          ensures Choices(rounds[1..][t], n)
        {
          assert rounds[1..][t] == rounds[t + 1];
        }
      }
      IterateKept(next, f, rounds[1..]);
    }
  }

  /** The draws keep the memo valid. */
  lemma {:induction false} DrawsValid(cache: CacheState, f: CharFn, cs: seq<Choice>, k: nat)
    requires Choices(cs, cache.Players()) && k <= cache.Players()
    requires Valid(cache, f) && Draws(cache, f, cs, k).Success?
    ensures Valid(Draws(cache, f, cs, k).value.cache, f)
    decreases cache.Players() - k
  {
    if k < cache.Players() {
      ContributeValid(cache, f, k, cs[k]);
      var a := Contribute(cache, f, k, cs[k]).value;
      DrawsValid(a.st, f, cs, k + 1);
    }
  }

  /** An iteration keeps the memo valid. */
  lemma {:induction false} RoundValid(cache: CacheState, f: CharFn, cells: seq<seq<Cell>>, cs: seq<Choice>)
    requires Square(cells, cache.Players()) && Choices(cs, cache.Players())
    requires Valid(cache, f) && Round(cache, f, cells, cs).Success?
    ensures Valid(Round(cache, f, cells, cs).value.cache, f)
  {
    DrawsValid(cache, f, cs, 0);
  }

  /** The loop keeps the memo valid. */
  lemma {:induction false} IterateValid(st: Strata, f: CharFn, rounds: seq<seq<Choice>>)
    requires Fits(st) && AllChoices(rounds, st.cache.Players())
    requires Valid(st.cache, f) && Iterate(st, f, rounds).Success?
    ensures Valid(Iterate(st, f, rounds).value.cache, f)
    decreases |rounds|
  {
    if |rounds| > 0 {
      var n := st.cache.Players();
      RoundValid(st.cache, f, st.cells, rounds[0]);
      var next := Iteration(st, f, rounds[0]).value;
      assert AllChoices(rounds[1..], n) by {
        forall t | 0 <= t < |rounds| - 1
          ensures Choices(rounds[1..][t], n)
        {
          assert rounds[1..][t] == rounds[t + 1];
        }
      }
      IterateValid(next, f, rounds[1..]);
    }
  }

  /** Every u of the loop lies in [0, 1). */
  predicate UnitDraws(rounds: seq<seq<Choice>>)
  {
    forall t, p :: 0 <= t < |rounds| && 0 <= p < |rounds[t]| ==> 0.0 <= rounds[t][p].u < 1.0
  }

  /** From a sound memo, with every u in [0, 1), the loop runs to the end and keeps the memo sound. */
  lemma {:induction false} IterateSound(st: Strata, f: CharFn, rounds: seq<seq<Choice>>)
    requires Fits(st) && AllChoices(rounds, st.cache.Players())
    requires Sound(st.cache, f) && UnitDraws(rounds)
    ensures Iterate(st, f, rounds).Success?
    ensures Sound(Iterate(st, f, rounds).value.cache, f)
    decreases |rounds|
  {
    if |rounds| > 0 {
      var n := st.cache.Players();
      RoundSound(st.cache, f, st.cells, rounds[0]);
      var next := Iteration(st, f, rounds[0]).value;
      assert AllChoices(rounds[1..], n) by {
        forall t | 0 <= t < |rounds| - 1
          ensures Choices(rounds[1..][t], n)
        {
          assert rounds[1..][t] == rounds[t + 1];
        }
      }
      assert UnitDraws(rounds[1..]) by {
        forall t, p | 0 <= t < |rounds| - 1 && 0 <= p < |rounds[1..][t]|
          ensures 0.0 <= rounds[1..][t][p].u < 1.0
        {
          assert rounds[1..][t] == rounds[t + 1];
        }
      }
      IterateSound(next, f, rounds[1..]);
    }
  }

  /** From the start, cell (p, q) holds one draw per iteration that routed p to q, support's
      table agrees with that count, and the flag is still set exactly when there were at most 20. */
  lemma {:induction false} FromStart(cache: CacheState, f: CharFn, rounds: seq<seq<Choice>>, p: nat, q: nat)
    requires AllChoices(rounds, cache.Players()) && p < cache.Players() && q < cache.Players()
    requires Iterate(Start(cache), f, rounds).Success?
    ensures var r := Iterate(Start(cache), f, rounds).value;
      && CellKept(r.cells[p][q])
      && |r.cells[p][q].observed| == Routed(rounds, cache.Players(), p, q)
      && Total(r.cells[p][q].tally.keys, r.cells[p][q].tally.entries) == Routed(rounds, cache.Players(), p, q)
      && r.flags[p][q] == (Routed(rounds, cache.Players(), p, q) <= Saturation)
  {
    var st := Start(cache);
    StartKept(cache);
    assert st.cells[p][q] == EmptyCell() && st.flags[p][q];
    IterateCount(st, f, rounds, p, q);
    IterateKept(st, f, rounds);
    var r := Iterate(st, f, rounds).value;
    assert CellKept(r.cells[p][q]);
  }

  lemma {:induction false} StartKept(cache: CacheState)
    ensures AllKept(Start(cache).cells)
  {
    var g := Start(cache).cells;
    forall i, j | 0 <= i < |g| && 0 <= j < |g[i]|
      ensures CellKept(g[i][j])
    {
      assert g[i][j] == EmptyCell();
      EmptyKept();
    }
  }

  /** What cell (k, s) may hold: increments of player k at coalitions of stratum s, and a
      table keyed by such coalitions, each with its true increment. */
  predicate CellTrue(f: CharFn, n: nat, k: nat, s: nat, c: Cell)
    requires k < n && s < n
  {
    && (forall i :: 0 <= i < |c.observed| ==> c.observed[i] in IncrementsAt(f, Stratum(n, k, s), k))
    && (forall key :: key in c.tally.entries ==>
         key in Stratum(n, k, s) && c.tally.entries[key].increment == Increment(f, key, k))
  }

  /** Every cell of the grid holds only true increments of its own stratum. */
  predicate AllTrue(f: CharFn, n: nat, g: seq<seq<Cell>>)
    requires Square(g, n)
  {
    forall k, s :: 0 <= k < n && 0 <= s < n ==> CellTrue(f, n, k, s, g[k][s])
  }

  /** Adding the true increment at a coalition of the stratum keeps the cell true. */
  lemma {:induction false} AddTrue(f: CharFn, n: nat, k: nat, s: nat, c: Cell, key: seq<nat>)
    requires k < n && s < n && CellTrue(f, n, k, s, c) && key in Stratum(n, k, s)
    ensures CellTrue(f, n, k, s, AddToCell(c, key, Increment(f, key, k)))
  {
    var cs := Stratum(n, k, s);
    var j :| 0 <= j < |cs| && cs[j] == key;
    assert IncrementsAt(f, cs, k)[j] == Increment(f, key, k);
  }

  lemma {:induction false} UpdateTrue(f: CharFn, n: nat, g: seq<seq<Cell>>, k: nat, s: nat, c: Cell)
    requires Square(g, n) && AllTrue(f, n, g) && k < n && s < n && CellTrue(f, n, k, s, c)
    ensures Square(g[k := g[k][s := c]], n) && AllTrue(f, n, g[k := g[k][s := c]])
  {
    var h := g[k := g[k][s := c]];
    forall i, j | 0 <= i < n && 0 <= j < n
      ensures CellTrue(f, n, i, j, h[i][j])
    {
      if i == k && j == s {
        assert h[i][j] == c;
      } else {
        assert h[i][j] == g[i][j];
      }
    }
  }

  /** Sample i of the players from k on is the true increment of player k + i at a coalition
      of its chosen stratum. */
  predicate SamplesTrue(f: CharFn, n: nat, cs: seq<Choice>, samples: seq<Sample>, k: nat)
    requires Choices(cs, n) && k + |samples| <= n
  {
    forall i :: 0 <= i < |samples| ==>
      && samples[i].coalition in Stratum(n, k + i, cs[k + i].stratum)
      && samples[i].value == Increment(f, samples[i].coalition, k + i)
  }

  /** From a sound memo, with every u in [0, 1), each draw is a true increment of its stratum. */
  lemma {:induction false} DrawsTrue(cache: CacheState, f: CharFn, cs: seq<Choice>, k: nat)
    requires Choices(cs, cache.Players()) && k <= cache.Players()
    requires Sound(cache, f) && forall p :: 0 <= p < |cs| ==> 0.0 <= cs[p].u < 1.0
    ensures Draws(cache, f, cs, k).Success?
    ensures SamplesTrue(f, cache.Players(), cs, Draws(cache, f, cs, k).value.samples, k)
    decreases cache.Players() - k
  {
    DrawsSound(cache, f, cs, k);
    if k < cache.Players() {
      var n := cache.Players();
      ContributeSound(cache, f, k, cs[k]);
      var a := Contribute(cache, f, k, cs[k]).value;
      StratumDrawMember(n, k, cs[k].stratum, cs[k].u);
      DrawsTrue(a.st, f, cs, k + 1);
      var d := Draws(a.st, f, cs, k + 1).value;
      assert Draws(cache, f, cs, k).value.samples == [a] + d.samples;
      SamplesTrueCons(f, n, cs, a, d.samples, k);
    }
  }

  /** A true sample for player k ahead of true samples for the players after it. */
  lemma {:induction false} SamplesTrueCons(f: CharFn, n: nat, cs: seq<Choice>, a: Sample, rest: seq<Sample>, k: nat)
    requires Choices(cs, n) && k + 1 + |rest| <= n
    requires a.coalition in Stratum(n, k, cs[k].stratum) && a.value == Increment(f, a.coalition, k)
    requires SamplesTrue(f, n, cs, rest, k + 1)
    ensures SamplesTrue(f, n, cs, [a] + rest, k)
  {
    var all := [a] + rest;
    forall i | 0 <= i < |all|
      ensures all[i].coalition in Stratum(n, k + i, cs[k + i].stratum)
      ensures all[i].value == Increment(f, all[i].coalition, k + i)
    {
      if i > 0 {
        assert all[i] == rest[i - 1];
        assert k + i == (k + 1) + (i - 1);
      }
    }
  }

  /** Recording true increments keeps every cell true. */
  lemma {:induction false} FillTrue(f: CharFn, cells: seq<seq<Cell>>, cs: seq<Choice>, samples: seq<Sample>, k: nat)
    requires Square(cells, |cells|) && Choices(cs, |cells|) && k + |samples| == |cells|
    requires AllTrue(f, |cells|, cells) && SamplesTrue(f, |cells|, cs, samples, k)
    ensures AllTrue(f, |cells|, Fill(cells, cs, samples, k))
    decreases |samples|
  {
    if |samples| > 0 {
      var n := |cells|;
      var s := cs[k].stratum;
      var a := samples[0];
      assert a.coalition in Stratum(n, k + 0, s);
      AddTrue(f, n, k, s, cells[k][s], a.coalition);
      UpdateTrue(f, n, cells, k, s, AddToCell(cells[k][s], a.coalition, a.value));
      assert SamplesTrue(f, n, cs, samples[1..], k + 1) by {
        forall i | 0 <= i < |samples| - 1
          ensures samples[1..][i].coalition in Stratum(n, k + 1 + i, cs[k + 1 + i].stratum)
          ensures samples[1..][i].value == Increment(f, samples[1..][i].coalition, k + 1 + i)
        {
          assert samples[1..][i] == samples[i + 1];
          assert k + 1 + i == k + (i + 1);
        }
      }
      FillTrue(f, Place(cells, k, s, a), cs, samples[1..], k + 1);
    }
  }

  /** From a sound memo, with every u in [0, 1), an iteration adds only true increments. */
  lemma {:induction false} RoundTrue(cache: CacheState, f: CharFn, cells: seq<seq<Cell>>, cs: seq<Choice>)
    requires Square(cells, cache.Players()) && Choices(cs, cache.Players())
    requires Sound(cache, f) && forall p :: 0 <= p < |cs| ==> 0.0 <= cs[p].u < 1.0
    requires AllTrue(f, cache.Players(), cells)
    ensures Round(cache, f, cells, cs).Success?
    ensures AllTrue(f, cache.Players(), Round(cache, f, cells, cs).value.cells)
  {
    DrawsTrue(cache, f, cs, 0);
    FillTrue(f, cells, cs, Draws(cache, f, cs, 0).value.samples, 0);
  }

  /** From a sound memo, with every u in [0, 1), the loop adds only true increments. */
  lemma {:induction false} IterateTrue(st: Strata, f: CharFn, rounds: seq<seq<Choice>>)
    requires Fits(st) && AllChoices(rounds, st.cache.Players())
    requires Sound(st.cache, f) && UnitDraws(rounds) && AllTrue(f, st.cache.Players(), st.cells)
    ensures Iterate(st, f, rounds).Success?
    ensures AllTrue(f, st.cache.Players(), Iterate(st, f, rounds).value.cells)
    decreases |rounds|
  {
    IterateSound(st, f, rounds);
    if |rounds| > 0 {
      var n := st.cache.Players();
      RoundTrue(st.cache, f, st.cells, rounds[0]);
      RoundSound(st.cache, f, st.cells, rounds[0]);
      var next := Iteration(st, f, rounds[0]).value;
      assert AllChoices(rounds[1..], n) by {
        forall t | 0 <= t < |rounds| - 1
          ensures Choices(rounds[1..][t], n)
        {
          assert rounds[1..][t] == rounds[t + 1];
        }
      }
      assert UnitDraws(rounds[1..]) by {
        forall t, p | 0 <= t < |rounds| - 1 && 0 <= p < |rounds[1..][t]|
          ensures 0.0 <= rounds[1..][t][p].u < 1.0
        {
          assert rounds[1..][t] == rounds[t + 1];
        }
      }
      IterateTrue(next, f, rounds[1..]);
    }
  }

  lemma {:induction false} StartTrue(cache: CacheState, f: CharFn)
    ensures AllTrue(f, cache.Players(), Start(cache).cells)
  {
  }

  /** Stratified_MC's mu[k, strata]: the mean of the cell's list, 0 while it is empty. */
  function ListMeans(cells: seq<seq<Cell>>, n: nat): (mu: seq<seq<real>>)
    requires Square(cells, n)
    ensures Square(mu, n)
  {
    seq(n, k requires 0 <= k < n => seq(n, s requires 0 <= s < n => Mean(cells[k][s].observed)))
  }

  /** support's mu[k, strata]: the running mean kept by the table. */
  function TallyMeans(cells: seq<seq<Cell>>, n: nat): (mu: seq<seq<real>>)
    requires Square(cells, n)
    ensures Square(mu, n)
  {
    seq(n, k requires 0 <= k < n => seq(n, s requires 0 <= s < n => cells[k][s].tally.mu))
  }

  /** np.mean(mu, axis=0) as the source writes it: entry q averages stratum q over the
      players, although mu's rows are players and its columns strata. */
  function WrittenScores(mu: seq<seq<real>>, n: nat): (r: seq<real>)
    requires n > 0 && Square(mu, n)
    ensures |r| == n
  {
    ColumnMeans(mu, n)
  }

  /** The estimate the method stands for: player k's stratum means averaged over its n strata. */
  function StrataScores(mu: seq<seq<real>>, n: nat): (r: seq<real>)
    requires n > 0 && Square(mu, n)
    ensures |r| == n
  {
    seq(n, k requires 0 <= k < n => Sum(mu[k]) / (n as real))
  }

  /** Player k's increments at each of the listed coalitions, in order. */
  function IncrementsAt(f: CharFn, cs: seq<seq<nat>>, k: nat): (r: seq<real>)
    ensures |r| == |cs|
  {
    seq(|cs|, i requires 0 <= i < |cs| => Increment(f, cs[i], k))
  }

  /** The exact value the cell (k, s) estimates: k's mean increment over stratum s. */
  function StratumMean(f: CharFn, n: nat, k: nat, s: nat): real
    requires k < n && s < n
  {
    Mean(IncrementsAt(f, Stratum(n, k, s), k))
  }

  /** The grid of exact stratum means, rows indexed by player. */
  function ExactMeans(f: CharFn, n: nat): (mu: seq<seq<real>>)
    ensures Square(mu, n)
  {
    seq(n, k requires 0 <= k < n => seq(n, s requires 0 <= s < n => StratumMean(f, n, k, s)))
  }

  /** t = p x is x / (n b) when b p = 1 / n. */
  lemma {:induction false} WeightArith(b: real, p: real, n: real, x: real, t: real)
    requires b > 0.0 && n > 0.0 && b * p == 1.0 / n && t == p * x
    ensures t == x / (n * b)
  {
    assert p == 1.0 / (n * b);
  }

  /** a / (n b) = (a / b) / n. */
  lemma {:induction false} NestedDiv(a: real, b: real, n: real)
    requires b > 0.0 && n > 0.0
    ensures a / (n * b) == (a / b) / n
  {
  }

  /** Each t_i is p x_i. */
  predicate Scaled(ts: seq<real>, xs: seq<real>, p: real)
  {
    |ts| == |xs| && forall i :: 0 <= i < |ts| ==> ts[i] == p * xs[i]
  }

  /** Terms p x_i with |xs| p = 1 / n add up to the mean of the x_i divided by n. */
  lemma {:induction false} TermsScaled(xs: seq<real>, ts: seq<real>, p: real, n: real)
    requires n > 0.0 && (|xs| as real) * p == 1.0 / n && Scaled(ts, xs, p)
    ensures Sum(ts) == Mean(xs) / n
  {
    var b := |xs| as real;
    assert b > 0.0;
    forall i | 0 <= i < |ts|
      ensures ts[i] == xs[i] / (n * b)
    {
      WeightArith(b, p, n, xs[i], ts[i]);
    }
    SumScaled(xs, ts, n * b);
    NestedDiv(Sum(xs), b, n);
  }

  /** Each Shapley term of a block of size-s coalitions is the common weight times the increment. */
  lemma {:induction false} BlockTerms(f: CharFn, n: nat, k: nat, s: nat, cs: seq<seq<nat>>)
    requires s < n && forall i :: 0 <= i < |cs| ==> |cs[i]| == s
    ensures SizesBelow(cs, n)
    ensures Scaled(ShapleyTerms(f, n, k, cs), IncrementsAt(f, cs, k), Prob(n, s))
  {
  }

  /** A block of C(N - 1, s) coalitions of size s carries 1 / n of the Shapley weight, spread
      evenly, so its Shapley terms add up to the mean increment divided by n. */
  lemma {:induction false} BlockShare(f: CharFn, n: nat, k: nat, s: nat, cs: seq<seq<nat>>)
    requires s < n && |cs| == Binom(n - 1, s) && forall i :: 0 <= i < |cs| ==> |cs[i]| == s
    ensures SizesBelow(cs, n)
    ensures Sum(ShapleyTerms(f, n, k, cs)) == Mean(IncrementsAt(f, cs, k)) / (n as real)
  {
    var xs, ts, p := IncrementsAt(f, cs, k), ShapleyTerms(f, n, k, cs), Prob(n, s);
    assert SizesBelow(cs, n) && Scaled(ts, xs, p) by {
      BlockTerms(f, n, k, s, cs);
    }
    assert (|xs| as real) * p == 1.0 / (n as real) by {
      ProbShare(n, s);
    }
    assert Sum(ts) == Mean(xs) / (n as real) by {
      TermsScaled(xs, ts, p, n as real);
    }
  }

  /** Stratum s of player k: its Shapley terms add up to the stratum mean divided by n. */
  lemma {:induction false} StratumShare(f: CharFn, n: nat, k: nat, s: nat)
    requires k < n && s < n
    ensures SizesBelow(Stratum(n, k, s), n)
    ensures Sum(ShapleyTerms(f, n, k, Stratum(n, k, s))) == StratumMean(f, n, k, s) / (n as real)
  {
    StratumFacts(n, k, s);
    BlockShare(f, n, k, s, Stratum(n, k, s));
  }

  lemma {:induction false} TermsConcat(f: CharFn, n: nat, k: nat, a: seq<seq<nat>>, b: seq<seq<nat>>)
    requires SizesBelow(a, n) && SizesBelow(b, n)
    ensures SizesBelow(a + b, n)
    ensures ShapleyTerms(f, n, k, a + b) == ShapleyTerms(f, n, k, a) + ShapleyTerms(f, n, k, b)
  {
    var l, r := ShapleyTerms(f, n, k, a), ShapleyTerms(f, n, k, b);
    forall i | 0 <= i < |a| + |b|
      ensures ShapleyTerms(f, n, k, a + b)[i] == (l + r)[i]
    {
      if i < |a| {
        assert (a + b)[i] == a[i];
      } else {
        assert (a + b)[i] == b[i - |a|];
      }
    }
  }

  /** t = x + y with x = h / n and y = r / n gives t = (h + r) / n. */
  lemma {:induction false} AddDiv(t: real, x: real, y: real, h: real, r: real, z: real, n: real)
    requires n > 0.0 && t == x + y && x == h / n && y == r / n && z == h + r
    ensures t == z / n
  {
  }

  /** The strata lo..n - 1 carry the Shapley terms of their coalitions. */
  lemma {:induction false} StrataFrom(f: CharFn, n: nat, k: nat, lo: nat)
    requires k < n && lo <= n
    ensures SizesBelow(BySize(Others(n, k), lo, n - 1), n)
    ensures Sum(ShapleyTerms(f, n, k, BySize(Others(n, k), lo, n - 1))) == Sum(ExactMeans(f, n)[k][lo..]) / (n as real)
    decreases n - lo
  {
    if lo == n {
      StrataNone(f, n, k);
    } else {
      StrataFrom(f, n, k, lo + 1);
      StrataStep(f, n, k, lo);
    }
  }

  /** No stratum from n on: no terms and no means. */
  lemma {:induction false} StrataNone(f: CharFn, n: nat, k: nat)
    requires k < n
    ensures SizesBelow(BySize(Others(n, k), n, n - 1), n)
    ensures Sum(ShapleyTerms(f, n, k, BySize(Others(n, k), n, n - 1))) == Sum(ExactMeans(f, n)[k][n..]) / (n as real)
  {
    BySizeEmpty(Others(n, k), n, n - 1);
    assert ShapleyTerms(f, n, k, []) == [];
    assert ExactMeans(f, n)[k][n..] == [];
    assert 0.0 / (n as real) == 0.0;
  }

  /** No sizes from lo to hi < lo: no coalitions. */
  lemma {:induction false} BySizeEmpty(xs: seq<nat>, lo: nat, hi: int)
    requires lo > hi
    ensures BySize(xs, lo, hi) == []
  {
  }

  /** Stratum lo adds its exact mean divided by n to the Shapley terms of the strata after it. */
  lemma {:induction false} StrataStep(f: CharFn, n: nat, k: nat, lo: nat)
    requires k < n && lo < n && SizesBelow(BySize(Others(n, k), lo + 1, n - 1), n)
    requires Sum(ShapleyTerms(f, n, k, BySize(Others(n, k), lo + 1, n - 1))) == Sum(ExactMeans(f, n)[k][lo + 1..]) / (n as real)
    ensures SizesBelow(BySize(Others(n, k), lo, n - 1), n)
    ensures Sum(ShapleyTerms(f, n, k, BySize(Others(n, k), lo, n - 1))) == Sum(ExactMeans(f, n)[k][lo..]) / (n as real)
  {
    StratumShare(f, n, k, lo);
    StrataSplit(f, n, k, lo);
    RowFront(f, n, k, lo);
    var row := ExactMeans(f, n)[k];
    AddDiv(Sum(ShapleyTerms(f, n, k, BySize(Others(n, k), lo, n - 1))),
      Sum(ShapleyTerms(f, n, k, Stratum(n, k, lo))), Sum(ShapleyTerms(f, n, k, BySize(Others(n, k), lo + 1, n - 1))),
      StratumMean(f, n, k, lo), Sum(row[lo + 1..]), Sum(row[lo..]), n as real);
  }

  /** The Shapley terms of the strata lo.. are those of stratum lo followed by those of the
      strata after it. */
  lemma {:induction false} StrataSplit(f: CharFn, n: nat, k: nat, lo: nat)
    requires k < n && lo < n && SizesBelow(BySize(Others(n, k), lo + 1, n - 1), n)
    ensures SizesBelow(Stratum(n, k, lo), n) && SizesBelow(BySize(Others(n, k), lo, n - 1), n)
    ensures Sum(ShapleyTerms(f, n, k, BySize(Others(n, k), lo, n - 1))) ==
      Sum(ShapleyTerms(f, n, k, Stratum(n, k, lo))) + Sum(ShapleyTerms(f, n, k, BySize(Others(n, k), lo + 1, n - 1)))
  {
    var head := Stratum(n, k, lo);
    var tail := BySize(Others(n, k), lo + 1, n - 1);
    StratumFacts(n, k, lo);
    assert SizesBelow(head, n);
    assert BySize(Others(n, k), lo, n - 1) == head + tail;
    TermsConcat(f, n, k, head, tail);
    SumConcat(ShapleyTerms(f, n, k, head), ShapleyTerms(f, n, k, tail));
  }

  /** The exact means of strata lo.. add up to that of stratum lo plus those after it. */
  lemma {:induction false} RowFront(f: CharFn, n: nat, k: nat, lo: nat)
    requires k < n && lo < n
    ensures Sum(ExactMeans(f, n)[k][lo..]) == StratumMean(f, n, k, lo) + Sum(ExactMeans(f, n)[k][lo + 1..])
  {
    var row := ExactMeans(f, n)[k];
    assert row[lo] == StratumMean(f, n, k, lo);
    SumFront(row, lo);
  }

  lemma {:induction false} SumFront(r: seq<real>, lo: nat)
    requires lo < |r|
    ensures Sum(r[lo..]) == r[lo] + Sum(r[lo + 1..])
  {
    assert r[lo..] == [r[lo]] + r[lo + 1..];
    SumConcat([r[lo]], r[lo + 1..]);
    assert [r[lo]][..0] == [];
  }

  /** The stratified identity behind both methods: the Shapley value of player k is the
      average over its n strata of its exact stratum means. */
  lemma {:induction false} ExactStrataShapley(f: CharFn, n: nat, k: nat)
    requires k < n
    ensures StrataScores(ExactMeans(f, n), n)[k] == ShapleyValue(f, n, k)
  {
    OthersFacts(n, k);
    StrataFrom(f, n, k, 0);
    assert ExactMeans(f, n)[k][0..] == ExactMeans(f, n)[k];
    assert Candidates(n, k) == BySize(Others(n, k), 0, n - 1);
  }

  /** The loop's exit as far as the continuer flags go: every cell has received more than 20
      draws, so no flag is left set. */
  predicate Stopped(rounds: seq<seq<Choice>>, n: nat)
    requires AllChoices(rounds, n)
  {
    forall p, q :: 0 <= p < n && 0 <= q < n ==> Routed(rounds, n, p, q) > Saturation
  }

  /** The draws of player p routed to the strata below m. */
  function RoutedBelow(rounds: seq<seq<Choice>>, n: nat, p: nat, m: nat): nat
    requires AllChoices(rounds, n) && p < n
  {
    if m == 0 then 0 else RoutedBelow(rounds, n, p, m - 1) + Routed(rounds, n, p, m - 1)
  }

  /** Peeling off the first iteration removes one draw if it went below m. */
  lemma {:induction false} RoutedBelowStep(rounds: seq<seq<Choice>>, n: nat, p: nat, m: nat)
    requires AllChoices(rounds, n) && p < n && |rounds| > 0 && AllChoices(rounds[1..], n)
    ensures RoutedBelow(rounds, n, p, m) ==
      RoutedBelow(rounds[1..], n, p, m) + (if rounds[0][p].stratum < m then 1 else 0)
  {
    if m > 0 {
      RoutedBelowStep(rounds, n, p, m - 1);
    }
  }

  lemma {:induction false} RoutedBelowEmpty(rounds: seq<seq<Choice>>, n: nat, p: nat, m: nat)
    requires AllChoices(rounds, n) && p < n && |rounds| == 0
    ensures RoutedBelow(rounds, n, p, m) == 0
  {
    if m > 0 {
      RoutedBelowEmpty(rounds, n, p, m - 1);
    }
  }

  /** Each iteration routes player p to exactly one of the n strata. */
  lemma {:induction false} RoutedAll(rounds: seq<seq<Choice>>, n: nat, p: nat)
    requires AllChoices(rounds, n) && p < n
    ensures RoutedBelow(rounds, n, p, n) == |rounds|
    decreases |rounds|
  {
    if |rounds| == 0 {
      RoutedBelowEmpty(rounds, n, p, n);
    } else {
      assert AllChoices(rounds[1..], n) by {
        forall t | 0 <= t < |rounds| - 1
          ensures Choices(rounds[1..][t], n)
        {
          assert rounds[1..][t] == rounds[t + 1];
        }
      }
      RoutedAll(rounds[1..], n, p);
      RoutedBelowStep(rounds, n, p, n);
      assert Choices(rounds[0], n);
    }
  }

  /** m strata with more than 20 draws each account for at least 21 m draws. */
  lemma {:induction false} RoutedBelowBound(rounds: seq<seq<Choice>>, n: nat, p: nat, m: nat)
    requires AllChoices(rounds, n) && p < n && m <= n
    requires forall q :: 0 <= q < m ==> Routed(rounds, n, p, q) > Saturation
    ensures RoutedBelow(rounds, n, p, m) >= (Saturation + 1) * m
  {
    if m > 0 {
      RoutedBelowBound(rounds, n, p, m - 1);
    }
  }

  /** The flags force a long loop: it cannot stop before 21 n iterations. */
  lemma {:induction false} LoopLength(rounds: seq<seq<Choice>>, n: nat)
    requires n >= 1 && AllChoices(rounds, n) && Stopped(rounds, n)
    ensures |rounds| >= (Saturation + 1) * n
  {
    RoutedAll(rounds, n, 0);
    RoutedBelowBound(rounds, n, 0, n);
  }

  /** Which table the strata means are read from. */
  datatype Estimator =
    | ListEstimator   // Stratified_MC: the mean of every draw of the cell
    | TallyEstimator  // support: the running mean over the distinct coalitions drawn

  function Means(e: Estimator, cells: seq<seq<Cell>>, n: nat): (mu: seq<seq<real>>)
    requires Square(cells, n)
    ensures Square(mu, n)
  {
    match e
    case ListEstimator => ListMeans(cells, n)
    case TallyEstimator => TallyMeans(cells, n)
  }

  /** The means grid of a run, the memo it leaves, the scores the method reports
      (np.mean(mu, axis=0)) and the scores it stands for (each player's row mean). */
  datatype Outcome = Outcome(cache: CacheState, means: seq<seq<real>>, scores: seq<real>, intended: seq<real>)

  /** The end of a run of two or more players: the means grid read from the cells, and
      both readings of it. */
  function Finish(st: Strata, e: Estimator): (o: Outcome)
    requires Fits(st) && st.cache.Players() >= 1
    ensures o.cache == st.cache && Square(o.means, st.cache.Players())
    ensures |o.scores| == st.cache.Players() && |o.intended| == st.cache.Players()
  {
    var n := st.cache.Players();
    var mu := Means(e, st.cells, n);
    Outcome(st.cache, mu, WrittenScores(mu, n), StrataScores(mu, n))
  }

  /** Stratified_MC (ListEstimator) and support (TallyEstimator). v(N) is queried first; a
      single player is credited with it. Otherwise the loop runs until every cell has more than
      20 draws, and the scores average the means grid over its first axis, as written. */
  function Run(cache: CacheState, f: CharFn, rounds: seq<seq<Choice>>, e: Estimator): (r: Result<Outcome, Error>)
    requires cache.Players() >= 1 && AllChoices(rounds, cache.Players())
    requires cache.Players() >= 2 ==> Stopped(rounds, cache.Players())
    ensures r.Success? ==> |r.value.scores| == cache.Players() && r.value.cache.Players() == cache.Players()
    ensures r.Success? ==> |r.value.intended| == cache.Players()
  {
    var n := cache.Players();
    var all := Query(cache, f, Range(n));
    if n == 1 then Success(Outcome(all.st, [[all.value]], [all.value], [all.value]))
    else
      match Iterate(Start(all.st), f, rounds)
      case Failure(e) => Failure(e)
      case Success(st) => Success(Finish(st, e))
  }

  /** The slip of axis moves credit between players but not in total: the scores as
      written add up to the same value as the intended ones. */
  lemma {:induction false} WrittenScoresTotal(mu: seq<seq<real>>, n: nat)
    requires n > 0 && Square(mu, n)
    ensures Sum(WrittenScores(mu, n)) == Sum(StrataScores(mu, n))
  {
    ColumnMeansTotal(mu, n);
    SumScaled(RowSums(mu), StrataScores(mu, n), n as real);
  }

  /** A run reports np.mean(mu, axis=0) of its means grid, whose total is that of the
      intended row means; with a single player both are v(N). */
  lemma {:induction false} RunReports(cache: CacheState, f: CharFn, rounds: seq<seq<Choice>>, e: Estimator)
    requires cache.Players() >= 1 && AllChoices(rounds, cache.Players())
    requires cache.Players() >= 2 ==> Stopped(rounds, cache.Players())
    ensures var r := Run(cache, f, rounds, e);
      r.Success? && cache.Players() >= 2 ==>
        && Square(r.value.means, cache.Players())
        && r.value.scores == WrittenScores(r.value.means, cache.Players())
        && r.value.intended == StrataScores(r.value.means, cache.Players())
    ensures var r := Run(cache, f, rounds, e);
      r.Success? ==> Sum(r.value.scores) == Sum(r.value.intended)
  {
    var n := cache.Players();
    var r := Run(cache, f, rounds, e);
    if r.Success? && n >= 2 {
      WrittenScoresTotal(r.value.means, n);
    }
  }

  /** A single player is credited with v(N), whatever the draws. */
  lemma {:induction false} RunSingle(cache: CacheState, f: CharFn, rounds: seq<seq<Choice>>, e: Estimator)
    requires Sound(cache, f) && cache.Players() == 1 && AllChoices(rounds, 1)
    ensures Run(cache, f, rounds, e).Success?
    ensures Run(cache, f, rounds, e).value.scores == [CharValue(f, [0])]
  {
    assert Range(1) == [0];
    assert Sort([0]) == [0];
    QueryKeepsSound(cache, f, [0]);
  }

  /** With every u in [0, 1) a run completes from a sound memo and leaves it sound. */
  lemma {:induction false} RunSound(cache: CacheState, f: CharFn, rounds: seq<seq<Choice>>, e: Estimator)
    requires Sound(cache, f) && cache.Players() >= 1 && AllChoices(rounds, cache.Players())
    requires cache.Players() >= 2 ==> Stopped(rounds, cache.Players())
    requires UnitDraws(rounds)
    ensures Run(cache, f, rounds, e).Success?
    ensures Sound(Run(cache, f, rounds, e).value.cache, f)
  {
    var n := cache.Players();
    RangeFacts(n);
    QueryKeepsSound(cache, f, Range(n));
    if n >= 2 {
      var all := Query(cache, f, Range(n));
      IterateSound(Start(all.st), f, rounds);
    }
  }

  /** A completed run keeps the memo valid. */
  lemma {:induction false} RunKeepsValid(cache: CacheState, f: CharFn, rounds: seq<seq<Choice>>, e: Estimator)
    requires Valid(cache, f) && cache.Players() >= 1 && AllChoices(rounds, cache.Players())
    requires cache.Players() >= 2 ==> Stopped(rounds, cache.Players())
    requires Run(cache, f, rounds, e).Success?
    ensures Valid(Run(cache, f, rounds, e).value.cache, f)
  {
    var n := cache.Players();
    RangeFacts(n);
    QueryKeepsValid(cache, f, Range(n));
    if n >= 2 {
      var all := Query(cache, f, Range(n));
      IterateValid(Start(all.st), f, rounds);
    }
  }

  /** After the loop every cell (p, q) holds the Routed(p, q) > 20 draws sent to it, each the
      true increment of p at a coalition of stratum q; support's table agrees with that count
      and is keyed by such coalitions; and every continuer flag is cleared. */
  lemma {:induction false} SampleFaithful(cache: CacheState, f: CharFn, rounds: seq<seq<Choice>>, p: nat, q: nat)
    requires Sound(cache, f) && AllChoices(rounds, cache.Players())
    requires Stopped(rounds, cache.Players()) && UnitDraws(rounds)
    requires p < cache.Players() && q < cache.Players()
    ensures Iterate(Start(cache), f, rounds).Success?
    ensures var st := Iterate(Start(cache), f, rounds).value;
      && CellTrue(f, cache.Players(), p, q, st.cells[p][q])
      && CellKept(st.cells[p][q])
      && |st.cells[p][q].observed| == Routed(rounds, cache.Players(), p, q) > Saturation
      && !st.flags[p][q]
  {
    StartTrue(cache, f);
    IterateTrue(Start(cache), f, rounds);
    FromStart(cache, f, rounds, p, q);
  }

  /** Consistency: once every cell's mean is its exact stratum mean, the scores are the
      Shapley values. */
  lemma {:induction false} ScoresConsistent(e: Estimator, cells: seq<seq<Cell>>, f: CharFn, n: nat, k: nat)
    requires Square(cells, n) && k < n && Means(e, cells, n) == ExactMeans(f, n)
    ensures StrataScores(Means(e, cells, n), n)[k] == ShapleyValue(f, n, k)
  {
    ExactStrataShapley(f, n, k);
  }

  /** The counterexample's characteristic function: a coalition scores 1 exactly when player 0
      is in it. */
  function OnlyFirst(s: seq<nat>): real
  {
    if 0 in s then 1.0 else 0.0
  }

  /** The strata of two players, each holding a single coalition. */
  lemma {:induction false} TwoPlayerStrata()
    ensures Stratum(2, 0, 0) == [[]] && Stratum(2, 1, 0) == [[]]
    ensures Stratum(2, 0, 1) == [[1]] && Stratum(2, 1, 1) == [[0]]
  {
    assert Range(2) == [0, 1];
    assert Others(2, 0) == [1] && Others(2, 1) == [0];
  }

  lemma {:induction false} MeanSingle(x: real)
    ensures Mean([x]) == x
  {
    assert [x][..0] == [];
    assert Sum([x]) == x;
  }

  /** Player 0 adds 1 in both strata. */
  lemma {:induction false} OnlyFirstRow0()
    ensures StratumMean(OnlyFirst, 2, 0, 0) == 1.0 && StratumMean(OnlyFirst, 2, 0, 1) == 1.0
  {
    TwoPlayerStrata();
    InsertOfSorted([], 0);
    InsertOfSorted([1], 0);
    assert IncrementsAt(OnlyFirst, [[]], 0) == [1.0];
    assert IncrementsAt(OnlyFirst, [[1]], 0) == [1.0];
    MeanSingle(1.0);
  }

  /** Player 1 adds nothing in either stratum. */
  lemma {:induction false} OnlyFirstRow1()
    ensures StratumMean(OnlyFirst, 2, 1, 0) == 0.0 && StratumMean(OnlyFirst, 2, 1, 1) == 0.0
  {
    TwoPlayerStrata();
    InsertOfSorted([], 1);
    InsertOfSorted([0], 1);
    assert InsertSorted([0], 1) == [0, 1] by {
      assert [0][1..] == [];
    }
    assert IncrementsAt(OnlyFirst, [[]], 1) == [0.0];
    assert IncrementsAt(OnlyFirst, [[0]], 1) == [0.0];
    MeanSingle(0.0);
  }

  lemma {:induction false} ColumnSumTwo(mu: seq<seq<real>>, i: nat)
    requires |mu| == 2 && i < |mu[0]| && i < |mu[1]|
    ensures ColumnSum(mu, i) == mu[0][i] + mu[1][i]
  {
    var head := mu[..1];
    assert head[..0] == [];
    assert ColumnSum(head, i) == mu[0][i];
  }

  lemma {:induction false} SumTwo(r: seq<real>)
    requires |r| == 2
    ensures Sum(r) == r[0] + r[1]
  {
    assert r[..1][..0] == [];
    assert Sum(r[..1]) == r[0];
  }

  /** With exact stratum means, np.mean(mu, axis=0) credits each player with 0.5. */
  lemma {:induction false} OnlyFirstWritten()
    ensures WrittenScores(ExactMeans(OnlyFirst, 2), 2) == [0.5, 0.5]
  {
    var mu := ExactMeans(OnlyFirst, 2);
    OnlyFirstRow0();
    OnlyFirstRow1();
    assert mu[0] == [1.0, 1.0] && mu[1] == [0.0, 0.0];
    ColumnSumTwo(mu, 0);
    ColumnSumTwo(mu, 1);
  }

  /** The Shapley values of OnlyFirst are 1 and 0. */
  lemma {:induction false} OnlyFirstShapley()
    ensures ShapleyValue(OnlyFirst, 2, 0) == 1.0 && ShapleyValue(OnlyFirst, 2, 1) == 0.0
  {
    var mu := ExactMeans(OnlyFirst, 2);
    OnlyFirstRow0();
    OnlyFirstRow1();
    ExactStrataShapley(OnlyFirst, 2, 0);
    ExactStrataShapley(OnlyFirst, 2, 1);
    SumTwo(mu[0]);
    SumTwo(mu[1]);
  }

  /** np.mean(mu, axis=0) credits both players with 0.5 although the Shapley values are 1 and 0,
      even with every stratum mean exact; averaging each player's row gives the Shapley values. */
  lemma {:induction false} WrittenAxisMixesPlayers()
    ensures WrittenScores(ExactMeans(OnlyFirst, 2), 2) == [0.5, 0.5]
    ensures StrataScores(ExactMeans(OnlyFirst, 2), 2) == [1.0, 0.0]
    ensures ShapleyValue(OnlyFirst, 2, 0) == 1.0 && ShapleyValue(OnlyFirst, 2, 1) == 0.0
  {
    OnlyFirstWritten();
    OnlyFirstShapley();
    ExactStrataShapley(OnlyFirst, 2, 0);
    ExactStrataShapley(OnlyFirst, 2, 1);
  }
}
