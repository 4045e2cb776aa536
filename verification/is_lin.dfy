/** IS_lin end to end: v(N), the boundary increments of every player, the importance
    density of each player, and one corrected observation per player and iteration. The
    uniform draws are supplied row by row; their number is whatever the stopping rule allowed. */
module IsLinEstimator {
  import opened Wrappers
  import opened Seqs
  import opened Cache
  import opened Matrix
  import opened PermutationMC
  import opened ImportanceSampling

  /** DivisionByZero: the players hold no training data, so beta = ||S|| / ||I|| is undefined.
      NoDraw: no coalition's cumulative weight exceeds u renorm (a zero renorm, or u outside
      [0, 1)), so the source would go on with a stale or unbound S. */
  datatype Error = DivisionByZero | NoDraw

  /** The boundary queries in source order: N \ {0}, {0}, N \ {1}, {1}, ... */
  function BoundaryList(n: nat): (r: seq<seq<nat>>)
    ensures |r| == 2 * n
  {
    seq(2 * n, j requires 0 <= j < 2 * n => if j % 2 == 0 then Others(n, j / 2) else [j / 2])
  }

  lemma {:induction false} BoundaryListFacts(n: nat)
    ensures forall j :: 0 <= j < 2 * n ==> Below(BoundaryList(n)[j], n) && NoDup(BoundaryList(n)[j])
  {
    forall j | 0 <= j < 2 * n
      ensures Below(BoundaryList(n)[j], n) && NoDup(BoundaryList(n)[j])
    {
      if j % 2 == 0 {
        OthersFacts(n, j / 2);
        StrictlySortedNoDup(Others(n, j / 2));
      }
    }
  }

  /** first_increments from the answers to the boundary queries: v({k}) - 0. */
  function Firsts(values: seq<real>, n: nat): (r: seq<real>)
    requires |values| == 2 * n
    ensures |r| == n
  {
    seq(n, k requires 0 <= k < n => values[2 * k + 1] - 0.0)
  }

  /** last_increments: v(N) - v(N \ {k}). */
  function Lasts(values: seq<real>, charAll: real, n: nat): (r: seq<real>)
    requires |values| == 2 * n
    ensures |r| == n
  {
    seq(n, k requires 0 <= k < n => charAll - values[2 * k])
  }

  /** The surrogate the true characteristic function determines. */
  function TrueSurrogate(f: CharFn, sizes: seq<nat>): (sg: Surrogate)
    ensures sg.Players() == |sizes|
  {
    var n := |sizes|;
    Surrogate(
      seq(n, k requires 0 <= k < n => CharValue(f, [k])),
      seq(n, k requires 0 <= k < n => CharValue(f, Range(n)) - CharValue(f, Others(n, k))),
      sizes)
  }

  /** Player k's importance density, tabulated over the coalitions it can join, in the
      order of the sampling loops: the surrogate, the unnormalised weight and renorms[k]. */
  datatype Density = Density(coalitions: seq<seq<nat>>, approxs: seq<real>, weights: seq<real>, renorm: real)

  /** A table for player k of n: one surrogate and one weight per joinable coalition. */
  predicate WellFormed(d: Density, n: nat, k: nat)
  {
    Shaped(d) && Joinable(d.coalitions, n, k)
  }

  /** One surrogate and one weight per coalition. */
  predicate Shaped(d: Density)
  {
    |d.approxs| == |d.coalitions| && |d.weights| == |d.coalitions|
  }

  /** Weights are non-negative, vanish where the surrogate does, and renorm is their total. */
  predicate Consistent(d: Density)
    requires |d.approxs| == |d.weights|
  {
    && (forall i :: 0 <= i < |d.weights| ==> d.weights[i] >= 0.0)
    && (forall i :: 0 <= i < |d.weights| ==> d.approxs[i] == 0.0 ==> d.weights[i] == 0.0)
    && d.renorm == Sum(d.weights)
  }

  /** The density IS_lin builds for player k from the surrogate. */
  function DensityOf(sg: Surrogate, k: nat): (d: Density)
    requires sg.Ready() && k < sg.Players()
    ensures WellFormed(d, sg.Players(), k)
  {
    var n := sg.Players();
    CandidatesFacts(n, k);
    var cs := Candidates(n, k);
    Density(cs, seq(|cs|, i requires 0 <= i < |cs| => Approx(sg, cs[i], k)), Weights(sg, k, cs), Renorm(sg, k))
  }

  /** The density of every player. */
  function Densities(sg: Surrogate): (ds: seq<Density>)
    requires sg.Ready()
    ensures |ds| == sg.Players() && forall k :: 0 <= k < |ds| ==> ds[k] == DensityOf(sg, k)
  {
    seq(sg.Players(), k requires 0 <= k < sg.Players() => DensityOf(sg, k))
  }

  /** The tabulated density has non-negative weights, zero exactly where prob |approx| is,
      and renorm is their sum. */
  lemma {:induction false} DensityConsistent(sg: Surrogate, k: nat)
    requires sg.Ready() && k < sg.Players()
    ensures Consistent(DensityOf(sg, k))
  {
    var n := sg.Players();
    CandidatesFacts(n, k);
    var d := DensityOf(sg, k);
    forall i | 0 <= i < |d.weights| && d.approxs[i] == 0.0
      ensures d.weights[i] == 0.0
    {
      ZeroWeight(sg, k, d.coalitions, i);
    }
  }

  lemma {:induction false} ZeroWeight(sg: Surrogate, k: nat, cs: seq<seq<nat>>, i: nat)
    requires sg.Ready() && k < sg.Players() && Joinable(cs, sg.Players(), k) && i < |cs|
    requires Approx(sg, cs[i], k) == 0.0
    ensures Weights(sg, k, cs)[i] == 0.0
  {
  }

  /** The index the draw u selects, given the density. A zero surrogate there would divide
      the observation by zero, so it is an error here. */
  function Pick(d: Density, u: real): (r: Result<nat, Error>)
    requires |d.approxs| == |d.weights|
    ensures r.Success? ==> r.value < |d.weights| && d.approxs[r.value] != 0.0
  {
    if d.renorm == 0.0 then Failure(NoDraw)
    else
      match Draw(d.weights, d.renorm, u, 0, 0.0)
      case None => Failure(NoDraw)
      case Some(j) => if d.approxs[j] == 0.0 then Failure(DivisionByZero) else Success(j)
  }

  /** For a consistent density of positive total and any u in [0, 1), the draw selects the
      coalition whose slice of the cumulative distribution holds u. */
  lemma {:induction false} PickFound(d: Density, u: real)
    requires |d.approxs| == |d.weights| && Consistent(d) && d.renorm > 0.0 && 0.0 <= u < 1.0
    ensures Pick(d, u).Success?
    ensures Draw(d.weights, d.renorm, u, 0, 0.0) == Some(Pick(d, u).value)
  {
    DrawFound(d.weights, d.renorm, u);
  }

  /** One observation for player k: draw S with u, query S ∪ {k} (np.append(S, k)) and then S,
      and correct the increment by renorm / |approx_increment(S, k)|. */
  function Observe(cache: CacheState, f: CharFn, d: Density, k: nat, u: real): (r: Result<Answer, Error>)
    requires WellFormed(d, cache.Players(), k) && k < cache.Players()
    ensures r.Success? ==> r.value.st.Players() == cache.Players()
  {
    match Pick(d, u)
    case Failure(e) => Failure(e)
    case Success(j) =>
      var s := d.coalitions[j];
    JoinFacts(s, k, cache.Players());
      var withK := Query(cache, f, Join(s, k, cache.Players()));
      var without := Query(withK.st, f, s);
      Success(Answer(without.st, Corrected(withK.value - without.value, d.renorm, d.approxs[j])))
  }

  /** np.append(S, k): the coalition with the player added at the end. */
  function Join(s: seq<nat>, k: nat, n: nat): (r: seq<nat>)
    requires IsCoalition(s, n) && k < n && k !in s
    ensures Below(r, n) && Sort(r) == Insert(s, k)
  {
    JoinFacts(s, k, n);
    s + [k]
  }

  /** Appending a new player to a coalition gives a repeat-free list whose sorted form is
      the coalition with the player inserted. */
  lemma {:induction false} JoinFacts(s: seq<nat>, k: nat, n: nat)
    requires IsCoalition(s, n) && k < n && k !in s
    ensures Below(s + [k], n) && NoDup(s + [k]) && Sort(s + [k]) == Insert(s, k)
    ensures Below(s, n) && NoDup(s) && Sort(s) == s
  {
    StrictlySortedNoDup(s);
    SortOfSorted(s);
    forall x | x in s + [k]
      ensures x < n
    {
      if x != k {
        assert x in s;
      }
    }
    forall i, j | 0 <= i < j < |s + [k]|
      ensures (s + [k])[i] != (s + [k])[j]
    {
      if j == |s| {
        assert (s + [k])[i] == s[i];
        assert s[i] in s;
      }
    }
  }

  /** The observation IS_lin records for player k when the draw selects a coalition, as a
      function of the characteristic function alone. */
  function Observation(f: CharFn, d: Density, k: nat, u: real): real
    requires |d.approxs| == |d.weights| && |d.coalitions| == |d.weights| && Pick(d, u).Success?
  {
    var j := Pick(d, u).value;
    Corrected(Increment(f, d.coalitions[j], k), d.renorm, d.approxs[j])
  }

  /** From a sound memo, whenever the draw selects a coalition the observation is its
      corrected true increment, and the memo stays sound. */
  lemma {:induction false} ObserveSound(cache: CacheState, f: CharFn, d: Density, k: nat, u: real)
    requires Sound(cache, f) && WellFormed(d, cache.Players(), k) && k < cache.Players()
    requires Pick(d, u).Success?
    ensures Observe(cache, f, d, k, u).Success?
    ensures Sound(Observe(cache, f, d, k, u).value.st, f)
    ensures Observe(cache, f, d, k, u).value.value == Observation(f, d, k, u)
  {
    ObserveValue(cache, f, d, k, u);
    var s := d.coalitions[Pick(d, u).value];
    JoinFacts(s, k, cache.Players());
    QueryPair(cache, f, s, k);
  }

  lemma {:induction false} ObserveValue(cache: CacheState, f: CharFn, d: Density, k: nat, u: real)
    requires Sound(cache, f) && WellFormed(d, cache.Players(), k) && k < cache.Players()
    requires Pick(d, u).Success?
    ensures Observe(cache, f, d, k, u).Success?
    ensures Observe(cache, f, d, k, u).value.value == Observation(f, d, k, u)
  {
    var s := d.coalitions[Pick(d, u).value];
    JoinFacts(s, k, cache.Players());
    QueryPair(cache, f, s, k);
    ObserveIncrement(cache, f, d, k, u);
  }

  /** Once the two queries return v(S ∪ {k}) and v(S), the observation is the corrected
      true increment. */
  lemma {:induction false} ObserveIncrement(cache: CacheState, f: CharFn, d: Density, k: nat, u: real)
    requires WellFormed(d, cache.Players(), k) && k < cache.Players() && Pick(d, u).Success?
    requires var s := d.coalitions[Pick(d, u).value];
      var withK := Query(cache, f, Join(s, k, cache.Players()));
      var without := Query(withK.st, f, s);
      withK.value == CharValue(f, Insert(s, k)) && without.value == CharValue(f, s)
    ensures Observe(cache, f, d, k, u).Success?
    ensures Observe(cache, f, d, k, u).value.value == Observation(f, d, k, u)
  {
    var j := Pick(d, u).value;
    var s := d.coalitions[j];
    var withK := Query(cache, f, Join(s, k, cache.Players()));
    var without := Query(withK.st, f, s);
    var x := withK.value - without.value;
    assert x == Increment(f, s, k);
    ObserveUnfold(cache, f, d, k, u);
    assert Observe(cache, f, d, k, u).value.value == Corrected(x, d.renorm, d.approxs[j]);
    ObservationUnfold(f, d, k, u);
  }

  lemma {:induction false} ObservationUnfold(f: CharFn, d: Density, k: nat, u: real)
    requires |d.approxs| == |d.weights| && |d.coalitions| == |d.weights| && Pick(d, u).Success?
    ensures var j := Pick(d, u).value;
      Observation(f, d, k, u) == Corrected(Increment(f, d.coalitions[j], k), d.renorm, d.approxs[j])
  {
  }

  lemma {:induction false} ObserveUnfold(cache: CacheState, f: CharFn, d: Density, k: nat, u: real)
    requires WellFormed(d, cache.Players(), k) && k < cache.Players() && Pick(d, u).Success?
    ensures var j := Pick(d, u).value;
      var s := d.coalitions[j];
      var withK := Query(cache, f, Join(s, k, cache.Players()));
      var without := Query(withK.st, f, s);
      && Observe(cache, f, d, k, u).Success?
      && Observe(cache, f, d, k, u).value.st == without.st
      && Observe(cache, f, d, k, u).value.value == Corrected(withK.value - without.value, d.renorm, d.approxs[j])
  {
  }

  /** Querying S ∪ {k} and then S from a sound memo yields the true increment. */
  lemma {:induction false} QueryPair(cache: CacheState, f: CharFn, s: seq<nat>, k: nat)
    requires Sound(cache, f) && IsCoalition(s, cache.Players()) && k < cache.Players() && k !in s
    ensures var withK := Query(cache, f, Join(s, k, cache.Players()));
      var without := Query(withK.st, f, s);
      Sound(without.st, f) && withK.value == CharValue(f, Insert(s, k)) && without.value == CharValue(f, s)
  {
    JoinFacts(s, k, cache.Players());
    QueryKeepsSound(cache, f, Join(s, k, cache.Players()));
    var withK := Query(cache, f, Join(s, k, cache.Players()));
    QueryKeepsSound(withK.st, f, s);
  }

  /** An observation keeps the memo valid. */
  lemma {:induction false} ObserveValid(cache: CacheState, f: CharFn, d: Density, k: nat, u: real)
    requires Valid(cache, f) && WellFormed(d, cache.Players(), k) && k < cache.Players()
    requires Observe(cache, f, d, k, u).Success?
    ensures Valid(Observe(cache, f, d, k, u).value.st, f)
  {
    var s := d.coalitions[Pick(d, u).value];
    JoinFacts(s, k, cache.Players());
    QueryKeepsValid(cache, f, Join(s, k, cache.Players()));
    var withK := Query(cache, f, Join(s, k, cache.Players()));
    QueryKeepsValid(withK.st, f, s);
  }

  /** The same, for any outcome of the draw. */
  lemma {:induction false} ObserveKeepsValid(cache: CacheState, f: CharFn, d: Density, k: nat, u: real)
    requires WellFormed(d, cache.Players(), k) && k < cache.Players()
    ensures Valid(cache, f) && Observe(cache, f, d, k, u).Success? ==> Valid(Observe(cache, f, d, k, u).value.st, f)
  {
    if Valid(cache, f) && Observe(cache, f, d, k, u).Success? {
      ObserveValid(cache, f, d, k, u);
    }
  }

  /** One table per player, player k's for player k. */
  predicate Tables(ds: seq<Density>, n: nat)
  {
    |ds| == n && forall k :: 0 <= k < n ==> WellFormed(ds[k], n, k)
  }

  /** One well-shaped table per player. */
  predicate Shapes(ds: seq<Density>, n: nat)
  {
    |ds| == n && forall k :: 0 <= k < n ==> Shaped(ds[k])
  }

  /** One row of contributions: players k, k + 1, ... observed with us[k], us[k + 1], ... */
  function SampleRow(cache: CacheState, f: CharFn, ds: seq<Density>, us: seq<real>, k: nat): (r: Result<Batch, Error>)
    requires Tables(ds, cache.Players()) && |us| == cache.Players() && k <= |us|
    ensures r.Success? ==> |r.value.values| == |us| - k && r.value.st.Players() == cache.Players()
    ensures r.Success? && Valid(cache, f) ==> Valid(r.value.st, f)
    decreases |us| - k
  {
    if k == |us| then Success(Batch(cache, []))
    else
      match Observe(cache, f, ds[k], k, us[k])
      case Failure(e) => Failure(e)
      case Success(a) =>
        ObserveKeepsValid(cache, f, ds[k], k, us[k]);
        match SampleRow(a.st, f, ds, us, k + 1)
        case Failure(e) => Failure(e)
        case Success(b) => Success(Batch(b.st, [a.value] + b.values))
  }

  /** The draws of a row select a coalition for every player. */
  predicate Picks(ds: seq<Density>, us: seq<real>)
    requires |ds| == |us| && forall k :: 0 <= k < |ds| ==> |ds[k].approxs| == |ds[k].weights|
  {
    forall k :: 0 <= k < |us| ==> Pick(ds[k], us[k]).Success?
  }

  /** The row of observations the draws determine, as a function of the characteristic
      function alone: entry k is player k's. */
  function ObservedRow(f: CharFn, ds: seq<Density>, us: seq<real>): (r: seq<real>)
    requires Shapes(ds, |us|) && Picks(ds, us)
    ensures |r| == |us|
  {
    seq(|us|, k requires 0 <= k < |us| => Observation(f, ds[k], k, us[k]))
  }

  lemma {:induction false} SuffixStep(s: seq<real>, k: nat)
    requires k < |s|
    ensures s[k..] == [s[k]] + s[k + 1..]
  {
  }

  /** When every draw selects a coalition, a row from a sound memo is complete and holds the
      observations, and the memo stays sound. */
  lemma {:induction false} SampleRowSound(cache: CacheState, f: CharFn, ds: seq<Density>, us: seq<real>, k: nat)
    requires Tables(ds, cache.Players()) && |us| == cache.Players() && k <= |us|
    requires Sound(cache, f) && Picks(ds, us)
    ensures SampleRow(cache, f, ds, us, k).Success?
    ensures Sound(SampleRow(cache, f, ds, us, k).value.st, f)
    ensures SampleRow(cache, f, ds, us, k).value.values == ObservedRow(f, ds, us)[k..]
    decreases |us| - k
  {
    if k < |us| {
      ObserveSound(cache, f, ds[k], k, us[k]);
      var a := Observe(cache, f, ds[k], k, us[k]).value;
      SampleRowSound(a.st, f, ds, us, k + 1);
      SampleRowStep(cache, f, ds, us, k);
      var row := ObservedRow(f, ds, us);
      SuffixStep(row, k);
      assert row[k] == a.value;
    }
  }

  /** A row whose first observation and remaining entries succeed is the observation
      followed by the remaining entries. */
  lemma {:induction false} SampleRowStep(cache: CacheState, f: CharFn, ds: seq<Density>, us: seq<real>, k: nat)
    requires Tables(ds, cache.Players()) && |us| == cache.Players() && k < |us|
    requires Observe(cache, f, ds[k], k, us[k]).Success?
    requires SampleRow(Observe(cache, f, ds[k], k, us[k]).value.st, f, ds, us, k + 1).Success?
    ensures var a := Observe(cache, f, ds[k], k, us[k]).value;
      var rest := SampleRow(a.st, f, ds, us, k + 1).value;
      && SampleRow(cache, f, ds, us, k).Success?
      && SampleRow(cache, f, ds, us, k).value.st == rest.st
      && SampleRow(cache, f, ds, us, k).value.values == [a.value] + rest.values
  {
  }

  /** Rows of draws, one per iteration. */
  predicate DrawRows(draws: seq<seq<real>>, n: nat)
  {
    forall t :: 0 <= t < |draws| ==> |draws[t]| == n
  }

  /** The sampling loop: one row of contributions per row of draws. */
  function SampleAll(cache: CacheState, f: CharFn, ds: seq<Density>, draws: seq<seq<real>>): (r: Result<Rows, Error>)
    requires Tables(ds, cache.Players()) && DrawRows(draws, cache.Players())
    ensures r.Success? ==> |r.value.rows| == |draws| && Rectangular(r.value.rows, cache.Players())
    ensures r.Success? ==> r.value.cache.Players() == cache.Players()
    ensures r.Success? && Valid(cache, f) ==> Valid(r.value.cache, f)
    decreases |draws|
  {
    if |draws| == 0 then Success(Rows(cache, []))
    else
      match SampleRow(cache, f, ds, draws[0], 0)
      case Failure(e) => Failure(e)
      case Success(b) =>
        assert DrawRows(draws[1..], b.st.Players()) by {
          forall t | 0 <= t < |draws[1..]|
            ensures |draws[1..][t]| == b.st.Players()
          {
            assert draws[1..][t] == draws[t + 1];
          }
        }
        match SampleAll(b.st, f, ds, draws[1..])
        case Failure(e) => Failure(e)
        case Success(rest) =>
          RectangularCons(b.values, rest.rows, cache.Players());
          Success(Rows(rest.cache, [b.values] + rest.rows))
  }

  lemma {:induction false} RectangularCons(row: seq<real>, rows: seq<seq<real>>, n: nat)
    requires |row| == n && Rectangular(rows, n)
    ensures Rectangular([row] + rows, n)
  {
    forall t | 0 <= t < |[row] + rows|
      ensures |([row] + rows)[t]| == n
    {
      if t > 0 {
        assert ([row] + rows)[t] == rows[t - 1];
      }
    }
  }

  /** Every row of draws selects a coalition for every player. */
  predicate AllPick(ds: seq<Density>, draws: seq<seq<real>>)
    requires forall k :: 0 <= k < |ds| ==> |ds[k].approxs| == |ds[k].weights|
    requires DrawRows(draws, |ds|)
  {
    forall t :: 0 <= t < |draws| ==> Picks(ds, draws[t])
  }

  /** The rows of observations the draws determine, one per row of draws. */
  function ObservedRows(f: CharFn, ds: seq<Density>, draws: seq<seq<real>>): (r: seq<seq<real>>)
    requires Shapes(ds, |ds|) && DrawRows(draws, |ds|) && AllPick(ds, draws)
    ensures |r| == |draws|
    decreases |draws|
  {
    if |draws| == 0 then []
    else
      assert AllPick(ds, draws[1..]) by {
        forall t | 0 <= t < |draws[1..]|
          ensures Picks(ds, draws[1..][t])
        {
          assert draws[1..][t] == draws[t + 1];
        }
      }
      [ObservedRow(f, ds, draws[0])] + ObservedRows(f, ds, draws[1..])
  }

  /** Entry [t][k] is player k's observation for draws[t][k]. */
  lemma {:induction false} ObservedRowsIndex(f: CharFn, ds: seq<Density>, draws: seq<seq<real>>, t: nat, k: nat)
    requires Shapes(ds, |ds|) && DrawRows(draws, |ds|) && AllPick(ds, draws)
    requires t < |draws| && k < |ds|
    ensures |ObservedRows(f, ds, draws)[t]| == |ds|
    ensures ObservedRows(f, ds, draws)[t][k] == Observation(f, ds[k], k, draws[t][k])
    decreases t
  {
    if t > 0 {
      ObservedRowsIndex(f, ds, draws[1..], t - 1, k);
      assert draws[1..][t - 1] == draws[t];
    }
  }

  /** A loop whose first row and remaining rows succeed is the first row followed by the rest. */
  lemma {:induction false} SampleAllStep(cache: CacheState, f: CharFn, ds: seq<Density>, draws: seq<seq<real>>)
    requires Tables(ds, cache.Players()) && DrawRows(draws, cache.Players()) && |draws| > 0
    requires SampleRow(cache, f, ds, draws[0], 0).Success?
    requires SampleAll(SampleRow(cache, f, ds, draws[0], 0).value.st, f, ds, draws[1..]).Success?
    ensures var b := SampleRow(cache, f, ds, draws[0], 0).value;
      var rest := SampleAll(b.st, f, ds, draws[1..]).value;
      && SampleAll(cache, f, ds, draws).Success?
      && SampleAll(cache, f, ds, draws).value.cache == rest.cache
      && SampleAll(cache, f, ds, draws).value.rows == [b.values] + rest.rows
  {
  }

  /** When every draw selects a coalition, every row is recorded and the rows are the
      observations; the memo stays sound. */
  lemma {:induction false} SampleAllSound(cache: CacheState, f: CharFn, ds: seq<Density>, draws: seq<seq<real>>)
    requires Tables(ds, cache.Players()) && DrawRows(draws, cache.Players())
    requires Sound(cache, f) && AllPick(ds, draws)
    ensures SampleAll(cache, f, ds, draws).Success?
    ensures Sound(SampleAll(cache, f, ds, draws).value.cache, f)
    ensures SampleAll(cache, f, ds, draws).value.rows == ObservedRows(f, ds, draws)
    decreases |draws|
  {
    if |draws| > 0 {
      SampleRowSound(cache, f, ds, draws[0], 0);
      var b := SampleRow(cache, f, ds, draws[0], 0).value;
      assert b.values == ObservedRow(f, ds, draws[0]);
      assert AllPick(ds, draws[1..]) by {
        forall t | 0 <= t < |draws[1..]|
          ensures Picks(ds, draws[1..][t])
        {
          assert draws[1..][t] == draws[t + 1];
        }
      }
      SampleAllSound(b.st, f, ds, draws[1..]);
      SampleAllStep(cache, f, ds, draws);
    }
  }

  /** The boundary answers and the data sizes, as IS_lin assembles them. */
  function SurrogateOf(values: seq<real>, charAll: real, sizes: seq<nat>): (sg: Surrogate)
    requires |values| == 2 * |sizes|
    ensures sg.Players() == |sizes|
  {
    Surrogate(Firsts(values, |sizes|), Lasts(values, charAll, |sizes|), sizes)
  }

  /** v(N) and the answers to the boundary queries, with the memo after them. */
  datatype Boundary = Boundary(st: CacheState, charAll: real, values: seq<real>)

  /** The queries IS_lin makes before sampling: v(N), then the boundary list. */
  function Boundaries(cache: CacheState, f: CharFn): (r: Boundary)
    ensures r.st.Players() == cache.Players() && |r.values| == 2 * cache.Players()
  {
    var n := cache.Players();
    RangeFacts(n);
    var all := Query(cache, f, Range(n));
    BoundaryListFacts(n);
    var b := QueryAll(all.st, f, BoundaryList(n));
    Boundary(b.st, all.value, b.values)
  }

  /** Every player's density is a well-formed table for that player. */
  lemma {:induction false} DensitiesTables(sg: Surrogate)
    requires sg.Ready()
    ensures Tables(Densities(sg), sg.Players())
  {
  }

  /** The sampling part of IS_lin for two or more players: v(N), the boundary queries, the
      densities and the loop. */
  function IsLinRows(cache: CacheState, f: CharFn, sizes: seq<nat>, draws: seq<seq<real>>): (r: Result<Rows, Error>)
    requires |sizes| == cache.Players() && DrawRows(draws, cache.Players())
    ensures r.Success? ==> |r.value.rows| == |draws| && Rectangular(r.value.rows, cache.Players())
    ensures r.Success? ==> r.value.cache.Players() == cache.Players()
  {
    var bd := Boundaries(cache, f);
    if TotalSize(sizes) == 0 then Failure(DivisionByZero)
    else
      var sg := SurrogateOf(bd.values, bd.charAll, sizes);
      DensitiesTables(sg);
      SampleAll(bd.st, f, Densities(sg), draws)
  }

  /** IS_lin(scenario): a single player is credited with v(N) and no spread; otherwise the
      scores are the column means of the sampled contributions. */
  function IsLin(cache: CacheState, f: CharFn, sizes: seq<nat>, draws: seq<seq<real>>): (r: Result<Estimate, Error>)
    requires cache.Players() >= 1 && |sizes| == cache.Players() && DrawRows(draws, cache.Players())
    requires cache.Players() >= 2 ==> |draws| >= MinIterations
    ensures r.Success? ==> |r.value.scores| == cache.Players() && |r.value.stdSquared| == cache.Players()
    ensures r.Success? ==> r.value.cache.Players() == cache.Players()
  {
    var n := cache.Players();
    if n == 1 then
      RangeFacts(n);
      var all := Query(cache, f, Range(n));
      Success(Estimate(all.st, [all.value], [0.0]))
    else
      match IsLinRows(cache, f, sizes, draws)
      case Failure(e) => Failure(e)
      case Success(rows) => Success(Estimate(rows.cache, ColumnMeans(rows.rows, n), StdSquared(rows.rows, n)))
  }

  /** From a valid memo the boundary queries return the true values and keep it valid. */
  lemma {:induction false} BoundariesValid(cache: CacheState, f: CharFn)
    requires Valid(cache, f)
    ensures Valid(Boundaries(cache, f).st, f)
    ensures Boundaries(cache, f).charAll == CharValue(f, Range(cache.Players()))
    ensures forall j :: 0 <= j < 2 * cache.Players() ==>
      Boundaries(cache, f).values[j] == CharValue(f, Sort(BoundaryList(cache.Players())[j]))
  {
    var n := cache.Players();
    RangeFacts(n);
    StrictlySortedNoDup(Range(n));
    QueryKeepsValid(cache, f, Range(n));
    var all := Query(cache, f, Range(n));
    BoundaryListFacts(n);
    QueryAllValid(all.st, f, BoundaryList(n));
    assert Sorted(Range(n));
    SortOfSorted(Range(n));
  }

  /** Player k's boundary queries are N \ {k} and {k}, both already sorted. */
  lemma {:induction false} BoundaryPair(n: nat, k: nat)
    requires k < n
    ensures Sort(BoundaryList(n)[2 * k]) == Others(n, k)
    ensures Sort(BoundaryList(n)[2 * k + 1]) == [k]
  {
    BoundaryIndex(n, k);
    OthersFacts(n, k);
    SortedFixed(Others(n, k));
    SortedFixed([k]);
  }

  lemma {:induction false} BoundaryIndex(n: nat, k: nat)
    requires k < n
    ensures BoundaryList(n)[2 * k] == Others(n, k) && BoundaryList(n)[2 * k + 1] == [k]
  {
    assert (2 * k) % 2 == 0 && (2 * k) / 2 == k;
    assert (2 * k + 1) % 2 == 1 && (2 * k + 1) / 2 == k;
  }

  lemma {:induction false} SortedFixed(s: seq<nat>)
    requires StrictlySorted(s)
    ensures Sort(s) == s
  {
    assert Sorted(s);
    SortOfSorted(s);
  }

  /** From a valid memo, the surrogate IS_lin assembles is the one the characteristic
      function determines. */
  lemma {:induction false} BoundariesTrue(cache: CacheState, f: CharFn, sizes: seq<nat>)
    requires Valid(cache, f) && |sizes| == cache.Players()
    ensures SurrogateOf(Boundaries(cache, f).values, Boundaries(cache, f).charAll, sizes) == TrueSurrogate(f, sizes)
  {
    var n := cache.Players();
    BoundariesValid(cache, f);
    var bd := Boundaries(cache, f);
    var sg := SurrogateOf(bd.values, bd.charAll, sizes);
    var tr := TrueSurrogate(f, sizes);
    forall k | 0 <= k < n
      ensures sg.firsts[k] == tr.firsts[k] && sg.lasts[k] == tr.lasts[k]
    {
      BoundaryPair(n, k);
    }
    assert sg.firsts == tr.firsts;
    assert sg.lasts == tr.lasts;
  }

  /** When every draw selects a coalition, IS_lin's rows are the observations of the true
      surrogate's densities, each of which is unbiased (Unbiased), and the memo stays valid. */
  lemma {:induction false} IsLinObserves(cache: CacheState, f: CharFn, sizes: seq<nat>, draws: seq<seq<real>>)
    requires Valid(cache, f) && |sizes| == cache.Players() && DrawRows(draws, cache.Players())
    requires TotalSize(sizes) > 0 && AllPick(Densities(TrueSurrogate(f, sizes)), draws)
    ensures IsLinRows(cache, f, sizes, draws).Success?
    ensures IsLinRows(cache, f, sizes, draws).value.rows == ObservedRows(f, Densities(TrueSurrogate(f, sizes)), draws)
  {
    BoundariesValid(cache, f);
    BoundariesTrue(cache, f, sizes);
    var bd := Boundaries(cache, f);
    var sg := TrueSurrogate(f, sizes);
    DensitiesTables(sg);
    SampleAllSound(bd.st, f, Densities(sg), draws);
  }

  /** A single player is credited with v(N) = v({0}) at no spread. */
  lemma {:induction false} IsLinSingle(cache: CacheState, f: CharFn, sizes: seq<nat>, draws: seq<seq<real>>)
    requires Sound(cache, f) && cache.Players() == 1 && |sizes| == 1 && DrawRows(draws, 1)
    ensures IsLin(cache, f, sizes, draws).Success?
    ensures IsLin(cache, f, sizes, draws).value.scores == [CharValue(f, [0])]
    ensures IsLin(cache, f, sizes, draws).value.stdSquared == [0.0]
  {
    RangeFacts(1);
    QueryKeepsSound(cache, f, Range(1));
    assert Range(1) == [0];
    assert Sorted([0]);
    SortOfSorted([0]);
  }

  /** With two or more players and no training data at all, the surrogate's beta is 0 / 0. */
  lemma {:induction false} IsLinNoData(cache: CacheState, f: CharFn, sizes: seq<nat>, draws: seq<seq<real>>)
    requires cache.Players() >= 2 && |sizes| == cache.Players() && DrawRows(draws, cache.Players())
    requires |draws| >= MinIterations && TotalSize(sizes) == 0
    ensures IsLin(cache, f, sizes, draws) == Failure(DivisionByZero)
  {
  }

  /** IS_lin keeps the memo valid. */
  lemma {:induction false} IsLinKeepsValid(cache: CacheState, f: CharFn, sizes: seq<nat>, draws: seq<seq<real>>)
    requires Valid(cache, f) && cache.Players() >= 1 && |sizes| == cache.Players() && DrawRows(draws, cache.Players())
    requires cache.Players() >= 2 ==> |draws| >= MinIterations
    requires IsLin(cache, f, sizes, draws).Success?
    ensures Valid(IsLin(cache, f, sizes, draws).value.cache, f)
  {
    var n := cache.Players();
    RangeFacts(n);
    StrictlySortedNoDup(Range(n));
    QueryKeepsValid(cache, f, Range(n));
    if n >= 2 {
      BoundariesValid(cache, f);
    }
  }
}
