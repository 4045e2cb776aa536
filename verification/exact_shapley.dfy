/** compute_SV: the exact Shapley values. Every non-empty coalition is evaluated through the
    memo in the order of `itertools.combinations`, size by size, and the list of values is
    handed to an external solver, which is a parameter here. */
module ExactShapley {
  import opened Seqs
  import opened Cache
  import opened Combinatorics

  /** The external Shapley solver `sv.main(n, characteristic_function)`. */
  type Solver = (nat, seq<real>) -> seq<real>

  /** cache: the memo afterwards; characteristic: characteristic_function, one value per
      coalition of NonEmptyCoalitions(n); scores: what the solver returned. */
  datatype Exact = Exact(cache: CacheState, characteristic: seq<real>, scores: seq<real>)

  /** Each listed coalition is a non-empty, repeat-free, canonical list of players. */
  lemma {:induction false} CoalitionsCanonical(n: nat)
    ensures forall j :: 0 <= j < |NonEmptyCoalitions(n)| ==>
      var c := NonEmptyCoalitions(n)[j];
      Below(c, n) && NoDup(c) && Sort(c) == c && c != []
  {
    var cs := NonEmptyCoalitions(n);
    NonEmptyCoalitionsEnumerated(n);
    forall j | 0 <= j < |cs|
      ensures Below(cs[j], n) && NoDup(cs[j]) && Sort(cs[j]) == cs[j] && cs[j] != []
    {
      assert cs[j] in cs;
      StrictlySortedNoDup(cs[j]);
      SortOfSorted(cs[j]);
    }
  }

  /** compute_SV: the call counter is first bumped by hand, then each coalition is queried. */
  function ComputeSV(cache: CacheState, f: CharFn, solver: Solver): (e: Exact)
    ensures e.cache.Players() == cache.Players()
    ensures |e.characteristic| == Pow2(cache.Players()) - 1
    ensures e.scores == solver(cache.Players(), e.characteristic)
  {
    var n := cache.Players();
    CoalitionsCanonical(n);
    NonEmptyCoalitionsEnumerated(n);
    var b := QueryAll(cache.(calls := cache.calls + 1), f, NonEmptyCoalitions(n));
    Exact(b.st, b.values, solver(n, b.values))
  }

  /** compute_SV keeps the memo valid. */
  lemma {:induction false} ComputeSVValid(cache: CacheState, f: CharFn, solver: Solver)
    requires Valid(cache, f)
    ensures Valid(ComputeSV(cache, f, solver).cache, f)
  {
    CoalitionsCanonical(cache.Players());
    BumpValid(cache, f);
    QueryAllValid(cache.(calls := cache.calls + 1), f, NonEmptyCoalitions(cache.Players()));
  }

  /** The solver receives the true value of every non-empty coalition, in the order it expects. */
  lemma {:induction false} ComputeSVValues(cache: CacheState, f: CharFn, solver: Solver)
    requires Valid(cache, f)
    ensures var cs := NonEmptyCoalitions(cache.Players());
      forall j :: 0 <= j < |cs| ==> ComputeSV(cache, f, solver).characteristic[j] == f(cs[j])
  {
    CoalitionsCanonical(cache.Players());
    BumpValid(cache, f);
    QueryAllValid(cache.(calls := cache.calls + 1), f, NonEmptyCoalitions(cache.Players()));
  }

  /** Besides the manual bump, compute_SV evaluates the characteristic function once per
      coalition it adds to the memo. */
  lemma {:induction false} ComputeSVCounts(cache: CacheState, f: CharFn, solver: Solver)
    requires Valid(cache, f)
    ensures var e := ComputeSV(cache, f, solver);
      e.cache.calls == cache.calls + 1 + |e.cache.values| - |cache.values|
  {
    CoalitionsCanonical(cache.Players());
    BumpValid(cache, f);
    QueryAllValid(cache.(calls := cache.calls + 1), f, NonEmptyCoalitions(cache.Players()));
  }

  /** Afterwards the memo holds every non-empty coalition, and nothing but coalitions. */
  lemma {:induction false} ComputeSVKeys(cache: CacheState, f: CharFn, solver: Solver)
    requires Valid(cache, f)
    ensures var e := ComputeSV(cache, f, solver);
      && [] in e.cache.values
      && (forall k :: k in e.cache.values ==> IsCoalition(k, cache.Players()))
      && (forall c :: c in NonEmptyCoalitions(cache.Players()) ==> c in e.cache.values)
  {
    ComputeSVValid(cache, f, solver);
    var n := cache.Players();
    var cs := NonEmptyCoalitions(n);
    CoalitionsCanonical(n);
    var e := ComputeSV(cache, f, solver);
    forall c | c in cs
      ensures c in e.cache.values
    {
      var j :| 0 <= j < |cs| && cs[j] == c;
    }
  }

  /** The memo's keys, when they are coalitions that include the empty one and every listed one. */
  lemma {:induction false} KeysBetween(keys: set<seq<nat>>, n: nat)
    requires [] in keys && forall k :: k in keys ==> IsCoalition(k, n)
    requires forall c :: c in NonEmptyCoalitions(n) ==> c in keys
    ensures keys == {[]} + (set c | c in NonEmptyCoalitions(n))
  {
    NonEmptyCoalitionsEnumerated(n);
  }

  lemma {:induction false} DistinctCard(cs: seq<seq<nat>>)
    requires Distinct(cs)
    ensures |(set c | c in cs)| == |cs|
  {
    if |cs| > 0 {
      var last := cs[|cs| - 1];
      var init := cs[..|cs| - 1];
      assert Distinct(init);
      DistinctCard(init);
      assert (set c | c in cs) == (set c | c in init) + {last};
      assert last !in init;
    }
  }

  /** From a fresh Contributivity object, compute_SV evaluates the characteristic function
      once per non-empty coalition, and its counter ends at 2^n because of the manual bump. */
  lemma {:induction false} ComputeSVCalls(n: nat, f: CharFn, solver: Solver)
    ensures var e := ComputeSV(Init(n), f, solver);
      && e.cache.values.Keys == {[]} + (set c | c in NonEmptyCoalitions(n))
      && e.cache.calls == Pow2(n)
  {
    InitValid(n, f);
    FreshRun(Init(n), f, solver);
  }

  lemma {:induction false} FreshRun(st: CacheState, f: CharFn, solver: Solver)
    requires Valid(st, f) && st.values.Keys == {[]} && st.calls == 0
    ensures var e := ComputeSV(st, f, solver);
      && e.cache.values.Keys == {[]} + (set c | c in NonEmptyCoalitions(st.Players()))
      && e.cache.calls == Pow2(st.Players())
  {
    var n := st.Players();
    var cs := NonEmptyCoalitions(n);
    var e := ComputeSV(st, f, solver);
    ComputeSVKeys(st, f, solver);
    ComputeSVCounts(st, f, solver);
    KeysBetween(e.cache.values.Keys, n);
    CoalitionsCounted(n);
    KeysCount(e.cache.values.Keys, cs);
    assert |st.values| == |st.values.Keys| == 1;
  }

  /** The list holds 2^n - 1 distinct coalitions, none of them empty. */
  lemma {:induction false} CoalitionsCounted(n: nat)
    ensures Distinct(NonEmptyCoalitions(n)) && [] !in NonEmptyCoalitions(n)
    ensures |NonEmptyCoalitions(n)| == Pow2(n) - 1
  {
    NonEmptyCoalitionsEnumerated(n);
  }

  lemma {:induction false} KeysCount(keys: set<seq<nat>>, cs: seq<seq<nat>>)
    requires Distinct(cs) && [] !in cs
    requires keys == {[]} + (set c | c in cs)
    ensures |keys| == |cs| + 1
  {
    DistinctCard(cs);
    var listed := set c | c in cs;
    assert |listed| == |cs|;
    assert [] !in listed;
    assert keys == listed + {[]};
    assert |listed + {[]}| == |listed| + 1;
  }
}
