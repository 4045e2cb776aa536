/** The memo of characteristic-function values (`not_twice_characteristic`):
    each coalition is evaluated at most once, the number of evaluations is
    counted, and every marginal contribution v(S ∪ {i}) - v(S) whose two ends
    are both known is recorded in a per-player ledger. */
module Cache {
  import opened Seqs

  /** The characteristic function: the test score of the model a coalition trains
      together. Training is outside the model, so it is a parameter. */
  type CharFn = seq<nat> -> real

  /** The value the memo is meant to hold for a canonical coalition: the empty
      coalition scores 0 without training. */
  function CharValue(f: CharFn, s: seq<nat>): real
  {
    if s == [] then 0.0 else f(s)
  }

  /** values: the memo keyed by ascending coalitions; calls: charac_fct_calls_count;
      increments[i]: the ledger of player i, keyed by the coalition S player i joins. */
  datatype CacheState = CacheState(
    values: map<seq<nat>, real>,
    calls: nat,
    increments: seq<map<seq<nat>, real>>)
  {
    /** The number of players. */
    function Players(): nat
    {
      |increments|
    }
  }

  datatype Answer = Answer(st: CacheState, value: real)

  /** The state a new Contributivity object starts from. */
  function Init(n: nat): CacheState
  {
    CacheState(map[[] := 0.0], 0, seq(n, i => map[]))
  }

  /** Every recorded increment is a true marginal contribution of a player
      absent from the coalition, and both of its ends are cached. */
  predicate LedgerSound(st: CacheState)
  {
    forall i, s {:trigger st.increments[i][s]} :: 0 <= i < |st.increments| && s in st.increments[i] ==>
      i !in s && s in st.values && Insert(s, i) in st.values &&
      st.increments[i][s] == st.values[Insert(s, i)] - st.values[s]
  }

  /** Every marginal contribution whose two ends are cached is recorded. */
  predicate LedgerComplete(st: CacheState)
  {
    forall i, s {:trigger s in st.increments[i]} :: 0 <= i < |st.increments| && s in st.values && i !in s && Insert(s, i) in st.values ==>
      s in st.increments[i]
  }

  /** The empty coalition is cached and every cached value is the true value of its key. */
  predicate Sound(st: CacheState, f: CharFn)
  {
    [] in st.values && forall s :: s in st.values ==> st.values[s] == CharValue(f, s)
  }

  /** The memo holds only canonical coalitions with their true values, the empty
      coalition among them, and the ledger is exactly the set of known increments. */
  predicate Valid(st: CacheState, f: CharFn)
  {
    && Sound(st, f)
    && (forall s {:trigger IsCoalition(s, st.Players())} :: s in st.values ==> IsCoalition(s, st.Players()))
    && LedgerSound(st)
    && LedgerComplete(st)
  }

  /** The ledger update for player i after `key` has been stored. */
  function RecordIncrement(values: map<seq<nat>, real>, key: seq<nat>, i: nat, row: map<seq<nat>, real>): map<seq<nat>, real>
    requires key in values
  {
    if i in key then
      var without := Remove(key, i);
      if without in values then row[without := values[key] - values[without]] else row
    else
      var with := Insert(key, i);
      if with in values then row[key := values[with] - values[key]] else row
  }

  /** A cache miss: evaluate, count, store, and extend every player's ledger. */
  function Store(st: CacheState, key: seq<nat>, v: real): (r: CacheState)
    ensures r.Players() == st.Players()
  {
    var values := st.values[key := v];
    CacheState(values, st.calls + 1,
      seq(|st.increments|, i requires 0 <= i < |st.increments| => RecordIncrement(values, key, i, st.increments[i])))
  }

  /** not_twice_characteristic(subset): the value of the sorted coalition, evaluated
      on a miss only. Indices must name players (the source indexes node_list with them). */
  function Query(st: CacheState, f: CharFn, subset: seq<nat>): (a: Answer)
    requires Below(subset, st.Players())
    ensures a.st.Players() == st.Players()
    ensures Sort(subset) in a.st.values && a.value == a.st.values[Sort(subset)]
    ensures Sort(subset) in st.values ==> a.st == st
    ensures Sort(subset) !in st.values ==>
      a.st.calls == st.calls + 1 && a.st.values.Keys == st.values.Keys + {Sort(subset)}
  {
    var key := Sort(subset);
    if key in st.values then Answer(st, st.values[key])
    else
      var st' := Store(st, key, f(key));
      Answer(st', st'.values[key])
  }

  /** A query never drops or changes a cached value. */
  lemma {:induction false} QueryKeeps(st: CacheState, f: CharFn, subset: seq<nat>)
    requires Below(subset, st.Players())
    ensures forall s {:trigger s in st.values} :: s in st.values ==>
      s in Query(st, f, subset).st.values && Query(st, f, subset).st.values[s] == st.values[s]
  {
  }

  lemma {:induction false} StrictlySortedNoDup(s: seq<nat>)
    requires StrictlySorted(s)
    ensures NoDup(s)
  {
  }

  /** Bumping the counter by hand leaves the memo and ledger as they were. */
  lemma {:induction false} BumpValid(st: CacheState, f: CharFn)
    requires Valid(st, f)
    ensures Valid(st.(calls := st.calls + 1), f)
  {
    var st' := st.(calls := st.calls + 1);
    assert st'.values == st.values && st'.increments == st.increments;
    forall s | s in st'.values
      ensures IsCoalition(s, st'.Players())
    {
      assert IsCoalition(s, st.Players());
    }
  }

  lemma {:induction false} InitValid(n: nat, f: CharFn)
    ensures Valid(Init(n), f) && Init(n).Players() == n
    ensures Init(n).calls == 0 && Init(n).values.Keys == {[]}
  {
    forall i | 0 <= i < n
      ensures Insert([], i) !in Init(n).values
    {
      InsertFacts([], i, n);
    }
  }

  /** The ledger entries a miss adds are true increments. */
  lemma {:induction false} StoreSound(st: CacheState, f: CharFn, key: seq<nat>)
    requires Valid(st, f) && key !in st.values && IsCoalition(key, st.Players())
    ensures LedgerSound(Store(st, key, f(key)))
  {
    var n := st.Players();
    var st' := Store(st, key, f(key));
    forall i, s | 0 <= i < n && s in st'.increments[i]
      ensures i !in s && s in st'.values && Insert(s, i) in st'.values
      ensures st'.increments[i][s] == st'.values[Insert(s, i)] - st'.values[s]
    {
      var row := st.increments[i];
      if i in key {
        var without := Remove(key, i);
        if without in st'.values && s == without {
          RemoveMembers(key, i);
          InsertRemove(key, i);
        }
      } else {
        if Insert(key, i) in st'.values && s == key {
        }
      }
    }
  }

  /** A miss leaves no known increment unrecorded. */
  lemma {:induction false} StoreComplete(st: CacheState, f: CharFn, key: seq<nat>)
    requires Valid(st, f) && key !in st.values && IsCoalition(key, st.Players())
    ensures LedgerComplete(Store(st, key, f(key)))
  {
    var n := st.Players();
    var st' := Store(st, key, f(key));
    forall i, s | 0 <= i < n && s in st'.values && i !in s && Insert(s, i) in st'.values
      ensures s in st'.increments[i]
    {
      if s == key {
        InsertFacts(key, i, n);
        assert Insert(key, i) != key;
      } else if Insert(s, i) == key {
        assert IsCoalition(s, n);
        InsertFacts(s, i, n);
        RemoveInsert(s, i);
      } else {
        assert s in st.increments[i];
      }
    }
  }

  /** The memo is transparent: a query of a repeat-free list of players returns the
      true value of its coalition and keeps the cache valid. */
  lemma {:induction false} QueryKeepsValid(st: CacheState, f: CharFn, subset: seq<nat>)
    requires Valid(st, f) && Below(subset, st.Players()) && NoDup(subset)
    ensures Valid(Query(st, f, subset).st, f)
    ensures Query(st, f, subset).value == CharValue(f, Sort(subset))
  {
    var key := Sort(subset);
    if key !in st.values {
      var n := st.Players();
      SortIsCoalition(subset, n);
      StoreSound(st, f, key);
      StoreComplete(st, f, key);
      var st' := Store(st, key, f(key));
      assert key != [];
      forall s | s in st'.values
        ensures IsCoalition(s, n) && st'.values[s] == CharValue(f, s)
      {
      }
    }
  }

  /** A query of any list of players returns the true value of its sorted form and keeps
      every cached value true. */
  lemma {:induction false} QueryKeepsSound(st: CacheState, f: CharFn, subset: seq<nat>)
    requires Sound(st, f) && Below(subset, st.Players())
    ensures Sound(Query(st, f, subset).st, f)
    ensures Query(st, f, subset).value == CharValue(f, Sort(subset))
  {
    var key := Sort(subset);
    if key !in st.values {
      assert key != [];
    }
  }

  /** The evaluation counter moves in step with the number of cached coalitions. */
  lemma {:induction false} QueryCounts(st: CacheState, f: CharFn, subset: seq<nat>)
    requires Below(subset, st.Players())
    ensures Query(st, f, subset).st.calls - st.calls == |Query(st, f, subset).st.values| - |st.values|
    ensures Query(st, f, subset).st.calls - st.calls == (if Sort(subset) in st.values then 0 else 1)
  {
    var a := Query(st, f, subset);
    if Sort(subset) !in st.values {
      assert a.st.values.Keys == st.values.Keys + {Sort(subset)};
      assert |a.st.values.Keys| == |st.values.Keys| + 1;
    }
  }

  /** Once S and S ∪ {i} have both been queried, player i's ledger holds the true increment at S. */
  lemma {:induction false} KnownIncrement(st: CacheState, f: CharFn, i: nat, s: seq<nat>)
    requires Valid(st, f) && i < st.Players() && i !in s
    requires s in st.values && Insert(s, i) in st.values
    ensures s in st.increments[i]
    ensures st.increments[i][s] == CharValue(f, Insert(s, i)) - CharValue(f, s)
  {
  }

  datatype Batch = Batch(st: CacheState, values: seq<real>)

  /** Queries the subsets in turn, threading the cache. */
  function QueryAll(st: CacheState, f: CharFn, subsets: seq<seq<nat>>): (b: Batch)
    requires forall j :: 0 <= j < |subsets| ==> Below(subsets[j], st.Players())
    ensures b.st.Players() == st.Players() && |b.values| == |subsets|
    ensures forall s {:trigger s in st.values} :: s in st.values ==> s in b.st.values && b.st.values[s] == st.values[s]
    ensures forall j :: 0 <= j < |subsets| ==> Sort(subsets[j]) in b.st.values
    decreases |subsets|
  {
    if |subsets| == 0 then Batch(st, [])
    else
      var a := Query(st, f, subsets[0]);
      QueryKeeps(st, f, subsets[0]);
      var rest := QueryAll(a.st, f, subsets[1..]);
      assert forall j :: 1 <= j < |subsets| ==> subsets[j] == subsets[1..][j - 1];
      Batch(rest.st, [a.value] + rest.values)
  }

  /** Querying a list of repeat-free subsets keeps the cache valid, returns their true
      values, and costs one evaluation per coalition not cached before. */
  lemma {:induction false} QueryAllValid(st: CacheState, f: CharFn, subsets: seq<seq<nat>>)
    requires Valid(st, f)
    requires forall j :: 0 <= j < |subsets| ==> Below(subsets[j], st.Players()) && NoDup(subsets[j])
    ensures Valid(QueryAll(st, f, subsets).st, f)
    ensures forall j :: 0 <= j < |subsets| ==> QueryAll(st, f, subsets).values[j] == CharValue(f, Sort(subsets[j]))
    ensures QueryAll(st, f, subsets).st.calls - st.calls == |QueryAll(st, f, subsets).st.values| - |st.values|
    decreases |subsets|
  {
    if |subsets| > 0 {
      var a := Query(st, f, subsets[0]);
      QueryKeepsValid(st, f, subsets[0]);
      QueryCounts(st, f, subsets[0]);
      var tail := subsets[1..];
      QueryAllValid(a.st, f, tail);
      var b := QueryAll(st, f, subsets);
      assert b.values == [a.value] + QueryAll(a.st, f, tail).values;
      forall j | 0 <= j < |subsets|
        ensures b.values[j] == CharValue(f, Sort(subsets[j]))
      {
        if j > 0 {
          assert subsets[j] == tail[j - 1];
        }
      }
    }
  }
}
