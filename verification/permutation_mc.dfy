/** Row and column arithmetic of the contributions matrix the Monte-Carlo
    estimators fill: one row per sampled permutation, one column per player. */
module Matrix {
  import opened Seqs

  /** Sum of column `i` over all rows. */
  function ColumnSum(rows: seq<seq<real>>, i: nat): real
    requires forall t :: 0 <= t < |rows| ==> i < |rows[t]|
  {
    if |rows| == 0 then 0.0 else ColumnSum(rows[..|rows| - 1], i) + rows[|rows| - 1][i]
  }

  predicate Rectangular(rows: seq<seq<real>>, n: nat)
  {
    forall t :: 0 <= t < |rows| ==> |rows[t]| == n
  }

  /** numpy's mean(rows, axis=0): the per-player average over the rows. */
  function ColumnMeans(rows: seq<seq<real>>, n: nat): (r: seq<real>)
    requires |rows| > 0 && Rectangular(rows, n)
    ensures |r| == n
  {
    seq(n, i requires 0 <= i < n => ColumnSum(rows, i) / (|rows| as real))
  }

  /** numpy's var(rows, axis=0): the per-player population variance over the rows. */
  function ColumnVariances(rows: seq<seq<real>>, n: nat): (r: seq<real>)
    requires |rows| > 0 && Rectangular(rows, n)
    ensures |r| == n && forall i :: 0 <= i < n ==> r[i] >= 0.0
  {
    var means := ColumnMeans(rows, n);
    seq(n, i requires 0 <= i < n => SquaredDeviations(rows, i, means[i]) / (|rows| as real))
  }

  /** The square of numpy's std(rows, axis=0) / sqrt(len(rows) - 1): the variance of each
      column's mean, as the estimators report it. */
  function StdSquared(rows: seq<seq<real>>, n: nat): (r: seq<real>)
    requires |rows| >= 2 && Rectangular(rows, n)
    ensures |r| == n && forall i :: 0 <= i < n ==> r[i] >= 0.0
  {
    var vars := ColumnVariances(rows, n);
    seq(n, i requires 0 <= i < n => vars[i] / ((|rows| as real) - 1.0))
  }

  function SquaredDeviations(rows: seq<seq<real>>, i: nat, m: real): (r: real)
    requires forall t :: 0 <= t < |rows| ==> i < |rows[t]|
    ensures r >= 0.0
  {
    if |rows| == 0 then 0.0
    else
      var d := rows[|rows| - 1][i] - m;
      SquaredDeviations(rows[..|rows| - 1], i, m) + d * d
  }

  /** The row sums of the matrix. */
  function RowSums(rows: seq<seq<real>>): (r: seq<real>)
    ensures |r| == |rows|
    ensures forall t :: 0 <= t < |rows| ==> r[t] == Sum(rows[t])
  {
    seq(|rows|, t requires 0 <= t < |rows| => Sum(rows[t]))
  }

  lemma {:induction false} SumPointwise(a: seq<real>, b: seq<real>, c: seq<real>)
    requires |a| == |b| == |c| && forall i :: 0 <= i < |c| ==> c[i] == a[i] + b[i]
    ensures Sum(c) == Sum(a) + Sum(b)
  {
    if |c| > 0 {
      var k := |c| - 1;
      SumPointwise(a[..k], b[..k], c[..k]);
    }
  }

  lemma {:induction false} SumScaled(a: seq<real>, c: seq<real>, d: real)
    requires d > 0.0 && |a| == |c| && forall i :: 0 <= i < |c| ==> c[i] == a[i] / d
    ensures Sum(c) == Sum(a) / d
  {
    if |c| > 0 {
      var k := |c| - 1;
      SumScaled(a[..k], c[..k], d);
    }
  }

  /** Summing the columns and then across is summing the rows and then across. */
  lemma {:induction false} ColumnSumsTotal(rows: seq<seq<real>>, n: nat)
    requires Rectangular(rows, n)
    ensures Sum(seq(n, i requires 0 <= i < n => ColumnSum(rows, i))) == Sum(RowSums(rows))
  {
    var cs := seq(n, i requires 0 <= i < n => ColumnSum(rows, i));
    if |rows| == 0 {
      assert cs == Zeros(n);
      SumZeros(n);
    } else {
      var k := |rows| - 1;
      var init := rows[..k];
      ColumnSumsTotal(init, n);
      var ci := seq(n, i requires 0 <= i < n => ColumnSum(init, i));
      SumPointwise(ci, rows[k], cs);
      assert RowSums(rows)[..k] == RowSums(init);
    }
  }

  /** The per-player means add up to the mean row sum. */
  lemma {:induction false} ColumnMeansTotal(rows: seq<seq<real>>, n: nat)
    requires |rows| > 0 && Rectangular(rows, n)
    ensures Sum(ColumnMeans(rows, n)) == Sum(RowSums(rows)) / (|rows| as real)
  {
    var cs := seq(n, i requires 0 <= i < n => ColumnSum(rows, i));
    ColumnSumsTotal(rows, n);
    SumScaled(cs, ColumnMeans(rows, n), |rows| as real);
  }

  /** m copies of x added up: multiplication by a count, kept linear for the solver. */
  function Times(m: nat, x: real): real
  {
    if m == 0 then 0.0 else Times(m - 1, x) + x
  }

  lemma {:induction false} TimesIsProduct(m: nat, x: real)
    ensures Times(m, x) == (m as real) * x
  {
    if m > 0 {
      TimesIsProduct(m - 1, x);
    }
  }

  /** Values each within `tau` of `c` add up to within m * tau of m * c. */
  lemma {:induction false} SumWithin(s: seq<real>, c: real, tau: real)
    requires |s| > 0 && forall t :: 0 <= t < |s| ==> Abs(c - s[t]) < tau
    ensures Abs(Times(|s|, c) - Sum(s)) < Times(|s|, tau)
  {
    var k := |s| - 1;
    var init := s[..k];
    assert Sum(s) == Sum(init) + s[k];
    if k > 0 {
      SumWithin(init, c, tau);
    }
  }

  /** Division by a positive number scales a symmetric bound. */
  lemma {:induction false} DivBetween(a: real, m: real, t: real)
    requires m > 0.0 && -(m * t) < a < m * t
    ensures -t < a / m < t
  {
  }

  lemma {:induction false} DivSub(x: real, y: real, m: real)
    requires m > 0.0
    ensures (m * x - y) / m == x - y / m
  {
  }

  /** Dividing a deviation below m * tau by m brings it below tau. */
  lemma {:induction false} DivWithin(c: real, total: real, m: real, tau: real)
    requires m > 0.0 && Abs(m * c - total) < m * tau
    ensures Abs(c - total / m) < tau
  {
    DivBetween(m * c - total, m, tau);
    DivSub(c, total, m);
  }

  /** Values each within `tau` of `c` average to a value within `tau` of `c`. */
  lemma {:induction false} MeanWithin(s: seq<real>, c: real, tau: real)
    requires |s| > 0 && forall t :: 0 <= t < |s| ==> Abs(c - s[t]) < tau
    ensures Abs(c - Sum(s) / (|s| as real)) < tau
  {
    var m := |s| as real;
    var total := Sum(s);
    SumWithin(s, c, tau);
    TimesIsProduct(|s|, c);
    TimesIsProduct(|s|, tau);
    assert Abs(m * c - total) < m * tau;
    DivWithin(c, total, m, tau);
  }

  lemma {:induction false} SumConstant(s: seq<real>, c: real)
    requires forall t :: 0 <= t < |s| ==> s[t] == c
    ensures Sum(s) == (|s| as real) * c
  {
    if |s| > 0 {
      SumConstant(s[..|s| - 1], c);
    }
  }
}

/** truncated_MC: permutation sampling with truncation of the walk once the
    running value is within `truncation` of the grand coalition's value. */
module PermutationMC {
  import opened Seqs
  import opened Cache
  import opened Matrix

  /** The truncation test of the walk. */
  predicate Fires(charAll: real, tau: real, c: real)
  {
    Abs(charAll - c) < tau
  }

  /** cache: the memo after the walk; chars: char_nodelists; row: the permutation's contributions row. */
  datatype Walk = Walk(cache: CacheState, chars: seq<real>, row: seq<real>)

  lemma {:induction false} PrefixFacts(perm: seq<nat>, n: nat, j: nat)
    requires IsPermutation(perm, n) && j <= |perm|
    ensures Below(perm[..j], n) && NoDup(perm[..j])
  {
    PermutationFacts(perm, n);
    forall x | x in perm[..j]
      ensures x < n
    {
      assert x in perm;
    }
  }

  datatype Advance = Advance(cache: CacheState, value: real)

  /** One iteration of the walk: keep the previous value once truncated, otherwise
      query the permutation's first j + 1 players. */
  function StepValue(cache: CacheState, f: CharFn, perm: seq<nat>, charAll: real, tau: real,
                     j: nat, prev: real): (a: Advance)
    requires IsPermutation(perm, cache.Players()) && j < |perm|
    ensures a.cache.Players() == cache.Players()
  {
    if Fires(charAll, tau, prev) then Advance(cache, prev)
    else
      PrefixFacts(perm, cache.Players(), j + 1);
      var q := Query(cache, f, perm[..j + 1]);
      Advance(q.st, q.value)
  }

  /** A step keeps every cached value true and returns the prefix's true value unless truncated. */
  lemma {:induction false} StepSound(cache: CacheState, f: CharFn, perm: seq<nat>, charAll: real, tau: real, j: nat, prev: real)
    requires IsPermutation(perm, cache.Players()) && j < |perm| && Sound(cache, f)
    ensures var a := StepValue(cache, f, perm, charAll, tau, j, prev);
      && Sound(a.cache, f)
      && (Fires(charAll, tau, prev) ==> a == Advance(cache, prev))
      && (!Fires(charAll, tau, prev) ==> a.value == CharValue(f, Sort(perm[..j + 1])))
  {
    if !Fires(charAll, tau, prev) {
      PrefixFacts(perm, cache.Players(), j + 1);
      QueryKeepsSound(cache, f, perm[..j + 1]);
    }
  }

  /** A step keeps the memo valid. */
  lemma {:induction false} StepValid(cache: CacheState, f: CharFn, perm: seq<nat>, charAll: real, tau: real, j: nat, prev: real)
    requires IsPermutation(perm, cache.Players()) && j < |perm| && Valid(cache, f)
    ensures Valid(StepValue(cache, f, perm, charAll, tau, j, prev).cache, f)
  {
    if !Fires(charAll, tau, prev) {
      PrefixFacts(perm, cache.Players(), j + 1);
      QueryKeepsValid(cache, f, perm[..j + 1]);
    }
  }

  /** The loop `for j in range(n)` from the position |chars| - 1 on. */
  function WalkFrom(cache: CacheState, f: CharFn, perm: seq<nat>, charAll: real, tau: real,
                    chars: seq<real>, row: seq<real>): (w: Walk)
    requires IsPermutation(perm, cache.Players())
    requires 1 <= |chars| <= |perm| + 1 && |row| == |perm|
    ensures |w.chars| == |perm| + 1 && |w.row| == |perm| && w.cache.Players() == cache.Players()
    ensures forall k :: 0 <= k < |chars| ==> w.chars[k] == chars[k]
    decreases |perm| + 1 - |chars|
  {
    var j := |chars| - 1;
    if j == |perm| then Walk(cache, chars, row)
    else
      var prev := chars[j];
      var a := StepValue(cache, f, perm, charAll, tau, j, prev);
      WalkFrom(a.cache, f, perm, charAll, tau, chars + [a.value], row[perm[j] := a.value - prev])
  }

  lemma {:induction false} WalkUnfold(cache: CacheState, f: CharFn, perm: seq<nat>, charAll: real, tau: real,
                   chars: seq<real>, row: seq<real>)
    requires IsPermutation(perm, cache.Players())
    requires 1 <= |chars| <= |perm| && |row| == |perm|
    ensures var j := |chars| - 1;
      var a := StepValue(cache, f, perm, charAll, tau, j, chars[j]);
      WalkFrom(cache, f, perm, charAll, tau, chars, row)
        == WalkFrom(a.cache, f, perm, charAll, tau, chars + [a.value], row[perm[j] := a.value - chars[j]])
  {
  }

  /** One sampled permutation: char_nodelists starts at 0 for the empty coalition. */
  function TruncatedWalk(cache: CacheState, f: CharFn, perm: seq<nat>, charAll: real, tau: real): Walk
    requires IsPermutation(perm, cache.Players())
  {
    WalkFrom(cache, f, perm, charAll, tau, [0.0], Zeros(|perm|))
  }

  /** Once the test fires at some position it fires at every later one, with the same value. */
  predicate Sticks(chars: seq<real>, charAll: real, tau: real)
  {
    forall m, k :: 0 <= m <= k < |chars| && Fires(charAll, tau, chars[m]) ==> chars[k] == chars[m]
  }

  /** Before the test first fires, the walk holds the true value of the permutation's prefix. */
  predicate Faithful(chars: seq<real>, perm: seq<nat>, f: CharFn, charAll: real, tau: real)
    requires |chars| <= |perm| + 1
  {
    forall j :: 0 <= j < |chars| && (j == 0 || !Fires(charAll, tau, chars[j - 1])) ==>
      chars[j] == CharValue(f, Sort(perm[..j]))
  }

  /** The telescoping invariant: the row adds up to the last value, players not yet
      reached are still 0, and players reached hold their increment. */
  predicate Telescoping(perm: seq<nat>, chars: seq<real>, row: seq<real>)
    requires 1 <= |chars| <= |perm| + 1 && |row| == |perm|
    requires forall i :: 0 <= i < |perm| ==> perm[i] < |row|
  {
    && Sum(row) == chars[|chars| - 1]
    && (forall m :: |chars| - 1 <= m < |perm| ==> row[perm[m]] == 0.0)
    && (forall m :: 0 <= m < |chars| - 1 ==> row[perm[m]] == chars[m + 1] - chars[m])
  }

  lemma {:induction false} TelescopingStep(perm: seq<nat>, chars: seq<real>, row: seq<real>, c: real)
    requires 1 <= |chars| <= |perm| && |row| == |perm| && IsPermutation(perm, |perm|)
    requires Telescoping(perm, chars, row)
    ensures Telescoping(perm, chars + [c], row[perm[|chars| - 1] := c - chars[|chars| - 1]])
  {
    var j := |chars| - 1;
    var prev := chars[j];
    var row' := row[perm[j] := c - prev];
    SumUpdate(row, perm[j], c - prev);
    forall m | j + 1 <= m < |perm|
      ensures row'[perm[m]] == 0.0
    {
      assert perm[m] != perm[j];
    }
    var chars' := chars + [c];
    forall m | 0 <= m < |chars'| - 1
      ensures row'[perm[m]] == chars'[m + 1] - chars'[m]
    {
      if m < j {
        assert perm[m] != perm[j];
      }
    }
  }

  /** Each player is written once, with the increment at its position in the permutation,
      and the row adds up to the last value of the walk. */
  lemma {:induction false} WalkTelescopes(cache: CacheState, f: CharFn, perm: seq<nat>, charAll: real, tau: real,
                                          chars: seq<real>, row: seq<real>)
    requires IsPermutation(perm, cache.Players())
    requires 1 <= |chars| <= |perm| + 1 && |row| == |perm|
    requires Telescoping(perm, chars, row)
    ensures var w := WalkFrom(cache, f, perm, charAll, tau, chars, row);
      Telescoping(perm, w.chars, w.row)
    decreases |perm| + 1 - |chars|
  {
    var j := |chars| - 1;
    if j < |perm| {
      var prev := chars[j];
      var a := StepValue(cache, f, perm, charAll, tau, j, prev);
      TelescopingStep(perm, chars, row, a.value);
      WalkTelescopes(a.cache, f, perm, charAll, tau, chars + [a.value], row[perm[j] := a.value - prev]);
    }
  }

  /** A walk that has truncated stays truncated and queries nothing more. */
  lemma {:induction false} StuckWalk(cache: CacheState, f: CharFn, perm: seq<nat>, charAll: real, tau: real,
                                     chars: seq<real>, row: seq<real>)
    requires IsPermutation(perm, cache.Players())
    requires 1 <= |chars| <= |perm| + 1 && |row| == |perm|
    requires Fires(charAll, tau, chars[|chars| - 1])
    ensures var w := WalkFrom(cache, f, perm, charAll, tau, chars, row);
      w.cache == cache &&
      forall k :: |chars| - 1 <= k <= |perm| ==> w.chars[k] == chars[|chars| - 1]
    decreases |perm| + 1 - |chars|
  {
    var j := |chars| - 1;
    if j < |perm| {
      var prev := chars[j];
      var chars' := chars + [prev];
      StuckWalk(cache, f, perm, charAll, tau, chars', row[perm[j] := prev - prev]);
      var w := WalkFrom(cache, f, perm, charAll, tau, chars, row);
    }
  }

  lemma {:induction false} SticksStep(chars: seq<real>, charAll: real, tau: real, c: real)
    requires |chars| >= 1 && Sticks(chars, charAll, tau)
    requires Fires(charAll, tau, chars[|chars| - 1]) ==> c == chars[|chars| - 1]
    ensures Sticks(chars + [c], charAll, tau)
  {
    var j := |chars| - 1;
    var chars' := chars + [c];
    forall m, k | 0 <= m <= k < |chars'| && Fires(charAll, tau, chars'[m])
      ensures chars'[k] == chars'[m]
    {
      if k == j + 1 && m <= j {
        assert chars'[m] == chars[m] && chars[j] == chars[m];
      }
    }
  }

  lemma {:induction false} FaithfulStep(chars: seq<real>, perm: seq<nat>, f: CharFn, charAll: real, tau: real, c: real)
    requires 1 <= |chars| <= |perm| && Faithful(chars, perm, f, charAll, tau)
    requires !Fires(charAll, tau, chars[|chars| - 1]) ==> c == CharValue(f, Sort(perm[..|chars|]))
    ensures Faithful(chars + [c], perm, f, charAll, tau)
  {
  }

  /** A property of the memo that every single step keeps is kept by the whole walk. */
  lemma {:induction false} WalkPreserves(cache: CacheState, f: CharFn, perm: seq<nat>, charAll: real, tau: real,
                                         chars: seq<real>, row: seq<real>, inv: CacheState -> bool)
    requires IsPermutation(perm, cache.Players())
    requires 1 <= |chars| <= |perm| + 1 && |row| == |perm|
    requires inv(cache)
    requires forall st: CacheState, j: nat, prev: real ::
      IsPermutation(perm, st.Players()) && j < |perm| && inv(st) ==>
        inv(StepValue(st, f, perm, charAll, tau, j, prev).cache)
    ensures inv(WalkFrom(cache, f, perm, charAll, tau, chars, row).cache)
    decreases |perm| + 1 - |chars|
  {
    var j := |chars| - 1;
    var w := WalkFrom(cache, f, perm, charAll, tau, chars, row);
    if j < |perm| {
      var prev := chars[j];
      var a := StepValue(cache, f, perm, charAll, tau, j, prev);
      var w' := WalkFrom(a.cache, f, perm, charAll, tau, chars + [a.value], row[perm[j] := a.value - prev]);
      WalkPreserves(a.cache, f, perm, charAll, tau, chars + [a.value], row[perm[j] := a.value - prev], inv);
      WalkUnfold(cache, f, perm, charAll, tau, chars, row);
      assert w.cache == w'.cache;
    } else {
      assert w.cache == cache;
    }
  }

  /** The walk keeps the memo valid. */
  lemma {:induction false} WalkKeepsValid(cache: CacheState, f: CharFn, perm: seq<nat>, charAll: real, tau: real,
                       chars: seq<real>, row: seq<real>)
    requires IsPermutation(perm, cache.Players()) && Valid(cache, f)
    requires 1 <= |chars| <= |perm| + 1 && |row| == |perm|
    ensures Valid(WalkFrom(cache, f, perm, charAll, tau, chars, row).cache, f)
  {
    forall st: CacheState, j: nat, prev: real | IsPermutation(perm, st.Players()) && j < |perm| && Valid(st, f)
      ensures Valid(StepValue(st, f, perm, charAll, tau, j, prev).cache, f)
    {
      StepValid(st, f, perm, charAll, tau, j, prev);
    }
    WalkPreserves(cache, f, perm, charAll, tau, chars, row, st => Valid(st, f));
  }

  /** The walk never resumes after truncating. */
  lemma {:induction false} WalkSticks(cache: CacheState, f: CharFn, perm: seq<nat>, charAll: real, tau: real,
                                      chars: seq<real>, row: seq<real>)
    requires IsPermutation(perm, cache.Players())
    requires 1 <= |chars| <= |perm| + 1 && |row| == |perm|
    requires Sticks(chars, charAll, tau)
    ensures Sticks(WalkFrom(cache, f, perm, charAll, tau, chars, row).chars, charAll, tau)
    decreases |perm| + 1 - |chars|
  {
    var j := |chars| - 1;
    if j < |perm| {
      var prev := chars[j];
      var a := StepValue(cache, f, perm, charAll, tau, j, prev);
      SticksStep(chars, charAll, tau, a.value);
      WalkSticks(a.cache, f, perm, charAll, tau, chars + [a.value], row[perm[j] := a.value - prev]);
      WalkUnfold(cache, f, perm, charAll, tau, chars, row);
    }
  }

  /** One step from a sound memo keeps it sound and the values faithful. */
  lemma {:induction false} FaithfulAdvance(cache: CacheState, f: CharFn, perm: seq<nat>, charAll: real, tau: real, chars: seq<real>)
    requires IsPermutation(perm, cache.Players()) && Sound(cache, f)
    requires 1 <= |chars| <= |perm| && Faithful(chars, perm, f, charAll, tau)
    ensures var a := StepValue(cache, f, perm, charAll, tau, |chars| - 1, chars[|chars| - 1]);
      Sound(a.cache, f) && Faithful(chars + [a.value], perm, f, charAll, tau)
  {
    var j := |chars| - 1;
    var a := StepValue(cache, f, perm, charAll, tau, j, chars[j]);
    StepSound(cache, f, perm, charAll, tau, j, chars[j]);
    FaithfulStep(chars, perm, f, charAll, tau, a.value);
  }

  /** Until it truncates, the walk reports the true values of the permutation's prefixes. */
  lemma {:induction false} WalkFaithful(cache: CacheState, f: CharFn, perm: seq<nat>, charAll: real, tau: real,
                                        chars: seq<real>, row: seq<real>)
    requires IsPermutation(perm, cache.Players()) && Sound(cache, f)
    requires 1 <= |chars| <= |perm| + 1 && |row| == |perm|
    requires Faithful(chars, perm, f, charAll, tau)
    ensures Faithful(WalkFrom(cache, f, perm, charAll, tau, chars, row).chars, perm, f, charAll, tau)
    decreases |perm| + 1 - |chars|
  {
    var j := |chars| - 1;
    var w := WalkFrom(cache, f, perm, charAll, tau, chars, row);
    if j < |perm| {
      var prev := chars[j];
      var a := StepValue(cache, f, perm, charAll, tau, j, prev);
      FaithfulAdvance(cache, f, perm, charAll, tau, chars);
      var w' := WalkFrom(a.cache, f, perm, charAll, tau, chars + [a.value], row[perm[j] := a.value - prev]);
      WalkFaithful(a.cache, f, perm, charAll, tau, chars + [a.value], row[perm[j] := a.value - prev]);
      WalkUnfold(cache, f, perm, charAll, tau, chars, row);
      assert w.chars == w'.chars;
    } else {
      assert w.chars == chars;
    }
  }

  /** One permutation of truncated_MC keeps the memo valid. */
  lemma {:induction false} TruncatedWalkKeepsValid(cache: CacheState, f: CharFn, perm: seq<nat>, charAll: real, tau: real)
    requires Valid(cache, f) && IsPermutation(perm, cache.Players())
    ensures Valid(TruncatedWalk(cache, f, perm, charAll, tau).cache, f)
  {
    WalkKeepsValid(cache, f, perm, charAll, tau, [0.0], Zeros(|perm|));
  }

  /** One permutation of truncated_MC starts from 0 for the empty coalition, never resumes
      after truncating, credits every player with exactly the increment at its position,
      and so its row adds up to the walk's last value. */
  lemma {:induction false} TruncatedWalkRow(cache: CacheState, f: CharFn, perm: seq<nat>, charAll: real, tau: real)
    requires IsPermutation(perm, cache.Players())
    ensures var w := TruncatedWalk(cache, f, perm, charAll, tau);
      && w.chars[0] == 0.0
      && Sticks(w.chars, charAll, tau)
      && (forall m :: 0 <= m < |perm| ==> w.row[perm[m]] == w.chars[m + 1] - w.chars[m])
      && Sum(w.row) == w.chars[|perm|]
  {
    var n := cache.Players();
    SumZeros(n);
    assert Telescoping(perm, [0.0], Zeros(n));
    WalkTelescopes(cache, f, perm, charAll, tau, [0.0], Zeros(n));
    WalkSticks(cache, f, perm, charAll, tau, [0.0], Zeros(n));
  }

  /** One permutation of truncated_MC adds up to the grand coalition's value when nothing
      truncates, and to a value within `tau` of it otherwise. */
  lemma {:induction false} TruncatedWalkEfficient(cache: CacheState, f: CharFn, perm: seq<nat>, charAll: real, tau: real)
    requires Sound(cache, f) && IsPermutation(perm, cache.Players()) && cache.Players() >= 1
    requires charAll == CharValue(f, Range(cache.Players()))
    ensures var w := TruncatedWalk(cache, f, perm, charAll, tau);
      Sound(w.cache, f) && (Sum(w.row) == charAll || Fires(charAll, tau, Sum(w.row)))
  {
    var n := cache.Players();
    var w := TruncatedWalk(cache, f, perm, charAll, tau);
    TruncatedWalkRow(cache, f, perm, charAll, tau);
    FaithfulStart(perm, f, charAll, tau);
    WalkFaithful(cache, f, perm, charAll, tau, [0.0], Zeros(n));
    WalkSoundEnds(cache, f, perm, charAll, tau);
    WalkEnds(w.chars, perm, f, charAll, tau);
  }

  lemma {:induction false} WalkSoundEnds(cache: CacheState, f: CharFn, perm: seq<nat>, charAll: real, tau: real)
    requires Sound(cache, f) && IsPermutation(perm, cache.Players())
    ensures Sound(TruncatedWalk(cache, f, perm, charAll, tau).cache, f)
  {
    forall st: CacheState, j: nat, prev: real | IsPermutation(perm, st.Players()) && j < |perm| && Sound(st, f)
      ensures Sound(StepValue(st, f, perm, charAll, tau, j, prev).cache, f)
    {
      StepSound(st, f, perm, charAll, tau, j, prev);
    }
    WalkPreserves(cache, f, perm, charAll, tau, [0.0], Zeros(|perm|), st => Sound(st, f));
  }

  lemma {:induction false} FaithfulStart(perm: seq<nat>, f: CharFn, charAll: real, tau: real)
    ensures Faithful([0.0], perm, f, charAll, tau)
  {
    forall j | 0 <= j < 1
      ensures [0.0][j] == CharValue(f, Sort(perm[..j]))
    {
      assert perm[..j] == [];
    }
  }

  /** A complete walk ends on the grand coalition's value, or within `tau` of it. */
  lemma {:induction false} WalkEnds(chars: seq<real>, perm: seq<nat>, f: CharFn, charAll: real, tau: real)
    requires |perm| >= 1 && |chars| == |perm| + 1 && IsPermutation(perm, |perm|)
    requires Sticks(chars, charAll, tau) && Faithful(chars, perm, f, charAll, tau)
    requires charAll == CharValue(f, Range(|perm|))
    ensures chars[|perm|] == charAll || Fires(charAll, tau, chars[|perm|])
  {
    var n := |perm|;
    if !Fires(charAll, tau, chars[n - 1]) {
      PermutationFacts(perm, n);
      assert perm[..n] == perm;
    } else {
      assert chars[n] == chars[n - 1];
    }
  }

  /** The contributions matrix of truncated_MC, one row per supplied permutation. */
  datatype Rows = Rows(cache: CacheState, rows: seq<seq<real>>)

  predicate Permutations(perms: seq<seq<nat>>, n: nat)
  {
    forall t :: 0 <= t < |perms| ==> IsPermutation(perms[t], n)
  }

  function WalkAll(cache: CacheState, f: CharFn, perms: seq<seq<nat>>, charAll: real, tau: real): (r: Rows)
    requires Permutations(perms, cache.Players())
    ensures |r.rows| == |perms| && r.cache.Players() == cache.Players()
    ensures Rectangular(r.rows, cache.Players())
    decreases |perms|
  {
    if |perms| == 0 then Rows(cache, [])
    else
      var w := TruncatedWalk(cache, f, perms[0], charAll, tau);
      assert forall t :: 1 <= t < |perms| ==> perms[1..][t - 1] == perms[t];
      var rest := WalkAll(w.cache, f, perms[1..], charAll, tau);
      Rows(rest.cache, [w.row] + rest.rows)
  }

  /** Every row adds up to v(N), or to within `tau` of it. */
  predicate RowsEfficient(rows: seq<seq<real>>, charAll: real, tau: real)
  {
    forall t :: 0 <= t < |rows| ==> Sum(rows[t]) == charAll || Fires(charAll, tau, Sum(rows[t]))
  }

  /** Every row of the matrix adds up to v(N), or to within `tau` of it. */
  lemma {:induction false} WalkAllEfficient(cache: CacheState, f: CharFn, perms: seq<seq<nat>>, charAll: real, tau: real)
    requires Sound(cache, f) && Permutations(perms, cache.Players()) && cache.Players() >= 1
    requires charAll == CharValue(f, Range(cache.Players()))
    ensures var r := WalkAll(cache, f, perms, charAll, tau);
      Sound(r.cache, f) &&
      RowsEfficient(r.rows, charAll, tau)
    decreases |perms|
  {
    if |perms| > 0 {
      var w := TruncatedWalk(cache, f, perms[0], charAll, tau);
      TruncatedWalkEfficient(cache, f, perms[0], charAll, tau);
      assert forall t :: 1 <= t < |perms| ==> perms[1..][t - 1] == perms[t];
      WalkAllEfficient(w.cache, f, perms[1..], charAll, tau);
    }
  }

  lemma {:induction false} WalkAllKeepsValid(cache: CacheState, f: CharFn, perms: seq<seq<nat>>, charAll: real, tau: real)
    requires Valid(cache, f) && Permutations(perms, cache.Players())
    ensures Valid(WalkAll(cache, f, perms, charAll, tau).cache, f)
    decreases |perms|
  {
    if |perms| > 0 {
      var w := TruncatedWalk(cache, f, perms[0], charAll, tau);
      TruncatedWalkKeepsValid(cache, f, perms[0], charAll, tau);
      assert forall t :: 1 <= t < |perms| ==> perms[1..][t - 1] == perms[t];
      WalkAllKeepsValid(w.cache, f, perms[1..], charAll, tau);
    }
  }

  /** contributivity_scores and the square of scores_std. */
  datatype Estimate = Estimate(cache: CacheState, scores: seq<real>, stdSquared: seq<real>)

  /** The number of permutations the loop always samples before consulting its stopping rule. */
  const MinIterations: nat := 100

  /** truncated_MC with the permutations supplied in sampling order; their number is
      whatever the stopping rule allowed, so at least MinIterations for two or more players. */
  function TruncatedMC(cache: CacheState, f: CharFn, perms: seq<seq<nat>>, tau: real): (e: Estimate)
    requires cache.Players() >= 1 && Permutations(perms, cache.Players())
    requires cache.Players() >= 2 ==> |perms| >= MinIterations
    ensures |e.scores| == cache.Players() && |e.stdSquared| == cache.Players()
    ensures forall i :: 0 <= i < |e.stdSquared| ==> e.stdSquared[i] >= 0.0
    ensures e.cache.Players() == cache.Players()
  {
    var n := cache.Players();
    RangeFacts(n);
    var all := Query(cache, f, Range(n));
    if n == 1 then Estimate(all.st, [all.value], [0.0])
    else
      var r := WalkAll(all.st, f, perms, all.value, tau);
      Estimate(r.cache, ColumnMeans(r.rows, n), StdSquared(r.rows, n))
  }

  lemma {:induction false} TruncatedMCKeepsValid(cache: CacheState, f: CharFn, perms: seq<seq<nat>>, tau: real)
    requires Valid(cache, f)
    requires cache.Players() >= 1 && Permutations(perms, cache.Players())
    requires cache.Players() >= 2 ==> |perms| >= MinIterations
    ensures Valid(TruncatedMC(cache, f, perms, tau).cache, f)
  {
    var n := cache.Players();
    RangeFacts(n);
    QueryKeepsValid(cache, f, Range(n));
    if n >= 2 {
      var all := Query(cache, f, Range(n));
      WalkAllKeepsValid(all.st, f, perms, all.value, tau);
    }
  }

  /** The estimate is efficient up to truncation: the scores add up to v(N) exactly when
      the truncation threshold is not positive, and to within it otherwise. */
  lemma {:induction false} TruncatedMCEfficient(cache: CacheState, f: CharFn, perms: seq<seq<nat>>, tau: real)
    requires Sound(cache, f)
    requires cache.Players() >= 1 && Permutations(perms, cache.Players())
    requires cache.Players() >= 2 ==> |perms| >= MinIterations
    ensures ScoresNear(TruncatedMC(cache, f, perms, tau).scores, CharValue(f, Range(cache.Players())), tau)
  {
    if cache.Players() == 1 {
      TruncatedMCSingle(cache, f, perms, tau);
      assert Range(1) == [0];
      var charAll := CharValue(f, [0]);
      assert Sum([charAll]) == Sum([]) + charAll;
    } else {
      TruncatedMCMany(cache, f, perms, tau);
    }
  }

  lemma {:induction false} TruncatedMCMany(cache: CacheState, f: CharFn, perms: seq<seq<nat>>, tau: real)
    requires Sound(cache, f)
    requires cache.Players() >= 2 && Permutations(perms, cache.Players()) && |perms| >= MinIterations
    ensures ScoresNear(TruncatedMC(cache, f, perms, tau).scores, CharValue(f, Range(cache.Players())), tau)
  {
    var n := cache.Players();
    RangeFacts(n);
    SortOfSorted(Range(n));
    QueryKeepsSound(cache, f, Range(n));
    var all := Query(cache, f, Range(n));
    var charAll := CharValue(f, Range(n));
    var r := WalkAll(all.st, f, perms, charAll, tau);
    assert TruncatedMC(cache, f, perms, tau).scores == ColumnMeans(r.rows, n);
    ScoresEfficient(all.st, f, perms, charAll, tau);
  }

  /** A single player is credited with v(N) and no spread. */
  lemma {:induction false} TruncatedMCSingle(cache: CacheState, f: CharFn, perms: seq<seq<nat>>, tau: real)
    requires Sound(cache, f)
    requires cache.Players() == 1 && Permutations(perms, 1)
    ensures TruncatedMC(cache, f, perms, tau).scores == [CharValue(f, [0])]
    ensures TruncatedMC(cache, f, perms, tau).stdSquared == [0.0]
  {
    RangeFacts(1);
    assert Range(1) == [0];
    SortOfSorted(Range(1));
    QueryKeepsSound(cache, f, Range(1));
  }

  /** The column means of the walks from a sound cache add up to v(N), up to truncation. */
  lemma {:induction false} ScoresEfficient(cache: CacheState, f: CharFn, perms: seq<seq<nat>>, charAll: real, tau: real)
    requires Sound(cache, f) && Permutations(perms, cache.Players())
    requires cache.Players() >= 1 && |perms| > 0
    requires charAll == CharValue(f, Range(cache.Players()))
    ensures ScoresNear(ColumnMeans(WalkAll(cache, f, perms, charAll, tau).rows, cache.Players()), charAll, tau)
  {
    var rows := WalkAll(cache, f, perms, charAll, tau).rows;
    WalkAllEfficient(cache, f, perms, charAll, tau);
    MeansEfficient(rows, cache.Players(), charAll, tau);
  }

  /** Scores that add up to v(N) when nothing is truncated, and to within `tau` of it otherwise. */
  predicate ScoresNear(scores: seq<real>, charAll: real, tau: real)
  {
    && (tau <= 0.0 ==> Sum(scores) == charAll)
    && (tau > 0.0 ==> Abs(charAll - Sum(scores)) < tau)
  }

  /** Rows each adding up to v(N), or to within `tau` of it, have column means that do too. */
  lemma {:induction false} MeansEfficient(rows: seq<seq<real>>, n: nat, charAll: real, tau: real)
    requires |rows| > 0 && Rectangular(rows, n)
    requires RowsEfficient(rows, charAll, tau)
    ensures ScoresNear(ColumnMeans(rows, n), charAll, tau)
  {
    ColumnMeansTotal(rows, n);
    var sums := RowSums(rows);
    if tau <= 0.0 {
      SumConstant(sums, charAll);
    } else {
      MeanWithin(sums, charAll, tau);
    }
  }
}
