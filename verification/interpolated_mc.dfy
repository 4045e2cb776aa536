/** interpol_trunc_MC: the truncated permutation walk in which, once the running value
    is within `truncation` of v(N), the remaining players are credited an interpolated
    share instead of nothing. The loop is modelled twice: as written, and corrected so
    that the shares split the value still missing, in proportion to each player's own
    training-set size. InterpolTruncMC iterates the loop as written and
    InterpolTruncMCCorrected the corrected one. */
module InterpolatedMC {
  import opened Wrappers
  import opened Seqs
  import opened Cache
  import opened Matrix
  import opened PermutationMC

  /** The ZeroDivisionError Python raises when the remaining training sets are all empty. */
  datatype Error = DivisionByZero

  /** size_of_rest as written: the samples of the partners at positions j.. of node_list. */
  function SizeFrom(sizes: seq<nat>, j: nat): nat
    requires j <= |sizes|
    decreases |sizes| - j
  {
    if j == |sizes| then 0 else sizes[j] + SizeFrom(sizes, j + 1)
  }

  /** The samples of the players the permutation has not reached by position j. */
  function RemainingSize(perm: seq<nat>, sizes: seq<nat>, j: nat): nat
    requires j <= |perm| && forall i :: 0 <= i < |perm| ==> perm[i] < |sizes|
    decreases |perm| - j
  {
    if j == |perm| then 0 else sizes[perm[j]] + RemainingSize(perm, sizes, j + 1)
  }

  /** One iteration of the loop as written: the memo, the new value, the source's flag
      and its size_of_rest. */
  datatype Written = Written(cache: CacheState, value: real, first: bool, rest: nat)

  /** One iteration of interpol_trunc_MC as written. Once the test fires, size_of_rest is
      fixed (at the first truncation) and the partner at position j is credited its share
      of v(N) itself; otherwise the prefix is queried as in truncated_MC. */
  function WrittenStep(cache: CacheState, f: CharFn, perm: seq<nat>, sizes: seq<nat>, charAll: real, tau: real,
                       j: nat, prev: real, first: bool, rest: nat): (r: Result<Written, Error>)
    requires IsPermutation(perm, cache.Players()) && |sizes| == |perm| && j < |perm|
    ensures r.Success? ==> r.value.cache.Players() == cache.Players()
  {
    if Fires(charAll, tau, prev) then
      var rest' := if first then SizeFrom(sizes, j) else rest;
      if rest' == 0 then Failure(DivisionByZero)
      else Success(Written(cache, prev + WrittenShare(sizes, charAll, rest', j), false, rest'))
    else
      var a := StepValue(cache, f, perm, charAll, tau, j, prev);
      Success(Written(a.cache, a.value, first, rest))
  }

  /** The loop of interpol_trunc_MC as written, from position |chars| - 1 on. The test is
      made again at every step, so the walk can resume querying after interpolating. */
  function WrittenFrom(cache: CacheState, f: CharFn, perm: seq<nat>, sizes: seq<nat>, charAll: real, tau: real,
                       chars: seq<real>, row: seq<real>, first: bool, rest: nat): (r: Result<Walk, Error>)
    requires IsPermutation(perm, cache.Players()) && |sizes| == |perm|
    requires 1 <= |chars| <= |perm| + 1 && |row| == |perm|
    ensures r.Success? ==> |r.value.chars| == |perm| + 1 && |r.value.row| == |perm|
    ensures r.Success? ==> r.value.cache.Players() == cache.Players()
    ensures r.Success? ==> forall k :: 0 <= k < |chars| ==> r.value.chars[k] == chars[k]
    decreases |perm| + 1 - |chars|
  {
    var j := |chars| - 1;
    if j == |perm| then Success(Walk(cache, chars, row))
    else
      var prev := chars[j];
      var s := WrittenStep(cache, f, perm, sizes, charAll, tau, j, prev, first, rest);
      if s.Failure? then Failure(s.error)
      else
        var w := s.value;
        WrittenFrom(w.cache, f, perm, sizes, charAll, tau, chars + [w.value], row[perm[j] := w.value - prev], w.first, w.rest)
  }

  /** The increment as written: the partner at position j gets its part of size_of_rest,
      taken of v(N) itself. */
  function WrittenShare(sizes: seq<nat>, charAll: real, rest: nat, j: nat): real
    requires rest > 0 && j < |sizes|
  {
    (sizes[j] as real) / (rest as real) * charAll
  }

  /** One permutation of interpol_trunc_MC as written. */
  function WrittenWalk(cache: CacheState, f: CharFn, perm: seq<nat>, sizes: seq<nat>, charAll: real, tau: real): Result<Walk, Error>
    requires IsPermutation(perm, cache.Players()) && |sizes| == |perm|
  {
    WrittenFrom(cache, f, perm, sizes, charAll, tau, [0.0], Zeros(|perm|), true, 0)
  }

  /** The values and row once interpolation has taken over. */
  datatype Tail = Tail(chars: seq<real>, row: seq<real>)

  /** The share of the gap the corrected interpolation credits to player perm[j]. */
  function Share(perm: seq<nat>, sizes: seq<nat>, gap: real, rest: nat, j: nat): real
    requires rest > 0 && j < |perm| && perm[j] < |sizes|
  {
    (sizes[perm[j]] as real) * (gap / (rest as real))
  }

  /** The shares of the players at positions j.. of the permutation, added up. */
  function ShareSum(perm: seq<nat>, sizes: seq<nat>, gap: real, rest: nat, j: nat): real
    requires rest > 0 && j <= |perm| && forall i :: 0 <= i < |perm| ==> perm[i] < |sizes|
    decreases |perm| - j
  {
    if j == |perm| then 0.0 else Share(perm, sizes, gap, rest, j) + ShareSum(perm, sizes, gap, rest, j + 1)
  }

  /** The corrected interpolation: each remaining player perm[j] adds its share
      sizes[perm[j]] / rest of the gap left at truncation, and no test is made again. */
  function Spread(perm: seq<nat>, sizes: seq<nat>, gap: real, rest: nat, chars: seq<real>, row: seq<real>): (t: Tail)
    requires rest > 0 && forall i :: 0 <= i < |perm| ==> perm[i] < |sizes| && perm[i] < |row|
    requires 1 <= |chars| <= |perm| + 1 && |row| == |perm|
    ensures |t.chars| == |perm| + 1 && |t.row| == |perm|
    ensures forall k :: 0 <= k < |chars| ==> t.chars[k] == chars[k]
    decreases |perm| + 1 - |chars|
  {
    var j := |chars| - 1;
    if j == |perm| then Tail(chars, row)
    else
      var c := chars[j] + Share(perm, sizes, gap, rest, j);
      Spread(perm, sizes, gap, rest, chars + [c], row[perm[j] := c - chars[j]])
  }

  /** The first position from k on whose value the truncation test accepts, or |perm| if none. */
  function FirstFiring(chars: seq<real>, charAll: real, tau: real, n: nat, k: nat): (j: nat)
    requires k <= n < |chars|
    ensures k <= j <= n
    ensures forall m :: k <= m < j ==> !Fires(charAll, tau, chars[m])
    ensures j < n ==> Fires(charAll, tau, chars[j])
    decreases n - k
  {
    if k == n || Fires(charAll, tau, chars[k]) then k else FirstFiring(chars, charAll, tau, n, k + 1)
  }

  /** One permutation of the corrected interpol_trunc_MC. Up to the first truncation it
      queries exactly as truncated_MC does, so the queried part is the walk of truncated_MC
      cut at that position; from there the gap left is spread over the remaining players
      in proportion to their sizes. */
  function InterpolatedWalk(cache: CacheState, f: CharFn, perm: seq<nat>, sizes: seq<nat>, charAll: real, tau: real): (r: Result<Walk, Error>)
    requires IsPermutation(perm, cache.Players()) && |sizes| == |perm|
    ensures r.Success? ==> |r.value.chars| == |perm| + 1 && |r.value.row| == |perm|
    ensures r.Success? ==> r.value.cache == TruncatedWalk(cache, f, perm, charAll, tau).cache
  {
    var w := TruncatedWalk(cache, f, perm, charAll, tau);
    var j := FirstFiring(w.chars, charAll, tau, |perm|, 0);
    if j == |perm| then Success(w)
    else
      var rest := RemainingSize(perm, sizes, j);
      if rest == 0 then Failure(DivisionByZero)
      else
        var t := Spread(perm, sizes, charAll - w.chars[j], rest, w.chars[..j + 1], w.row);
        Success(Walk(w.cache, t.chars, t.row))
  }

  /** One interpolation step, on plain reals. */
  lemma {:induction false} ShareArith(s: real, unit: real, r1: real, rs: real)
    requires rs == s + r1
    ensures s * unit + r1 * unit == rs * unit
  {
  }

  /** The shares from position j on add up to the part of the gap those players' sizes
      make of `rest`. */
  lemma {:induction false} ShareSumValue(perm: seq<nat>, sizes: seq<nat>, gap: real, rest: nat, j: nat)
    requires rest > 0 && j <= |perm| && forall i :: 0 <= i < |perm| ==> perm[i] < |sizes|
    ensures ShareSum(perm, sizes, gap, rest, j) == (RemainingSize(perm, sizes, j) as real) * (gap / (rest as real))
    decreases |perm| - j
  {
    if j < |perm| {
      ShareSumValue(perm, sizes, gap, rest, j + 1);
      var s := sizes[perm[j]] as real;
      var r1 := RemainingSize(perm, sizes, j + 1) as real;
      ShareArith(s, gap / (rest as real), r1, RemainingSize(perm, sizes, j) as real);
    }
  }

  /** The interpolation adds the remaining shares to the value it starts from, and the row
      keeps telescoping. */
  lemma {:induction false} SpreadCloses(perm: seq<nat>, sizes: seq<nat>, gap: real, rest: nat,
                                        chars: seq<real>, row: seq<real>)
    requires rest > 0 && IsPermutation(perm, |perm|) && |sizes| == |perm|
    requires 1 <= |chars| <= |perm| + 1 && |row| == |perm|
    requires Telescoping(perm, chars, row)
    ensures var t := Spread(perm, sizes, gap, rest, chars, row);
      && Telescoping(perm, t.chars, t.row)
      && t.chars[|perm|] == chars[|chars| - 1] + ShareSum(perm, sizes, gap, rest, |chars| - 1)
    decreases |perm| + 1 - |chars|
  {
    var j := |chars| - 1;
    if j < |perm| {
      var c := chars[j] + Share(perm, sizes, gap, rest, j);
      TelescopingStep(perm, chars, row, c);
      var chars' := chars + [c];
      var row' := row[perm[j] := c - chars[j]];
      SpreadCloses(perm, sizes, gap, rest, chars', row');
      assert Spread(perm, sizes, gap, rest, chars, row) == Spread(perm, sizes, gap, rest, chars', row');
    }
  }

  lemma {:induction false} GapCloses(gap: real, rest: real)
    requires rest > 0.0
    ensures rest * (gap / rest) == gap
  {
  }

  /** Interpolating from a truncation point credits the remaining players exactly the value
      still missing, so the row adds up to the target. */
  lemma {:induction false} InterpolationCloses(perm: seq<nat>, sizes: seq<nat>, charAll: real, chars: seq<real>, row: seq<real>)
    requires IsPermutation(perm, |perm|) && |sizes| == |perm|
    requires 1 <= |chars| <= |perm| && |row| == |perm|
    requires RemainingSize(perm, sizes, |chars| - 1) > 0
    requires Telescoping(perm, chars, row)
    ensures var j := |chars| - 1;
      var t := Spread(perm, sizes, charAll - chars[j], RemainingSize(perm, sizes, j), chars, row);
      t.chars[|perm|] == charAll && Sum(t.row) == charAll
  {
    var j := |chars| - 1;
    var gap := charAll - chars[j];
    var rest := RemainingSize(perm, sizes, j);
    SpreadCloses(perm, sizes, gap, rest, chars, row);
    ShareSumValue(perm, sizes, gap, rest, j);
    GapCloses(gap, rest as real);
  }

  /** Cut at its first truncation, the walk of truncated_MC still telescopes: the players
      after the cut were credited nothing. */
  lemma {:induction false} CutTelescopes(perm: seq<nat>, chars: seq<real>, row: seq<real>, charAll: real, tau: real, j: nat)
    requires IsPermutation(perm, |perm|) && |chars| == |perm| + 1 && |row| == |perm|
    requires Sticks(chars, charAll, tau) && j < |perm| && Fires(charAll, tau, chars[j])
    requires Sum(row) == chars[|perm|]
    requires forall m :: 0 <= m < |perm| ==> row[perm[m]] == chars[m + 1] - chars[m]
    ensures Telescoping(perm, chars[..j + 1], row)
  {
    var cut := chars[..j + 1];
    forall m | j <= m < |perm|
      ensures row[perm[m]] == 0.0
    {
      assert chars[m] == chars[j] && chars[m + 1] == chars[j];
    }
    assert chars[|perm|] == chars[j];
  }

  /** Without truncation, a faithful walk ends on the grand coalition's value. */
  lemma {:induction false} UncutEnds(chars: seq<real>, perm: seq<nat>, f: CharFn, charAll: real, tau: real)
    requires IsPermutation(perm, |perm|) && |chars| == |perm| + 1 && chars[0] == 0.0
    requires Faithful(chars, perm, f, charAll, tau)
    requires forall m :: 0 <= m < |perm| ==> !Fires(charAll, tau, chars[m])
    ensures chars[|perm|] == CharValue(f, Range(|perm|))
  {
    var n := |perm|;
    assert n == 0 || !Fires(charAll, tau, chars[n - 1]);
    assert chars[n] == CharValue(f, Sort(perm[..n]));
    assert perm[..n] == perm;
    PermutationFacts(perm, n);
  }

  /** With no truncation, the corrected walk is the walk of truncated_MC and ends on v(N). */
  lemma {:induction false} UncutEfficient(cache: CacheState, f: CharFn, perm: seq<nat>, charAll: real, tau: real)
    requires Sound(cache, f) && IsPermutation(perm, cache.Players())
    requires charAll == CharValue(f, Range(cache.Players()))
    requires var w := TruncatedWalk(cache, f, perm, charAll, tau);
      forall m :: 0 <= m < |perm| ==> !Fires(charAll, tau, w.chars[m])
    ensures Sum(TruncatedWalk(cache, f, perm, charAll, tau).row) == charAll
  {
    var n := |perm|;
    var w := TruncatedWalk(cache, f, perm, charAll, tau);
    TruncatedWalkRow(cache, f, perm, charAll, tau);
    FaithfulStart(perm, f, charAll, tau);
    WalkFaithful(cache, f, perm, charAll, tau, [0.0], Zeros(n));
    UncutEnds(w.chars, perm, f, charAll, tau);
  }

  /** Cut at its first truncation and interpolated, the walk ends on v(N). */
  lemma {:induction false} CutEfficient(cache: CacheState, f: CharFn, perm: seq<nat>, sizes: seq<nat>, charAll: real, tau: real, j: nat)
    requires IsPermutation(perm, cache.Players()) && |sizes| == |perm|
    requires j < |perm| && RemainingSize(perm, sizes, j) > 0
    requires Fires(charAll, tau, TruncatedWalk(cache, f, perm, charAll, tau).chars[j])
    ensures var w := TruncatedWalk(cache, f, perm, charAll, tau);
      var t := Spread(perm, sizes, charAll - w.chars[j], RemainingSize(perm, sizes, j), w.chars[..j + 1], w.row);
      Sum(t.row) == charAll
  {
    var w := TruncatedWalk(cache, f, perm, charAll, tau);
    TruncatedWalkRow(cache, f, perm, charAll, tau);
    CutSpreadCloses(perm, sizes, w.chars, w.row, charAll, tau, j);
  }

  /** Any telescoping walk that sticks once it fires, cut at a firing position and
      interpolated, ends on v(N). */
  lemma {:induction false} CutSpreadCloses(perm: seq<nat>, sizes: seq<nat>, chars: seq<real>, row: seq<real>, charAll: real, tau: real, j: nat)
    requires IsPermutation(perm, |perm|) && |sizes| == |perm| && |chars| == |perm| + 1 && |row| == |perm|
    requires Sticks(chars, charAll, tau) && j < |perm| && Fires(charAll, tau, chars[j])
    requires RemainingSize(perm, sizes, j) > 0
    requires Sum(row) == chars[|perm|]
    requires forall m :: 0 <= m < |perm| ==> row[perm[m]] == chars[m + 1] - chars[m]
    ensures var t := Spread(perm, sizes, charAll - chars[j], RemainingSize(perm, sizes, j), chars[..j + 1], row);
      Sum(t.row) == charAll
  {
    var cut := chars[..j + 1];
    CutTelescopes(perm, chars, row, charAll, tau, j);
    assert |cut| - 1 == j && cut[j] == chars[j];
    InterpolationCloses(perm, sizes, charAll, cut, row);
    var t := Spread(perm, sizes, charAll - cut[|cut| - 1], RemainingSize(perm, sizes, |cut| - 1), cut, row);
    assert Sum(t.row) == charAll;
  }

  /** The corrected walk is efficient: whenever it succeeds, its row adds up to v(N)
      exactly, whatever the truncation threshold, and the memo stays sound. */
  lemma {:induction false} InterpolatedWalkEfficient(cache: CacheState, f: CharFn, perm: seq<nat>, sizes: seq<nat>, charAll: real, tau: real)
    requires Sound(cache, f) && IsPermutation(perm, cache.Players()) && |sizes| == |perm|
    requires charAll == CharValue(f, Range(cache.Players()))
    ensures var r := InterpolatedWalk(cache, f, perm, sizes, charAll, tau);
      r.Success? ==> Sum(r.value.row) == charAll && Sound(r.value.cache, f)
  {
    WalkSoundEnds(cache, f, perm, charAll, tau);
    InterpolatedWalkSums(cache, f, perm, sizes, charAll, tau);
  }

  lemma {:induction false} InterpolatedWalkSums(cache: CacheState, f: CharFn, perm: seq<nat>, sizes: seq<nat>, charAll: real, tau: real)
    requires Sound(cache, f) && IsPermutation(perm, cache.Players()) && |sizes| == |perm|
    requires charAll == CharValue(f, Range(cache.Players()))
    ensures var r := InterpolatedWalk(cache, f, perm, sizes, charAll, tau);
      r.Success? ==> Sum(r.value.row) == charAll
  {
    var n := |perm|;
    var w := TruncatedWalk(cache, f, perm, charAll, tau);
    var j := FirstFiring(w.chars, charAll, tau, n, 0);
    if j == n {
      UncutEfficient(cache, f, perm, charAll, tau);
    } else if RemainingSize(perm, sizes, j) > 0 {
      CutEfficient(cache, f, perm, sizes, charAll, tau, j);
    }
  }

  /** A threshold that is not positive never fires. */
  lemma {:induction false} NeverFires(charAll: real, tau: real, c: real)
    requires tau <= 0.0
    ensures !Fires(charAll, tau, c)
  {
  }

  /** The loop as written, at a position where the test does not fire: one query, then the rest. */
  lemma {:induction false} WrittenUnfold(cache: CacheState, f: CharFn, perm: seq<nat>, sizes: seq<nat>, charAll: real, tau: real,
                      chars: seq<real>, row: seq<real>, first: bool, rest: nat)
    requires IsPermutation(perm, cache.Players()) && |sizes| == |perm|
    requires 1 <= |chars| <= |perm| && |row| == |perm|
    requires !Fires(charAll, tau, chars[|chars| - 1])
    ensures var j := |chars| - 1;
      var a := StepValue(cache, f, perm, charAll, tau, j, chars[j]);
      WrittenFrom(cache, f, perm, sizes, charAll, tau, chars, row, first, rest)
        == WrittenFrom(a.cache, f, perm, sizes, charAll, tau, chars + [a.value], row[perm[j] := a.value - chars[j]], first, rest)
  {
  }

  /** With a threshold that is not positive, the loop as written is the walk of truncated_MC. */
  lemma {:induction false} WrittenUntruncated(cache: CacheState, f: CharFn, perm: seq<nat>, sizes: seq<nat>, charAll: real, tau: real,
                                              chars: seq<real>, row: seq<real>, first: bool, rest: nat)
    requires IsPermutation(perm, cache.Players()) && |sizes| == |perm| && tau <= 0.0
    requires 1 <= |chars| <= |perm| + 1 && |row| == |perm|
    ensures WrittenFrom(cache, f, perm, sizes, charAll, tau, chars, row, first, rest)
      == Success(WalkFrom(cache, f, perm, charAll, tau, chars, row))
    decreases |perm| + 1 - |chars|
  {
    var j := |chars| - 1;
    if j < |perm| {
      NeverFires(charAll, tau, chars[j]);
      var a := StepValue(cache, f, perm, charAll, tau, j, chars[j]);
      var chars' := chars + [a.value];
      var row' := row[perm[j] := a.value - chars[j]];
      WrittenUntruncated(a.cache, f, perm, sizes, charAll, tau, chars', row', first, rest);
      WrittenUnfold(cache, f, perm, sizes, charAll, tau, chars, row, first, rest);
      WalkUnfold(cache, f, perm, charAll, tau, chars, row);
    }
  }

  /** With a threshold that is not positive, both versions of interpol_trunc_MC query every
      prefix and agree with truncated_MC. */
  lemma {:induction false} Untruncated(cache: CacheState, f: CharFn, perm: seq<nat>, sizes: seq<nat>, charAll: real, tau: real)
    requires IsPermutation(perm, cache.Players()) && |sizes| == |perm| && tau <= 0.0
    ensures WrittenWalk(cache, f, perm, sizes, charAll, tau) == Success(TruncatedWalk(cache, f, perm, charAll, tau))
    ensures InterpolatedWalk(cache, f, perm, sizes, charAll, tau) == Success(TruncatedWalk(cache, f, perm, charAll, tau))
  {
    WrittenUntruncated(cache, f, perm, sizes, charAll, tau, [0.0], Zeros(|perm|), true, 0);
    var w := TruncatedWalk(cache, f, perm, charAll, tau);
    NeverFires(charAll, tau, w.chars[FirstFiring(w.chars, charAll, tau, |perm|, 0)]);
  }

  /** When every partner holds at least one sample, the corrected walk cannot divide by zero. */
  lemma {:induction false} RemainingPositive(perm: seq<nat>, sizes: seq<nat>, j: nat)
    requires j < |perm| && forall i :: 0 <= i < |perm| ==> perm[i] < |sizes| && sizes[perm[i]] > 0
    ensures RemainingSize(perm, sizes, j) > 0
  {
  }

  lemma {:induction false} InterpolatedWalkSucceeds(cache: CacheState, f: CharFn, perm: seq<nat>, sizes: seq<nat>, charAll: real, tau: real)
    requires IsPermutation(perm, cache.Players()) && |sizes| == |perm|
    requires forall i :: 0 <= i < |sizes| ==> sizes[i] > 0
    ensures InterpolatedWalk(cache, f, perm, sizes, charAll, tau).Success?
  {
    var w := TruncatedWalk(cache, f, perm, charAll, tau);
    var j := FirstFiring(w.chars, charAll, tau, |perm|, 0);
    if j < |perm| {
      RemainingPositive(perm, sizes, j);
    }
  }

  /** The tail of the counterexample below: once the test fires on 0.99, the second partner
      is credited its whole share of v(N). */
  lemma {:induction false} OvershootTail(cache: CacheState, f: CharFn)
    requires cache.Players() == 2
    ensures IsPermutation([0, 1], 2)
    ensures var r := WrittenFrom(cache, f, [0, 1], [1, 1], 1.0, 0.05, [0.0, 0.99], [0.99, 0.0], true, 0);
      r.Success? && r.value.chars == [0.0, 0.99, 1.99] && Sum(r.value.row) == 1.99
  {
    var perm: seq<nat> := [0, 1];
    var sizes: seq<nat> := [1, 1];
    assert IsPermutation(perm, 2);
    assert Fires(1.0, 0.05, 0.99);
    assert SizeFrom(sizes, 1) == 1;
    assert WrittenShare(sizes, 1.0, 1, 1) == 1.0;
    assert WrittenFrom(cache, f, perm, sizes, 1.0, 0.05, [0.0, 0.99], [0.99, 0.0], true, 0)
      == WrittenFrom(cache, f, perm, sizes, 1.0, 0.05, [0.0, 0.99] + [0.99 + 1.0], [0.99, 0.0][1 := 0.99 + 1.0 - 0.99], false, 1);
    assert [0.0, 0.99] + [0.99 + 1.0] == [0.0, 0.99, 1.99];
    assert [0.99, 0.0][1 := 0.99 + 1.0 - 0.99] == [0.99, 1.0];
    assert WrittenFrom(cache, f, perm, sizes, 1.0, 0.05, [0.0, 0.99, 1.99], [0.99, 1.0], false, 1)
      == Success(Walk(cache, [0.0, 0.99, 1.99], [0.99, 1.0]));
    assert Sum([0.99, 1.0]) == 1.99 by {
      assert [0.99, 1.0][..1] == [0.99];
      assert [0.99][..0] == [];
    }
  }

  /** The loop as written credits a share of v(N) instead of a share of the gap: with two
      partners of one sample each, a first partner alone scoring 0.99 and both together 1.0,
      the row adds up to 1.99. */
  lemma {:induction false} WrittenOvershoots(cache: CacheState, f: CharFn)
    requires Sound(cache, f) && cache.Players() == 2
    requires f([0]) == 0.99
    ensures var r := WrittenWalk(cache, f, [0, 1], [1, 1], 1.0, 0.05);
      r.Success? && r.value.chars == [0.0, 0.99, 1.99] && Sum(r.value.row) == 1.99
  {
    var perm: seq<nat> := [0, 1];
    var sizes: seq<nat> := [1, 1];
    OvershootTail(cache, f);
    var a := StepValue(cache, f, perm, 1.0, 0.05, 0, 0.0);
    StepSound(cache, f, perm, 1.0, 0.05, 0, 0.0);
    assert perm[..1] == [0];
    assert a.value == 0.99;
    WrittenUnfold(cache, f, perm, sizes, 1.0, 0.05, [0.0], Zeros(2), true, 0);
    assert [0.0] + [a.value] == [0.0, 0.99];
    assert Zeros(2)[0 := a.value - 0.0] == [0.99, 0.0];
    OvershootTail(a.cache, f);
  }

  /** On the same inputs, the corrected walk's row adds up to v(N). */
  lemma {:induction false} CorrectedOnOvershoot(cache: CacheState, f: CharFn)
    requires Sound(cache, f) && cache.Players() == 2
    requires f([0, 1]) == 1.0
    ensures var r := InterpolatedWalk(cache, f, [0, 1], [1, 1], 1.0, 0.05);
      r.Success? && Sum(r.value.row) == 1.0
  {
    var perm: seq<nat> := [0, 1];
    var sizes: seq<nat> := [1, 1];
    assert IsPermutation(perm, 2);
    assert Range(2) == perm;
    SortOfSorted(perm);
    InterpolatedWalkSucceeds(cache, f, perm, sizes, 1.0, 0.05);
    InterpolatedWalkEfficient(cache, f, perm, sizes, 1.0, 0.05);
  }

  /** The loop as written reads sizes by position in node_list, not by the player the
      permutation adds: when the partner at the last position holds no samples, a truncation
      there divides by zero even though the player still to come holds five. */
  lemma {:induction false} WrittenReadsPositions(cache: CacheState, f: CharFn)
    requires Sound(cache, f) && cache.Players() == 2
    requires f([1]) == 1.0
    ensures WrittenWalk(cache, f, [1, 0], [5, 0], 1.0, 0.05) == Failure(DivisionByZero)
    ensures InterpolatedWalk(cache, f, [1, 0], [5, 0], 1.0, 0.05).Success?
  {
    var perm: seq<nat> := [1, 0];
    var sizes: seq<nat> := [5, 0];
    assert IsPermutation(perm, 2);
    var a := StepValue(cache, f, perm, 1.0, 0.05, 0, 0.0);
    StepSound(cache, f, perm, 1.0, 0.05, 0, 0.0);
    assert perm[..1] == [1];
    assert a.value == 1.0;
    WrittenUnfold(cache, f, perm, sizes, 1.0, 0.05, [0.0], Zeros(2), true, 0);
    assert SizeFrom(sizes, 1) == 0;
    var w := TruncatedWalk(cache, f, perm, 1.0, 0.05);
    TruncatedWalkRow(cache, f, perm, 1.0, 0.05);
    FaithfulStart(perm, f, 1.0, 0.05);
    WalkFaithful(cache, f, perm, 1.0, 0.05, [0.0], Zeros(2));
    assert w.chars[1] == 1.0;
    assert FirstFiring(w.chars, 1.0, 0.05, 2, 0) == 1;
    assert RemainingSize(perm, sizes, 1) == 5;
  }

  /** Each step of the loop as written credits the player it reaches with exactly the
      increment it adds, whether queried or interpolated, so the row telescopes. */
  lemma {:induction false} WrittenTelescopes(cache: CacheState, f: CharFn, perm: seq<nat>, sizes: seq<nat>, charAll: real, tau: real,
                                             chars: seq<real>, row: seq<real>, first: bool, rest: nat)
    requires IsPermutation(perm, cache.Players()) && |sizes| == |perm|
    requires 1 <= |chars| <= |perm| + 1 && |row| == |perm|
    requires Telescoping(perm, chars, row)
    ensures var r := WrittenFrom(cache, f, perm, sizes, charAll, tau, chars, row, first, rest);
      r.Success? ==> Telescoping(perm, r.value.chars, r.value.row)
    decreases |perm| + 1 - |chars|
  {
    var j := |chars| - 1;
    if j < |perm| {
      var prev := chars[j];
      var s := WrittenStep(cache, f, perm, sizes, charAll, tau, j, prev, first, rest);
      if s.Success? {
        var w := s.value;
        TelescopingStep(perm, chars, row, w.value);
        WrittenTelescopes(w.cache, f, perm, sizes, charAll, tau, chars + [w.value], row[perm[j] := w.value - prev], w.first, w.rest);
      }
    }
  }

  /** A step as written keeps the memo sound. */
  lemma {:induction false} WrittenStepSound(cache: CacheState, f: CharFn, perm: seq<nat>, sizes: seq<nat>, charAll: real, tau: real,
                         j: nat, prev: real, first: bool, rest: nat)
    requires Sound(cache, f) && IsPermutation(perm, cache.Players()) && |sizes| == |perm| && j < |perm|
    ensures var s := WrittenStep(cache, f, perm, sizes, charAll, tau, j, prev, first, rest);
      s.Success? ==> Sound(s.value.cache, f)
  {
    StepSound(cache, f, perm, charAll, tau, j, prev);
  }

  /** The loop as written queries only through the memo, which keeps every cached value true. */
  lemma {:induction false} WrittenKeepsSound(cache: CacheState, f: CharFn, perm: seq<nat>, sizes: seq<nat>, charAll: real, tau: real,
                                             chars: seq<real>, row: seq<real>, first: bool, rest: nat)
    requires Sound(cache, f) && IsPermutation(perm, cache.Players()) && |sizes| == |perm|
    requires 1 <= |chars| <= |perm| + 1 && |row| == |perm|
    ensures var r := WrittenFrom(cache, f, perm, sizes, charAll, tau, chars, row, first, rest);
      r.Success? ==> Sound(r.value.cache, f)
    decreases |perm| + 1 - |chars|
  {
    var j := |chars| - 1;
    if j < |perm| {
      var prev := chars[j];
      var s := WrittenStep(cache, f, perm, sizes, charAll, tau, j, prev, first, rest);
      WrittenStepSound(cache, f, perm, sizes, charAll, tau, j, prev, first, rest);
      if s.Success? {
        var w := s.value;
        WrittenKeepsSound(w.cache, f, perm, sizes, charAll, tau, chars + [w.value], row[perm[j] := w.value - prev], w.first, w.rest);
      }
    }
  }

  /** A step as written divides by zero only when size_of_rest is 0: when every partner
      holds a sample, it succeeds and leaves a positive size_of_rest or the flag still set. */
  lemma {:induction false} WrittenStepSucceeds(cache: CacheState, f: CharFn, perm: seq<nat>, sizes: seq<nat>, charAll: real, tau: real,
                            j: nat, prev: real, first: bool, rest: nat)
    requires IsPermutation(perm, cache.Players()) && |sizes| == |perm| && j < |perm|
    requires forall i :: 0 <= i < |sizes| ==> sizes[i] > 0
    requires first || rest > 0
    ensures var s := WrittenStep(cache, f, perm, sizes, charAll, tau, j, prev, first, rest);
      s.Success? && (s.value.first || s.value.rest > 0)
  {
  }

  /** The loop as written divides by zero only when the partners from the first truncating
      position on in node_list hold no samples; when every partner holds one, it never does. */
  lemma {:induction false} WrittenSucceeds(cache: CacheState, f: CharFn, perm: seq<nat>, sizes: seq<nat>, charAll: real, tau: real,
                                           chars: seq<real>, row: seq<real>, first: bool, rest: nat)
    requires IsPermutation(perm, cache.Players()) && |sizes| == |perm|
    requires 1 <= |chars| <= |perm| + 1 && |row| == |perm|
    requires forall i :: 0 <= i < |sizes| ==> sizes[i] > 0
    requires first || rest > 0
    ensures WrittenFrom(cache, f, perm, sizes, charAll, tau, chars, row, first, rest).Success?
    decreases |perm| + 1 - |chars|
  {
    var j := |chars| - 1;
    if j < |perm| {
      var prev := chars[j];
      WrittenStepSucceeds(cache, f, perm, sizes, charAll, tau, j, prev, first, rest);
      var w := WrittenStep(cache, f, perm, sizes, charAll, tau, j, prev, first, rest).value;
      var chars', row' := chars + [w.value], row[perm[j] := w.value - prev];
      WrittenSucceeds(w.cache, f, perm, sizes, charAll, tau, chars', row', w.first, w.rest);
      WrittenNext(cache, f, perm, sizes, charAll, tau, chars, row, first, rest);
    }
  }

  /** The loop as written, at a position whose step succeeds: that step, then the rest. */
  lemma {:induction false} WrittenNext(cache: CacheState, f: CharFn, perm: seq<nat>, sizes: seq<nat>, charAll: real, tau: real,
                    chars: seq<real>, row: seq<real>, first: bool, rest: nat)
    requires IsPermutation(perm, cache.Players()) && |sizes| == |perm|
    requires 1 <= |chars| <= |perm| && |row| == |perm|
    requires WrittenStep(cache, f, perm, sizes, charAll, tau, |chars| - 1, chars[|chars| - 1], first, rest).Success?
    ensures var j := |chars| - 1;
      var w := WrittenStep(cache, f, perm, sizes, charAll, tau, j, chars[j], first, rest).value;
      WrittenFrom(cache, f, perm, sizes, charAll, tau, chars, row, first, rest)
        == WrittenFrom(w.cache, f, perm, sizes, charAll, tau, chars + [w.value], row[perm[j] := w.value - chars[j]], w.first, w.rest)
  {
  }

  /** One permutation of the loop as written: the row adds up to the walk's last value and
      the memo stays sound; unlike the corrected walk, that last value need not be v(N). */
  lemma {:induction false} WrittenWalkSums(cache: CacheState, f: CharFn, perm: seq<nat>, sizes: seq<nat>, charAll: real, tau: real)
    requires Sound(cache, f) && IsPermutation(perm, cache.Players()) && |sizes| == |perm|
    ensures var r := WrittenWalk(cache, f, perm, sizes, charAll, tau);
      r.Success? ==> Sound(r.value.cache, f) && Sum(r.value.row) == r.value.chars[|perm|]
  {
    WrittenWalkTelescopes(cache, f, perm, sizes, charAll, tau);
    WrittenKeepsSound(cache, f, perm, sizes, charAll, tau, [0.0], Zeros(|perm|), true, 0);
  }

  lemma {:induction false} WrittenWalkTelescopes(cache: CacheState, f: CharFn, perm: seq<nat>, sizes: seq<nat>, charAll: real, tau: real)
    requires IsPermutation(perm, cache.Players()) && |sizes| == |perm|
    ensures var r := WrittenWalk(cache, f, perm, sizes, charAll, tau);
      r.Success? ==> Telescoping(perm, r.value.chars, r.value.row)
  {
    var n := |perm|;
    SumZeros(n);
    assert Telescoping(perm, [0.0], Zeros(n));
    WrittenTelescopes(cache, f, perm, sizes, charAll, tau, [0.0], Zeros(n), true, 0);
  }

  /** The contributions matrix of the corrected interpol_trunc_MC, one row per permutation;
      the first division by zero aborts the whole computation. */
  function InterpolatedAll(cache: CacheState, f: CharFn, perms: seq<seq<nat>>, sizes: seq<nat>, charAll: real, tau: real): (r: Result<Rows, Error>)
    requires Permutations(perms, cache.Players()) && |sizes| == cache.Players()
    ensures r.Success? ==> |r.value.rows| == |perms| && r.value.cache.Players() == cache.Players()
    ensures r.Success? ==> Rectangular(r.value.rows, cache.Players())
    decreases |perms|
  {
    if |perms| == 0 then Success(Rows(cache, []))
    else
      var w := InterpolatedWalk(cache, f, perms[0], sizes, charAll, tau);
      if w.Failure? then Failure(w.error)
      else
        assert forall t :: 1 <= t < |perms| ==> perms[1..][t - 1] == perms[t];
        var rest := InterpolatedAll(w.value.cache, f, perms[1..], sizes, charAll, tau);
        if rest.Failure? then rest
        else Success(Rows(rest.value.cache, [w.value.row] + rest.value.rows))
  }

  /** Every row adds up to v(N) exactly. */
  predicate RowsExact(rows: seq<seq<real>>, charAll: real)
  {
    forall t :: 0 <= t < |rows| ==> Sum(rows[t]) == charAll
  }

  /** Every row of the corrected matrix adds up to v(N), and the memo stays sound. */
  lemma {:induction false} InterpolatedAllEfficient(cache: CacheState, f: CharFn, perms: seq<seq<nat>>, sizes: seq<nat>, charAll: real, tau: real)
    requires Sound(cache, f) && Permutations(perms, cache.Players()) && |sizes| == cache.Players()
    requires charAll == CharValue(f, Range(cache.Players()))
    ensures var r := InterpolatedAll(cache, f, perms, sizes, charAll, tau);
      r.Success? ==> Sound(r.value.cache, f) && RowsExact(r.value.rows, charAll)
    decreases |perms|
  {
    if |perms| > 0 {
      var w := InterpolatedWalk(cache, f, perms[0], sizes, charAll, tau);
      InterpolatedWalkEfficient(cache, f, perms[0], sizes, charAll, tau);
      if w.Success? {
        assert forall t :: 1 <= t < |perms| ==> perms[1..][t - 1] == perms[t];
        InterpolatedAllEfficient(w.value.cache, f, perms[1..], sizes, charAll, tau);
      }
    }
  }

  /** When every partner holds at least one sample, no permutation divides by zero. */
  lemma {:induction false} InterpolatedAllSucceeds(cache: CacheState, f: CharFn, perms: seq<seq<nat>>, sizes: seq<nat>, charAll: real, tau: real)
    requires Permutations(perms, cache.Players()) && |sizes| == cache.Players()
    requires forall i :: 0 <= i < |sizes| ==> sizes[i] > 0
    ensures InterpolatedAll(cache, f, perms, sizes, charAll, tau).Success?
    decreases |perms|
  {
    if |perms| > 0 {
      var w := InterpolatedWalk(cache, f, perms[0], sizes, charAll, tau);
      InterpolatedWalkSucceeds(cache, f, perms[0], sizes, charAll, tau);
      assert forall t :: 1 <= t < |perms| ==> perms[1..][t - 1] == perms[t];
      InterpolatedAllSucceeds(w.value.cache, f, perms[1..], sizes, charAll, tau);
    }
  }

  /** With a threshold that is not positive, the corrected matrix is the matrix of truncated_MC. */
  lemma {:induction false} InterpolatedAllUntruncated(cache: CacheState, f: CharFn, perms: seq<seq<nat>>, sizes: seq<nat>, charAll: real, tau: real)
    requires Permutations(perms, cache.Players()) && |sizes| == cache.Players() && tau <= 0.0
    ensures InterpolatedAll(cache, f, perms, sizes, charAll, tau) == Success(WalkAll(cache, f, perms, charAll, tau))
    decreases |perms|
  {
    if |perms| > 0 {
      Untruncated(cache, f, perms[0], sizes, charAll, tau);
      var w := TruncatedWalk(cache, f, perms[0], charAll, tau);
      assert forall t :: 1 <= t < |perms| ==> perms[1..][t - 1] == perms[t];
      InterpolatedAllUntruncated(w.cache, f, perms[1..], sizes, charAll, tau);
    }
  }

  /** The contributions matrix of interpol_trunc_MC as written, one row per permutation;
      the first division by zero aborts the whole computation. */
  function WrittenAll(cache: CacheState, f: CharFn, perms: seq<seq<nat>>, sizes: seq<nat>, charAll: real, tau: real): (r: Result<Rows, Error>)
    requires Permutations(perms, cache.Players()) && |sizes| == cache.Players()
    ensures r.Success? ==> |r.value.rows| == |perms| && r.value.cache.Players() == cache.Players()
    ensures r.Success? ==> Rectangular(r.value.rows, cache.Players())
    decreases |perms|
  {
    if |perms| == 0 then Success(Rows(cache, []))
    else
      var w := WrittenWalk(cache, f, perms[0], sizes, charAll, tau);
      if w.Failure? then Failure(w.error)
      else
        assert forall t :: 1 <= t < |perms| ==> perms[1..][t - 1] == perms[t];
        var rest := WrittenAll(w.value.cache, f, perms[1..], sizes, charAll, tau);
        if rest.Failure? then rest
        else Success(Rows(rest.value.cache, [w.value.row] + rest.value.rows))
  }

  /** When every partner holds at least one sample, no permutation of the loop as written
      divides by zero. */
  lemma {:induction false} WrittenAllSucceeds(cache: CacheState, f: CharFn, perms: seq<seq<nat>>, sizes: seq<nat>, charAll: real, tau: real)
    requires Permutations(perms, cache.Players()) && |sizes| == cache.Players()
    requires forall i :: 0 <= i < |sizes| ==> sizes[i] > 0
    ensures WrittenAll(cache, f, perms, sizes, charAll, tau).Success?
    decreases |perms|
  {
    if |perms| > 0 {
      var n := cache.Players();
      WrittenSucceeds(cache, f, perms[0], sizes, charAll, tau, [0.0], Zeros(n), true, 0);
      var w := WrittenWalk(cache, f, perms[0], sizes, charAll, tau);
      assert forall t :: 1 <= t < |perms| ==> perms[1..][t - 1] == perms[t];
      WrittenAllSucceeds(w.value.cache, f, perms[1..], sizes, charAll, tau);
    }
  }

  /** With a threshold that is not positive, the matrix as written is the matrix of truncated_MC. */
  lemma {:induction false} WrittenAllUntruncated(cache: CacheState, f: CharFn, perms: seq<seq<nat>>, sizes: seq<nat>, charAll: real, tau: real)
    requires Permutations(perms, cache.Players()) && |sizes| == cache.Players() && tau <= 0.0
    ensures WrittenAll(cache, f, perms, sizes, charAll, tau) == Success(WalkAll(cache, f, perms, charAll, tau))
    decreases |perms|
  {
    if |perms| > 0 {
      Untruncated(cache, f, perms[0], sizes, charAll, tau);
      var w := TruncatedWalk(cache, f, perms[0], charAll, tau);
      assert forall t :: 1 <= t < |perms| ==> perms[1..][t - 1] == perms[t];
      WrittenAllUntruncated(w.cache, f, perms[1..], sizes, charAll, tau);
    }
  }

  /** The matrix as written keeps the memo sound. */
  lemma {:induction false} WrittenAllKeepsSound(cache: CacheState, f: CharFn, perms: seq<seq<nat>>, sizes: seq<nat>, charAll: real, tau: real)
    requires Sound(cache, f) && Permutations(perms, cache.Players()) && |sizes| == cache.Players()
    ensures var r := WrittenAll(cache, f, perms, sizes, charAll, tau);
      r.Success? ==> Sound(r.value.cache, f)
    decreases |perms|
  {
    if |perms| > 0 {
      var w := WrittenWalk(cache, f, perms[0], sizes, charAll, tau);
      WrittenWalkSums(cache, f, perms[0], sizes, charAll, tau);
      if w.Success? {
        assert forall t :: 1 <= t < |perms| ==> perms[1..][t - 1] == perms[t];
        WrittenAllKeepsSound(w.value.cache, f, perms[1..], sizes, charAll, tau);
      }
    }
  }

  /** interpol_trunc_MC as written, with the permutations supplied in sampling order;
      sizes[i] is the number of training samples of the partner at position i of node_list. */
  function InterpolTruncMC(cache: CacheState, f: CharFn, perms: seq<seq<nat>>, sizes: seq<nat>, tau: real): (r: Result<Estimate, Error>)
    requires cache.Players() >= 1 && Permutations(perms, cache.Players()) && |sizes| == cache.Players()
    requires cache.Players() >= 2 ==> |perms| >= MinIterations
    ensures r.Success? ==> |r.value.scores| == cache.Players() && |r.value.stdSquared| == cache.Players()
    ensures r.Success? ==> forall i :: 0 <= i < |r.value.stdSquared| ==> r.value.stdSquared[i] >= 0.0
  {
    var n := cache.Players();
    RangeFacts(n);
    var all := Query(cache, f, Range(n));
    if n == 1 then Success(Estimate(all.st, [all.value], [0.0]))
    else
      var r := WrittenAll(all.st, f, perms, sizes, all.value, tau);
      if r.Failure? then Failure(r.error)
      else Success(Estimate(r.value.cache, ColumnMeans(r.value.rows, n), StdSquared(r.value.rows, n)))
  }

  /** interpol_trunc_MC as written keeps the memo sound; when every partner holds at least
      one sample it is computed, and with a threshold that is not positive it is the
      estimate of truncated_MC. */
  lemma {:induction false} InterpolTruncMCAgrees(cache: CacheState, f: CharFn, perms: seq<seq<nat>>, sizes: seq<nat>, tau: real)
    requires cache.Players() >= 1 && Permutations(perms, cache.Players()) && |sizes| == cache.Players()
    requires cache.Players() >= 2 ==> |perms| >= MinIterations
    ensures (forall i :: 0 <= i < |sizes| ==> sizes[i] > 0) ==> InterpolTruncMC(cache, f, perms, sizes, tau).Success?
    ensures tau <= 0.0 ==> InterpolTruncMC(cache, f, perms, sizes, tau) == Success(TruncatedMC(cache, f, perms, tau))
  {
    if forall i :: 0 <= i < |sizes| ==> sizes[i] > 0 {
      InterpolTruncMCSucceeds(cache, f, perms, sizes, tau);
    }
    if tau <= 0.0 {
      InterpolTruncMCUntruncated(cache, f, perms, sizes, tau);
    }
  }

  lemma {:induction false} InterpolTruncMCSucceeds(cache: CacheState, f: CharFn, perms: seq<seq<nat>>, sizes: seq<nat>, tau: real)
    requires cache.Players() >= 1 && Permutations(perms, cache.Players()) && |sizes| == cache.Players()
    requires cache.Players() >= 2 ==> |perms| >= MinIterations
    requires forall i :: 0 <= i < |sizes| ==> sizes[i] > 0
    ensures InterpolTruncMC(cache, f, perms, sizes, tau).Success?
  {
    var n := cache.Players();
    RangeFacts(n);
    var all := Query(cache, f, Range(n));
    if n >= 2 {
      WrittenAllSucceeds(all.st, f, perms, sizes, all.value, tau);
    }
  }

  lemma {:induction false} InterpolTruncMCUntruncated(cache: CacheState, f: CharFn, perms: seq<seq<nat>>, sizes: seq<nat>, tau: real)
    requires cache.Players() >= 1 && Permutations(perms, cache.Players()) && |sizes| == cache.Players()
    requires cache.Players() >= 2 ==> |perms| >= MinIterations
    requires tau <= 0.0
    ensures InterpolTruncMC(cache, f, perms, sizes, tau) == Success(TruncatedMC(cache, f, perms, tau))
  {
    var n := cache.Players();
    RangeFacts(n);
    var all := Query(cache, f, Range(n));
    if n >= 2 {
      WrittenAllUntruncated(all.st, f, perms, sizes, all.value, tau);
    }
  }

  lemma {:induction false} InterpolTruncMCKeepsSound(cache: CacheState, f: CharFn, perms: seq<seq<nat>>, sizes: seq<nat>, tau: real)
    requires Sound(cache, f)
    requires cache.Players() >= 1 && Permutations(perms, cache.Players()) && |sizes| == cache.Players()
    requires cache.Players() >= 2 ==> |perms| >= MinIterations
    ensures var r := InterpolTruncMC(cache, f, perms, sizes, tau);
      r.Success? ==> Sound(r.value.cache, f)
  {
    var n := cache.Players();
    RangeFacts(n);
    QueryKeepsSound(cache, f, Range(n));
    if n >= 2 {
      var all := Query(cache, f, Range(n));
      WrittenAllKeepsSound(all.st, f, perms, sizes, all.value, tau);
      InterpolTruncMCCache(cache, f, perms, sizes, tau);
    }
  }

  /** With two partners or more, the memo interpol_trunc_MC returns is the one its loop leaves. */
  lemma {:induction false} InterpolTruncMCCache(cache: CacheState, f: CharFn, perms: seq<seq<nat>>, sizes: seq<nat>, tau: real)
    requires cache.Players() >= 2 && Permutations(perms, cache.Players()) && |sizes| == cache.Players()
    requires |perms| >= MinIterations
    ensures var n := cache.Players();
      var all := Query(cache, f, Range(n));
      var r := InterpolTruncMC(cache, f, perms, sizes, tau);
      r.Success? ==>
        && WrittenAll(all.st, f, perms, sizes, all.value, tau).Success?
        && r.value.cache == WrittenAll(all.st, f, perms, sizes, all.value, tau).value.cache
  {
    RangeFacts(cache.Players());
  }

  /** interpol_trunc_MC with the corrected interpolation; sizes[i] is the number of
      training samples of partner i. */
  function InterpolTruncMCCorrected(cache: CacheState, f: CharFn, perms: seq<seq<nat>>, sizes: seq<nat>, tau: real): (r: Result<Estimate, Error>)
    requires cache.Players() >= 1 && Permutations(perms, cache.Players()) && |sizes| == cache.Players()
    requires cache.Players() >= 2 ==> |perms| >= MinIterations
    ensures r.Success? ==> |r.value.scores| == cache.Players() && |r.value.stdSquared| == cache.Players()
    ensures r.Success? ==> forall i :: 0 <= i < |r.value.stdSquared| ==> r.value.stdSquared[i] >= 0.0
  {
    var n := cache.Players();
    RangeFacts(n);
    var all := Query(cache, f, Range(n));
    if n == 1 then Success(Estimate(all.st, [all.value], [0.0]))
    else
      var r := InterpolatedAll(all.st, f, perms, sizes, all.value, tau);
      if r.Failure? then Failure(r.error)
      else Success(Estimate(r.value.cache, ColumnMeans(r.value.rows, n), StdSquared(r.value.rows, n)))
  }

  /** Unlike truncated_MC, the corrected estimate is exactly efficient: whenever it succeeds
      the scores add up to v(N), whatever the truncation threshold. */
  lemma {:induction false} CorrectedEfficient(cache: CacheState, f: CharFn, perms: seq<seq<nat>>, sizes: seq<nat>, tau: real)
    requires Sound(cache, f)
    requires cache.Players() >= 1 && Permutations(perms, cache.Players()) && |sizes| == cache.Players()
    requires cache.Players() >= 2 ==> |perms| >= MinIterations
    ensures var r := InterpolTruncMCCorrected(cache, f, perms, sizes, tau);
      r.Success? ==> Sum(r.value.scores) == CharValue(f, Range(cache.Players()))
  {
    var n := cache.Players();
    RangeFacts(n);
    SortOfSorted(Range(n));
    QueryKeepsSound(cache, f, Range(n));
    if n == 1 {
      assert Range(1) == [0];
      var charAll := CharValue(f, [0]);
      assert Sum([charAll]) == Sum([]) + charAll;
    } else {
      CorrectedMany(cache, f, perms, sizes, tau);
    }
  }

  lemma {:induction false} CorrectedMany(cache: CacheState, f: CharFn, perms: seq<seq<nat>>, sizes: seq<nat>, tau: real)
    requires Sound(cache, f)
    requires cache.Players() >= 2 && Permutations(perms, cache.Players()) && |sizes| == cache.Players()
    requires |perms| >= MinIterations
    ensures var r := InterpolTruncMCCorrected(cache, f, perms, sizes, tau);
      r.Success? ==> Sum(r.value.scores) == CharValue(f, Range(cache.Players()))
  {
    var n := cache.Players();
    RangeFacts(n);
    SortOfSorted(Range(n));
    QueryKeepsSound(cache, f, Range(n));
    var all := Query(cache, f, Range(n));
    var charAll := CharValue(f, Range(n));
    var r := InterpolatedAll(all.st, f, perms, sizes, charAll, tau);
    InterpolatedAllEfficient(all.st, f, perms, sizes, charAll, tau);
    if r.Success? {
      assert RowsEfficient(r.value.rows, charAll, 0.0);
      MeansEfficient(r.value.rows, n, charAll, 0.0);
    }
  }

  /** When every partner holds at least one sample, the estimate is computed, and with a
      threshold that is not positive it is the estimate of truncated_MC. */
  lemma {:induction false} CorrectedAgrees(cache: CacheState, f: CharFn, perms: seq<seq<nat>>, sizes: seq<nat>, tau: real)
    requires cache.Players() >= 1 && Permutations(perms, cache.Players()) && |sizes| == cache.Players()
    requires cache.Players() >= 2 ==> |perms| >= MinIterations
    ensures (forall i :: 0 <= i < |sizes| ==> sizes[i] > 0) ==> InterpolTruncMCCorrected(cache, f, perms, sizes, tau).Success?
    ensures tau <= 0.0 ==> InterpolTruncMCCorrected(cache, f, perms, sizes, tau) == Success(TruncatedMC(cache, f, perms, tau))
  {
    if forall i :: 0 <= i < |sizes| ==> sizes[i] > 0 {
      CorrectedSucceeds(cache, f, perms, sizes, tau);
    }
    if tau <= 0.0 {
      CorrectedUntruncated(cache, f, perms, sizes, tau);
    }
  }

  lemma {:induction false} CorrectedSucceeds(cache: CacheState, f: CharFn, perms: seq<seq<nat>>, sizes: seq<nat>, tau: real)
    requires cache.Players() >= 1 && Permutations(perms, cache.Players()) && |sizes| == cache.Players()
    requires cache.Players() >= 2 ==> |perms| >= MinIterations
    requires forall i :: 0 <= i < |sizes| ==> sizes[i] > 0
    ensures InterpolTruncMCCorrected(cache, f, perms, sizes, tau).Success?
  {
    var n := cache.Players();
    RangeFacts(n);
    var all := Query(cache, f, Range(n));
    if n >= 2 {
      InterpolatedAllSucceeds(all.st, f, perms, sizes, all.value, tau);
    }
  }

  lemma {:induction false} CorrectedUntruncated(cache: CacheState, f: CharFn, perms: seq<seq<nat>>, sizes: seq<nat>, tau: real)
    requires cache.Players() >= 1 && Permutations(perms, cache.Players()) && |sizes| == cache.Players()
    requires cache.Players() >= 2 ==> |perms| >= MinIterations
    requires tau <= 0.0
    ensures InterpolTruncMCCorrected(cache, f, perms, sizes, tau) == Success(TruncatedMC(cache, f, perms, tau))
  {
    var n := cache.Players();
    RangeFacts(n);
    var all := Query(cache, f, Range(n));
    if n >= 2 {
      InterpolatedAllUntruncated(all.st, f, perms, sizes, all.value, tau);
    }
  }
}
