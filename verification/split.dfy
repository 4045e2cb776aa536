/** The basic split (Scenario.split_data): per-partner fractions become running
    totals, the totals become cut points by truncating total·length, and numpy's
    split cuts the ordered sample indices into one contiguous chunk per partner.
    Only indices are modelled; the samples themselves are left out. */
module Split {
  import opened Wrappers
  import opened Seqs

  /** numpy's astype(int) on a float: rounds toward zero. */
  function Trunc(x: real): int
  {
    if x >= 0.0 then x.Floor else -((-x).Floor)
  }

  /** Truncation drops the fractional part and keeps the sign. */
  lemma {:induction false} TruncBounds(x: real)
    ensures Abs(Trunc(x) as real) <= Abs(x) < Abs(Trunc(x) as real) + 1.0
    ensures (x >= 0.0 ==> Trunc(x) >= 0) && (x <= 0.0 ==> Trunc(x) <= 0)
  {
  }

  /** Python's treatment of a slice bound on a sequence of length n: a negative
      bound counts from the end, and the result is clamped to 0 .. n. */
  function Clip(i: int, n: nat): (r: nat)
    ensures r <= n
    ensures 0 <= i <= n ==> r == i
  {
    if i < 0 then (if i + n < 0 then 0 else i + n) else if i > n then n else i
  }

  /** a[lo:hi] in Python. */
  function PySlice<T>(a: seq<T>, lo: int, hi: int): (r: seq<T>)
    ensures 0 <= lo <= hi <= |a| ==> r == a[lo..hi]
    ensures |r| <= |a|
  {
    var l := Clip(lo, |a|);
    var h := Clip(hi, |a|);
    if l < h then a[l..h] else []
  }

  /** numpy's split(a, cuts) from position lo on: the piece up to each cut point in
      turn, each cut point starting the next piece, then the rest of a. */
  function SplitAt<T>(a: seq<T>, lo: int, cuts: seq<int>): (r: seq<seq<T>>)
    ensures |r| == |cuts| + 1
    decreases |cuts|
  {
    if |cuts| == 0 then [PySlice(a, lo, |a|)]
    else [PySlice(a, lo, cuts[0])] + SplitAt(a, cuts[0], cuts[1..])
  }

  /** numpy's split(a, cuts). */
  function NpSplit<T>(a: seq<T>, cuts: seq<int>): (r: seq<seq<T>>)
    ensures |r| == |cuts| + 1
  {
    SplitAt(a, 0, cuts)
  }

  /** The chunks laid end to end. */
  function Flatten<T>(cs: seq<seq<T>>): seq<T>
  {
    if |cs| == 0 then [] else cs[0] + Flatten(cs[1..])
  }

  /** The piece boundaries: the start, the cut points, then the length. */
  function Bounds(lo: int, cuts: seq<int>, n: nat): (d: seq<int>)
    ensures |d| == |cuts| + 2 && d[0] == lo && d[|cuts| + 1] == n
    ensures forall i :: 0 <= i < |cuts| ==> d[i + 1] == cuts[i]
  {
    [lo] + cuts + [n]
  }

  /** Cut points that never go back and stay within lo .. n. */
  predicate Monotone(lo: int, cuts: seq<int>, n: nat)
  {
    (forall i :: 0 <= i < |cuts| ==> lo <= cuts[i] <= n) &&
    (forall i, j :: 0 <= i <= j < |cuts| ==> cuts[i] <= cuts[j])
  }

  /** The boundaries of monotone cut points rise from lo to n. */
  lemma {:induction false} BoundsRise(lo: int, cuts: seq<int>, n: nat)
    requires 0 <= lo <= n && Monotone(lo, cuts, n)
    ensures forall i :: 0 <= i < |cuts| + 2 ==> lo <= Bounds(lo, cuts, n)[i] <= n
    ensures forall i :: 0 <= i <= |cuts| ==> Bounds(lo, cuts, n)[i] <= Bounds(lo, cuts, n)[i + 1]
  {
    var d := Bounds(lo, cuts, n);
    forall i | 0 <= i <= |cuts|
      ensures d[i] <= d[i + 1]
    {
      if 0 < i < |cuts| {
        assert d[i] == cuts[i - 1] && d[i + 1] == cuts[i];
      }
    }
  }

  /** With monotone cut points chunk i is the piece between boundaries i and i + 1. */
  lemma {:induction false} SplitAtPieces<T>(a: seq<T>, lo: int, cuts: seq<int>)
    requires 0 <= lo <= |a| && Monotone(lo, cuts, |a|)
    ensures forall i :: 0 <= i < |cuts| + 2 ==> lo <= Bounds(lo, cuts, |a|)[i] <= |a|
    ensures forall i :: 0 <= i <= |cuts| ==> Bounds(lo, cuts, |a|)[i] <= Bounds(lo, cuts, |a|)[i + 1]
    ensures forall i :: 0 <= i <= |cuts| ==>
      SplitAt(a, lo, cuts)[i] == a[Bounds(lo, cuts, |a|)[i]..Bounds(lo, cuts, |a|)[i + 1]]
    decreases |cuts|
  {
    var d := Bounds(lo, cuts, |a|);
    var r := SplitAt(a, lo, cuts);
    BoundsRise(lo, cuts, |a|);
    assert r[0] == a[lo..d[1]];
    if |cuts| > 0 {
      var rest := cuts[1..];
      SplitAtPieces(a, cuts[0], rest);
      var d' := Bounds(cuts[0], rest, |a|);
      assert d == [lo] + d';
      forall i | 0 < i <= |cuts|
        ensures r[i] == a[d[i]..d[i + 1]]
      {
        assert d[i] == d'[i - 1] && d[i + 1] == d'[i];
        assert r[i] == SplitAt(a, cuts[0], rest)[i - 1];
      }
    }
  }

  /** With monotone cut points the chunks laid end to end give back the sequence from lo. */
  lemma {:induction false} SplitAtFlatten<T>(a: seq<T>, lo: int, cuts: seq<int>)
    requires 0 <= lo <= |a| && Monotone(lo, cuts, |a|)
    ensures Flatten(SplitAt(a, lo, cuts)) == a[lo..]
    decreases |cuts|
  {
    var r := SplitAt(a, lo, cuts);
    if |cuts| > 0 {
      SplitAtFlatten(a, cuts[0], cuts[1..]);
      assert r[1..] == SplitAt(a, cuts[0], cuts[1..]);
      assert a[lo..] == a[lo..cuts[0]] + a[cuts[0]..];
    } else {
      assert Flatten(r[1..]) == [];
    }
  }

  /** numpy's split with cut points that never go back and stay within the sequence:
      chunk i runs between boundaries i and i + 1, and the chunks laid end to end
      give back the sequence. */
  lemma {:induction false} NpSplitPieces<T>(a: seq<T>, cuts: seq<int>)
    requires Monotone(0, cuts, |a|)
    ensures forall i :: 0 <= i < |cuts| + 2 ==> 0 <= Bounds(0, cuts, |a|)[i] <= |a|
    ensures forall i :: 0 <= i <= |cuts| ==> Bounds(0, cuts, |a|)[i] <= Bounds(0, cuts, |a|)[i + 1]
    ensures forall i :: 0 <= i <= |cuts| ==>
      NpSplit(a, cuts)[i] == a[Bounds(0, cuts, |a|)[i]..Bounds(0, cuts, |a|)[i + 1]]
    ensures Flatten(NpSplit(a, cuts)) == a
  {
    SplitAtPieces(a, 0, cuts);
    SplitAtFlatten(a, 0, cuts);
    assert a[0..] == a;
  }

  function SumNat(s: seq<nat>): nat
  {
    if |s| == 0 then 0 else s[0] + SumNat(s[1..])
  }

  /** splitting_indices as the loop builds it: the first fraction, then each entry
      the previous one plus the next fraction. */
  function RunningSums(a: seq<real>, m: nat): (r: seq<real>)
    requires 1 <= m <= |a|
    ensures |r| == m
  {
    if m == 1 then [a[0]] else var p := RunningSums(a, m - 1); p + [p[m - 2] + a[m - 1]]
  }

  /** Entry i of the running sums is the total of the first i + 1 fractions. */
  lemma {:induction false} RunningSumsPrefix(a: seq<real>, m: nat)
    requires 1 <= m <= |a|
    ensures forall i :: 0 <= i < m ==> RunningSums(a, m)[i] == Sum(a[..i + 1])
  {
    if m > 1 {
      RunningSumsPrefix(a, m - 1);
      assert a[..m][..m - 1] == a[..m - 1];
    } else {
      assert a[..1][..0] == [];
    }
  }

  /** A running total times a length. */
  function Scaled(x: real, n: nat): real
  {
    x * n as real
  }

  /** (splitting_indices * length).astype(int), built from the end. */
  function Cuts(sums: seq<real>, n: nat): (r: seq<int>)
    ensures |r| == |sums|
  {
    if |sums| == 0 then [] else Cuts(sums[..|sums| - 1], n) + [Trunc(Scaled(sums[|sums| - 1], n))]
  }

  lemma {:induction false} CutsAt(sums: seq<real>, n: nat)
    ensures forall i :: 0 <= i < |sums| ==> Cuts(sums, n)[i] == Trunc(Scaled(sums[i], n))
  {
    if |sums| > 0 {
      CutsAt(sums[..|sums| - 1], n);
    }
  }

  /** The smallest entry, as Python's min. */
  function Smallest(s: seq<real>): real
    requires |s| > 0
  {
    if |s| == 1 then s[0] else Min(s[0], Smallest(s[1..]))
  }

  /** The smallest entry is an entry and is at most every entry. */
  lemma {:induction false} SmallestIsLeast(s: seq<real>)
    requires |s| > 0
    ensures Smallest(s) in s && forall i :: 0 <= i < |s| ==> Smallest(s) <= s[i]
  {
    if |s| > 1 {
      SmallestIsLeast(s[1..]);
      assert forall i :: 1 <= i < |s| ==> s[i] == s[1..][i - 1];
    }
  }

  /** min(amounts_per_partner) * len(x_train): the smallest partner's share of the
      training set, which must hold the mini-batch count. */
  function SmallestShare(amounts: seq<real>, n: nat): real
    requires |amounts| > 0
  {
    Smallest(amounts) * n as real
  }

  /** What the partners receive: for each partner, the indices of its training
      samples and of its local test samples. */
  datatype Partition = Partition(train: seq<seq<nat>>, test: seq<seq<nat>>)

  /** The failed asserts and the exceptions split_data raises. */
  datatype SplitError =
    | AmountsCountMismatch      // len(amounts_per_partner) != partners_count
    | AmountsNotSummingToOne    // sum(amounts_per_partner) != 1
    | NegativeDimensions        // np.empty of partners_count - 1 < 0 entries
    | IndexOutOfBounds          // writing entry 0 of an empty array (one partner)
    | UnknownSplitOption(name: string)
    | TooManyMinibatches        // minibatch_count > min(amounts) * train length

  /** The chunks split_data hands out once its checks have passed: the running totals
      of all fractions but the last cut the ordered training indices and the test
      indices. */
  function Chunks(amounts: seq<real>, order: seq<nat>, testLen: nat): (p: Partition)
    requires |amounts| >= 2
    ensures |p.train| == |amounts| && |p.test| == |amounts|
  {
    var sums := RunningSums(amounts, |amounts| - 1);
    Partition(NpSplit(order, Cuts(sums, |order|)), NpSplit(Range(testLen), Cuts(sums, testLen)))
  }

  /** The training indices in the order the option asks for. */
  function Order(option: string, shuffled: seq<nat>, byLabel: seq<nat>): seq<nat>
  {
    if option == "stratified" then byLabel else shuffled
  }

  /** split_data. `shuffled` is the seeded shuffle of the training indices (the
      random option) and `byLabel` the argsort of the training labels (the
      stratified option): partner chunks are cut from the one the option names.
      The test indices are never reordered. */
  function SplitData(count: nat, amounts: seq<real>, option: string, minibatches: int,
                     shuffled: seq<nat>, byLabel: seq<nat>, testLen: nat): (r: Result<Partition, SplitError>)
    requires |shuffled| == |byLabel|
    ensures r.Success? ==> |r.value.train| == count && |r.value.test| == count
  {
    if |amounts| != count then Failure(AmountsCountMismatch)
    else if Sum(amounts) != 1.0 then Failure(AmountsNotSummingToOne)
    else if count == 0 then Failure(NegativeDimensions)
    else if count == 1 then Failure(IndexOutOfBounds)
    else if option != "stratified" && option != "random" then Failure(UnknownSplitOption(option))
    else if minibatches as real > SmallestShare(amounts, |shuffled|) then Failure(TooManyMinibatches)
    else Success(Chunks(amounts, Order(option, shuffled, byLabel), testLen))
  }

  /** The errors in the order split_data meets them. */
  lemma {:induction false} SplitDataErrors(count: nat, amounts: seq<real>, option: string, minibatches: int,
                        shuffled: seq<nat>, byLabel: seq<nat>, testLen: nat)
    requires |shuffled| == |byLabel|
    ensures var r := SplitData(count, amounts, option, minibatches, shuffled, byLabel, testLen);
      && (|amounts| != count ==> r == Failure(AmountsCountMismatch))
      && (|amounts| == count && Sum(amounts) != 1.0 ==> r == Failure(AmountsNotSummingToOne))
      && (|amounts| == count == 1 && Sum(amounts) == 1.0 ==> r == Failure(IndexOutOfBounds))
      && (|amounts| == count >= 2 && Sum(amounts) == 1.0 && option != "random" && option != "stratified" ==>
            r == Failure(UnknownSplitOption(option)))
  {
  }

  /** split_data succeeds exactly when there are at least two partners, one fraction
      per partner, the fractions sum to 1, the option is known and the smallest
      partner's share of the training set holds the mini-batch count. */
  lemma {:induction false} SplitDataAccepts(count: nat, amounts: seq<real>, option: string, minibatches: int,
                         shuffled: seq<nat>, byLabel: seq<nat>, testLen: nat)
    requires |shuffled| == |byLabel|
    ensures SplitData(count, amounts, option, minibatches, shuffled, byLabel, testLen).Success? <==>
      |amounts| == count >= 2 && Sum(amounts) == 1.0 && (option == "random" || option == "stratified") &&
      minibatches as real <= SmallestShare(amounts, |shuffled|)
  {
  }

  /** A single partner cannot be split even when its fraction is 1: the source writes
      entry 0 of an empty array of split indices. */
  lemma {:induction false} SinglePartnerFails(option: string, minibatches: int, shuffled: seq<nat>, byLabel: seq<nat>, testLen: nat)
    requires |shuffled| == |byLabel|
    ensures SplitData(1, [1.0], option, minibatches, shuffled, byLabel, testLen) == Failure(IndexOutOfBounds)
  {
    assert [1.0][..0] == [];
  }

  lemma {:induction false} SumNonNegative(s: seq<real>)
    requires forall i :: 0 <= i < |s| ==> s[i] >= 0.0
    ensures Sum(s) >= 0.0
  {
    if |s| > 0 {
      SumNonNegative(s[..|s| - 1]);
    }
  }

  /** With non-negative fractions the running totals rise and never pass the total. */
  lemma {:induction false} PrefixBounds(a: seq<real>, i: nat, j: nat)
    requires forall k :: 0 <= k < |a| ==> a[k] >= 0.0
    requires i <= j <= |a|
    ensures 0.0 <= Sum(a[..i]) <= Sum(a[..j])
    decreases j - i
  {
    if i < j {
      PrefixBounds(a, i, j - 1);
      assert a[..j][..j - 1] == a[..j - 1];
    } else {
      SumNonNegative(a[..i]);
    }
  }

  lemma {:induction false} ScaleMonotone(x: real, y: real, n: nat)
    requires x <= y
    ensures Scaled(x, n) <= Scaled(y, n)
  {
  }

  lemma {:induction false} ScaleBounds(x: real, n: nat)
    requires 0.0 <= x <= 1.0
    ensures 0.0 <= Scaled(x, n) <= n as real
  {
    var m := n as real;
    assert m - x * m == (1.0 - x) * m;
  }

  lemma {:induction false} TruncMonotone(x: real, y: real)
    requires 0.0 <= x <= y
    ensures 0 <= Trunc(x) <= Trunc(y)
  {
  }

  /** With non-negative fractions the running totals are non-negative and rise. */
  lemma {:induction false} RunningSumsRise(a: seq<real>, m: nat)
    requires 1 <= m <= |a|
    requires forall k :: 0 <= k < |a| ==> a[k] >= 0.0
    ensures forall i :: 0 <= i < m ==> 0.0 <= RunningSums(a, m)[i]
    ensures forall i, j :: 0 <= i <= j < m ==> RunningSums(a, m)[i] <= RunningSums(a, m)[j]
  {
    if m > 1 {
      RunningSumsRise(a, m - 1);
      var p := RunningSums(a, m - 1);
      assert RunningSums(a, m) == p + [p[m - 2] + a[m - 1]];
    }
  }

  /** With non-negative fractions no running total passes the sum of all fractions. */
  lemma RunningSumsBelowTotal(a: seq<real>, m: nat)
    requires 1 <= m <= |a|
    requires forall k :: 0 <= k < |a| ==> a[k] >= 0.0
    ensures forall i :: 0 <= i < m ==> RunningSums(a, m)[i] <= Sum(a)
  {
    RunningSumsRise(a, m);
    RunningSumsPrefix(a, m);
    PrefixBounds(a, m, |a|);
    assert a[..|a|] == a;
    assert a[..m - 1 + 1] == a[..m];
  }

  /** Non-negative fractions summing to 1 give cut points that never go back and
      stay within 0 .. n. */
  lemma {:induction false} CutsMonotone(a: seq<real>, m: nat, n: nat)
    requires 1 <= m <= |a| && Sum(a) == 1.0
    requires forall k :: 0 <= k < |a| ==> a[k] >= 0.0
    ensures Monotone(0, Cuts(RunningSums(a, m), n), n)
  {
    var sums := RunningSums(a, m);
    var c := Cuts(sums, n);
    CutsAt(sums, n);
    RunningSumsRise(a, m);
    RunningSumsBelowTotal(a, m);
    forall i | 0 <= i < m
      ensures 0 <= c[i] <= n
    {
      ScaleBounds(sums[i], n);
      TruncMonotone(Scaled(sums[i], n), n as real);
      assert Trunc(n as real) == n;
    }
    forall i, j | 0 <= i <= j < m
      ensures c[i] <= c[j]
    {
      ScaleMonotone(sums[i], sums[j], n);
      ScaleBounds(sums[i], n);
      TruncMonotone(Scaled(sums[i], n), Scaled(sums[j], n));
    }
  }

  /** With non-negative fractions summing to 1 the chunks partition the ordered
      indices: laid end to end they are exactly those indices, so every sample goes
      to exactly one partner. */
  lemma {:induction false} ChunksPartition(amounts: seq<real>, order: seq<nat>, testLen: nat)
    requires |amounts| >= 2 && Sum(amounts) == 1.0
    requires forall k :: 0 <= k < |amounts| ==> amounts[k] >= 0.0
    ensures Flatten(Chunks(amounts, order, testLen).train) == order
    ensures Flatten(Chunks(amounts, order, testLen).test) == Range(testLen)
  {
    var sums := RunningSums(amounts, |amounts| - 1);
    CutsMonotone(amounts, |amounts| - 1, |order|);
    CutsMonotone(amounts, |amounts| - 1, testLen);
    NpSplitPieces(order, Cuts(sums, |order|));
    NpSplitPieces(Range(testLen), Cuts(sums, testLen));
  }

  /** Partner i's chunk lies between the boundaries i and i + 1 of the cut points. */
  lemma {:induction false} ChunkBetween(amounts: seq<real>, order: seq<nat>, testLen: nat, i: nat)
    requires |amounts| >= 2 && Sum(amounts) == 1.0
    requires forall k :: 0 <= k < |amounts| ==> amounts[k] >= 0.0
    requires i < |amounts|
    ensures var d := Bounds(0, Cuts(RunningSums(amounts, |amounts| - 1), |order|), |order|);
      0 <= d[i] <= d[i + 1] <= |order| && Chunks(amounts, order, testLen).train[i] == order[d[i]..d[i + 1]]
  {
    var c := Cuts(RunningSums(amounts, |amounts| - 1), |order|);
    CutsMonotone(amounts, |amounts| - 1, |order|);
    NpSplitPieces(order, c);
  }

  lemma {:induction false} RunningSumAt(a: seq<real>, m: nat, i: nat)
    requires 1 <= m <= |a| && i < m
    ensures RunningSums(a, m)[i] == Sum(a[..i + 1])
  {
    RunningSumsPrefix(a, m);
  }

  /** Boundary i of the cut points is the truncated, scaled total of the first i
      fractions: 0 before the first partner and n after the last. */
  lemma {:induction false} BoundaryValue(amounts: seq<real>, n: nat, i: nat)
    requires |amounts| >= 2 && Sum(amounts) == 1.0
    requires i <= |amounts|
    ensures Bounds(0, Cuts(RunningSums(amounts, |amounts| - 1), n), n)[i] == Trunc(Scaled(Sum(amounts[..i]), n))
  {
    var count := |amounts|;
    var sums := RunningSums(amounts, count - 1);
    var c := Cuts(sums, n);
    var d := Bounds(0, c, n);
    if i == 0 {
      assert amounts[..0] == [];
      assert Scaled(0.0, n) == 0.0;
    } else if i == count {
      assert amounts[..count] == amounts;
      assert Scaled(1.0, n) == n as real;
    } else {
      CutsAt(sums, n);
      RunningSumAt(amounts, count - 1, i - 1);
      assert d[i] == c[i - 1];
    }
  }

  /** Partner i's chunk runs from the truncated running total of the fractions before
      it to the truncated running total including it, both scaled by the length. */
  lemma {:induction false} ChunksRun(amounts: seq<real>, order: seq<nat>, testLen: nat, i: nat)
    requires |amounts| >= 2 && Sum(amounts) == 1.0
    requires forall k :: 0 <= k < |amounts| ==> amounts[k] >= 0.0
    requires i < |amounts|
    ensures var lo := Trunc(Scaled(Sum(amounts[..i]), |order|));
      var hi := Trunc(Scaled(Sum(amounts[..i + 1]), |order|));
      0 <= lo <= hi <= |order| && Chunks(amounts, order, testLen).train[i] == order[lo..hi]
  {
    ChunkBetween(amounts, order, testLen, i);
    BoundaryValue(amounts, |order|, i);
    BoundaryValue(amounts, |order|, i + 1);
  }

  /** A successful split with non-negative fractions partitions the training indices
      of the chosen order and the test indices among the partners. */
  lemma {:induction false} SplitDataPartitions(count: nat, amounts: seq<real>, option: string, minibatches: int,
                            shuffled: seq<nat>, byLabel: seq<nat>, testLen: nat)
    requires |shuffled| == |byLabel|
    requires SplitData(count, amounts, option, minibatches, shuffled, byLabel, testLen).Success?
    requires forall k :: 0 <= k < |amounts| ==> amounts[k] >= 0.0
    ensures Flatten(SplitData(count, amounts, option, minibatches, shuffled, byLabel, testLen).value.train) ==
      Order(option, shuffled, byLabel)
    ensures Flatten(SplitData(count, amounts, option, minibatches, shuffled, byLabel, testLen).value.test) == Range(testLen)
  {
    ChunksPartition(amounts, Order(option, shuffled, byLabel), testLen);
  }
}
