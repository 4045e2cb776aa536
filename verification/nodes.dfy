/** A partner's local data (node.py): the training set's length and the label
    corruption that moves each one-hot label to the previous class. Samples are
    represented by their indices in the scenario's training set; labels are the
    one-hot rows the preprocessing produces. */
module Nodes {
  import opened Wrappers
  import Seqs
  import Split

  /** A row of class scores: one-hot after preprocessing. */
  type Label = seq<real>

  datatype Node = Node(id: nat, xTrain: seq<nat>, yTrain: seq<Label>, xTest: seq<nat>, yTest: seq<Label>)

  /** get_x_train_len. */
  function XTrainLen(node: Node): nat
  {
    |node.xTrain|
  }

  /** The partners split_data populates: partner i holds chunk i of the training
      indices and of the test indices. Labels are left out, so they are empty here. */
  function PartnersOf(p: Split.Partition): (nodes: seq<Node>)
    requires |p.train| == |p.test|
    ensures |nodes| == |p.train|
  {
    seq(|p.train|, i requires 0 <= i < |p.train| => Node(i, p.train[i], [], p.test[i], []))
  }

  /** After a successful basic split, a partner's training length is the size of
      its chunk: the gap between the truncated, scaled running totals of the
      fractions up to it and including it. */
  lemma {:induction false} PartnerTrainLength(amounts: seq<real>, order: seq<nat>, testLen: nat, i: nat)
    requires |amounts| >= 2 && Seqs.Sum(amounts) == 1.0
    requires forall k :: 0 <= k < |amounts| ==> amounts[k] >= 0.0
    requires i < |amounts|
    ensures XTrainLen(PartnersOf(Split.Chunks(amounts, order, testLen))[i]) ==
      Split.Trunc(Split.Scaled(Seqs.Sum(amounts[..i + 1]), |order|)) -
      Split.Trunc(Split.Scaled(Seqs.Sum(amounts[..i]), |order|))
  {
    Split.ChunksRun(amounts, order, testLen, i);
  }

  /** Python's index -1 names the last position. */
  function PyIndex(i: int, n: nat): int
  {
    if i < 0 then i + n else i
  }

  /** numpy's argmax: the first position holding the largest score. */
  function ArgMax(row: Label): (h: nat)
    requires |row| > 0
    ensures h < |row|
    ensures forall i :: 0 <= i < |row| ==> row[i] <= row[h]
    ensures forall i :: 0 <= i < h ==> row[i] < row[h]
  {
    if |row| == 1 then 0
    else
      var h := ArgMax(row[..|row| - 1]);
      assert forall i :: 0 <= i < |row| - 1 ==> row[..|row| - 1][i] == row[i];
      if row[|row| - 1] > row[h] then |row| - 1 else h
  }

  /** One row of corrupt_labels: the largest score's position is set to 0, then the
      position before it (the last one when it is the first) to 1. */
  function CorruptRow(row: Label): (r: Label)
    requires |row| > 0
  {
    var h := ArgMax(row);
    row[h := 0.0][PyIndex(h - 1, |row|) := 1.0]
  }

  /** The class before k, the last class coming before the first. */
  function PrevClass(k: nat, n: nat): nat
  {
    if k == 0 then (if n == 0 then 0 else n - 1) else k - 1
  }

  /** The corrupted row has the row's length; the position before the largest score
      (the last position when the largest score comes first) holds 1, the largest
      score's own position holds 0 unless the row has a single entry, and every
      other position is unchanged. */
  lemma {:induction false} CorruptRowShape(row: Label)
    requires |row| > 0
    ensures var h := ArgMax(row);
      var prev := PrevClass(h, |row|);
      && |CorruptRow(row)| == |row|
      && CorruptRow(row)[prev] == 1.0
      && (|row| >= 2 ==> CorruptRow(row)[h] == 0.0)
      && forall i :: 0 <= i < |row| && i != h && i != prev ==> CorruptRow(row)[i] == row[i]
  {
  }

  /** A one-hot row with its 1 at position k. */
  predicate OneHot(row: Label, k: nat)
  {
    k < |row| && row[k] == 1.0 && forall i :: 0 <= i < |row| && i != k ==> row[i] == 0.0
  }

  /** A one-hot row of two or more classes stays one-hot, its 1 moved one class back
      (from the first class to the last). */
  lemma {:induction false} CorruptOneHot(row: Label, k: nat)
    requires OneHot(row, k) && |row| >= 2
    ensures OneHot(CorruptRow(row), PrevClass(k, |row|))
  {
    CorruptRowShape(row);
  }

  /** A row with one class is [1] after corruption, whatever it was: the second write
      lands on the position the first just cleared. */
  lemma {:induction false} CorruptSingleClass(row: Label)
    requires |row| == 1
    ensures CorruptRow(row) == [1.0]
  {
  }

  /** corrupt_labels: every label row of the node corrupted; an empty row has no
      argmax and raises. */
  function CorruptLabels(node: Node): (r: Result<Node, string>)
    ensures r.Success? ==>
      r.value.xTrain == node.xTrain && r.value.xTest == node.xTest &&
      r.value.yTest == node.yTest && r.value.id == node.id
  {
    if exists i :: 0 <= i < |node.yTrain| && |node.yTrain[i]| == 0 then Failure("attempt to get argmax of an empty sequence")
    else Success(node.(yTrain := seq(|node.yTrain|, i requires 0 <= i < |node.yTrain| => CorruptRow(node.yTrain[i]))))
  }

  /** Corruption keeps the number of label rows and the length of each, and changes
      each row exactly as CorruptRow does; it fails only on an empty row. */
  lemma {:induction false} CorruptLabelsRows(node: Node)
    ensures CorruptLabels(node).Success? <==> forall i :: 0 <= i < |node.yTrain| ==> |node.yTrain[i]| > 0
    ensures CorruptLabels(node).Success? ==>
      |CorruptLabels(node).value.yTrain| == |node.yTrain| &&
      forall i :: 0 <= i < |node.yTrain| ==>
        |CorruptLabels(node).value.yTrain[i]| == |node.yTrain[i]| &&
        CorruptLabels(node).value.yTrain[i] == CorruptRow(node.yTrain[i])
  {
    if CorruptLabels(node).Success? {
      forall i | 0 <= i < |node.yTrain|
        ensures |CorruptRow(node.yTrain[i])| == |node.yTrain[i]|
      {
        CorruptRowShape(node.yTrain[i]);
      }
    }
  }

  /** Corrupting m times in a row. */
  function CorruptTimes(row: Label, m: nat): (r: Label)
    requires |row| > 0
    ensures |r| == |row|
  {
    if m == 0 then row
    else
      var prev := CorruptTimes(row, m - 1);
      CorruptRowShape(prev);
      CorruptRow(prev)
  }

  /** Where a one-hot label's 1 is after m corruptions of a row of n classes,
      for m up to n: m classes back, wrapping round once past the first. */
  function Back(k: nat, m: nat, n: nat): nat
    requires m <= n
  {
    if m <= k then k - m else k + n - m
  }

  /** Repeated corruption walks a one-hot label backwards through the classes. */
  lemma {:induction false} CorruptTimesOneHot(row: Label, k: nat, m: nat)
    requires OneHot(row, k) && |row| >= 2 && m <= |row|
    ensures OneHot(CorruptTimes(row, m), Back(k, m, |row|))
  {
    if m > 0 {
      CorruptTimesOneHot(row, k, m - 1);
      CorruptOneHot(CorruptTimes(row, m - 1), Back(k, m - 1, |row|));
    }
  }

  /** Corrupting a one-hot label as many times as there are classes gives it back. */
  lemma {:induction false} CorruptFullCircle(row: Label, k: nat)
    requires OneHot(row, k) && |row| >= 2
    ensures CorruptTimes(row, |row|) == row
  {
    CorruptTimesOneHot(row, k, |row|);
    var r := CorruptTimes(row, |row|);
    assert forall i :: 0 <= i < |row| ==> r[i] == row[i];
  }
}
