/** The advanced split (Scenario.split_data_advanced). Each partner asks for a number
    of label clusters, either clusters of its own ("specific") or clusters drawn from
    a pool the "shared" partners have in common. The amounts configured per partner
    are scaled down by two resize factors until the clusters can supply them, and the
    shared partners take consecutive windows of each shared cluster. Samples are the
    indices of the training set; a cluster is the indices holding one label. The
    shuffle of the labels and the draws of random.sample are parameters. */
module AdvancedSplit {
  import opened Wrappers
  import opened Seqs
  import Scenario
  import Split

  /** A partner as the split ranks it: its id and the number of clusters it asks for. */
  datatype Entry = Entry(id: nat, count: nat)

  // Selecting and ranking the partners

  /** The partners whose split option is opt, in id order. */
  function WithOption(specs: seq<Scenario.ClusterSpec>, opt: string): (r: seq<Entry>)
    ensures |r| <= |specs|
  {
    if |specs| == 0 then []
    else
      var last := |specs| - 1;
      var r := WithOption(specs[..last], opt);
      if specs[last].option == opt then r + [Entry(last, specs[last].count)] else r
  }

  /** A partner is selected exactly when its option is opt, with its own count. */
  lemma {:induction false} WithOptionExact(specs: seq<Scenario.ClusterSpec>, opt: string)
    ensures forall e :: e in WithOption(specs, opt) <==>
      e.id < |specs| && specs[e.id].option == opt && e.count == specs[e.id].count
  {
    if |specs| > 0 {
      var last := |specs| - 1;
      WithOptionExact(specs[..last], opt);
      forall e
        ensures e in WithOption(specs, opt) <==>
          e.id < |specs| && specs[e.id].option == opt && e.count == specs[e.id].count
      {
        if e.id < last {
          assert specs[..last][e.id] == specs[e.id];
        }
      }
    }
  }

  /** The selection lists the partners in increasing id order, each once. */
  lemma {:induction false} WithOptionIncreasing(specs: seq<Scenario.ClusterSpec>, opt: string)
    ensures forall i, j :: 0 <= i < j < |WithOption(specs, opt)| ==>
      WithOption(specs, opt)[i].id < WithOption(specs, opt)[j].id
  {
    if |specs| > 0 {
      var last := |specs| - 1;
      WithOptionIncreasing(specs[..last], opt);
      WithOptionExact(specs[..last], opt);
      var r := WithOption(specs[..last], opt);
      assert forall i :: 0 <= i < |r| ==> r[i] in r && r[i].id < last;
    }
  }

  /** Ranked by count, largest first. */
  predicate Descending(s: seq<Entry>)
  {
    forall i, j :: 0 <= i < j < |s| ==> s[i].count >= s[j].count
  }

  /** Inserts x after every entry whose count is at least x's. */
  function InsertDesc(s: seq<Entry>, x: Entry): (r: seq<Entry>)
    ensures |r| == |s| + 1
  {
    if |s| == 0 then [x]
    else if s[0].count >= x.count then [s[0]] + InsertDesc(s[1..], x)
    else [x] + s
  }

  /** list.sort(key=cluster_count, reverse=True), which is stable: insertion from
      the front, each new entry placed after the ties already there. */
  function SortDesc(s: seq<Entry>): (r: seq<Entry>)
    ensures |r| == |s|
  {
    if |s| == 0 then [] else InsertDesc(SortDesc(s[..|s| - 1]), s[|s| - 1])
  }

  lemma {:induction false} InsertDescCount(s: seq<Entry>, x: Entry)
    ensures multiset(InsertDesc(s, x)) == multiset(s) + multiset{x}
  {
    if |s| > 0 {
      assert s == [s[0]] + s[1..];
      InsertDescCount(s[1..], x);
    }
  }

  lemma {:induction false} InsertDescFacts(s: seq<Entry>, x: Entry)
    requires Descending(s)
    ensures Descending(InsertDesc(s, x)) && multiset(InsertDesc(s, x)) == multiset(s) + multiset{x}
  {
    InsertDescCount(s, x);
    if |s| > 0 && s[0].count >= x.count {
      var t := InsertDesc(s[1..], x);
      InsertDescFacts(s[1..], x);
      InsertDescCount(s[1..], x);
      forall j | 0 <= j < |t|
        ensures s[0].count >= t[j].count
      {
        assert t[j] in multiset(t);
        if t[j] != x {
          assert t[j] in multiset(s[1..]);
          var k :| 0 <= k < |s[1..]| && s[1..][k] == t[j];
          assert s[k + 1] == t[j];
        }
      }
    }
  }

  /** The ranking is in descending count order and is a permutation of its input. */
  lemma {:induction false} SortDescFacts(s: seq<Entry>)
    ensures Descending(SortDesc(s)) && multiset(SortDesc(s)) == multiset(s)
  {
    if |s| > 0 {
      SortDescFacts(s[..|s| - 1]);
      InsertDescFacts(SortDesc(s[..|s| - 1]), s[|s| - 1]);
      assert s == s[..|s| - 1] + [s[|s| - 1]];
    }
  }

  /** The entries of s whose count is c, in the order s lists them. */
  function Ties(s: seq<Entry>, c: nat): seq<Entry>
  {
    if |s| == 0 then [] else (if s[0].count == c then [s[0]] else []) + Ties(s[1..], c)
  }

  lemma {:induction false} TiesConcat(a: seq<Entry>, b: seq<Entry>, c: nat)
    ensures Ties(a + b, c) == Ties(a, c) + Ties(b, c)
  {
    if |a| > 0 {
      assert (a + b)[1..] == a[1..] + b;
      TiesConcat(a[1..], b, c);
    } else {
      assert a + b == b;
    }
  }

  /** No entry of a ranking headed by a count below c has count c. */
  lemma {:induction false} TiesNone(s: seq<Entry>, c: nat)
    requires Descending(s) && (|s| > 0 ==> s[0].count < c)
    ensures Ties(s, c) == []
  {
    if |s| > 0 {
      assert Descending(s[1..]) && (|s[1..]| > 0 ==> s[1..][0].count <= s[0].count);
      TiesNone(s[1..], c);
    }
  }

  /** Inserting into a ranking puts the new entry after the ties already there. */
  lemma {:induction false} InsertDescTies(s: seq<Entry>, x: Entry, c: nat)
    requires Descending(s)
    ensures Ties(InsertDesc(s, x), c) == Ties(s, c) + (if x.count == c then [x] else [])
  {
    if |s| > 0 {
      if s[0].count >= x.count {
        var r := InsertDesc(s, x);
        assert r[1..] == InsertDesc(s[1..], x);
        assert Descending(s[1..]);
        InsertDescTies(s[1..], x, c);
      } else {
        assert InsertDesc(s, x)[1..] == s;
        if x.count == c {
          TiesNone(s, c);
        }
      }
    }
  }

  /** The ranking is stable: the entries of any one count keep their input order. */
  lemma {:induction false} SortDescStable(s: seq<Entry>, c: nat)
    ensures Ties(SortDesc(s), c) == Ties(s, c)
  {
    if |s| > 0 {
      var p, x := s[..|s| - 1], s[|s| - 1];
      SortDescStable(p, c);
      SortDescFacts(p);
      InsertDescTies(SortDesc(p), x, c);
      assert s == p + [x];
      TiesConcat(p, [x], c);
    }
  }

  /** The partners of one option as the split ranks them. */
  function Ranked(specs: seq<Scenario.ClusterSpec>, opt: string): seq<Entry>
  {
    SortDesc(WithOption(specs, opt))
  }

  /** The ranking of one option holds exactly that option's partners, largest count
      first. */
  lemma {:induction false} RankedExact(specs: seq<Scenario.ClusterSpec>, opt: string)
    ensures Descending(Ranked(specs, opt))
    ensures forall e :: e in Ranked(specs, opt) <==>
      e.id < |specs| && specs[e.id].option == opt && e.count == specs[e.id].count
  {
    SortDescFacts(WithOption(specs, opt));
    WithOptionExact(specs, opt);
    assert forall e :: e in Ranked(specs, opt) <==> e in multiset(Ranked(specs, opt));
    assert forall e :: e in WithOption(specs, opt) <==> e in multiset(WithOption(specs, opt));
  }

  /** The clusters the specific partners take in total. */
  function CountSum(es: seq<Entry>): nat
  {
    if |es| == 0 then 0 else es[0].count + CountSum(es[1..])
  }

  /** The largest count, 0 for no entries: the size of the shared pool. */
  function MaxCount(es: seq<Entry>): (m: nat)
    ensures forall i :: 0 <= i < |es| ==> es[i].count <= m
    ensures |es| == 0 ==> m == 0
  {
    if |es| == 0 then 0
    else
      var t := MaxCount(es[1..]);
      assert forall i :: 1 <= i < |es| ==> es[i] == es[1..][i - 1];
      if es[0].count >= t then es[0].count else t
  }

  /** The largest count is some entry's count; in a ranking it is the first's. */
  lemma {:induction false} MaxCountAttained(es: seq<Entry>)
    requires |es| > 0
    ensures exists i :: 0 <= i < |es| && es[i].count == MaxCount(es)
    ensures Descending(es) ==> MaxCount(es) == es[0].count
  {
    if |es| == 1 {
      assert es[0].count == MaxCount(es);
    } else {
      MaxCountAttained(es[1..]);
      var i :| 0 <= i < |es[1..]| && es[1..][i].count == MaxCount(es[1..]);
      if es[0].count >= MaxCount(es[1..]) {
        assert es[0].count == MaxCount(es);
      } else {
        assert es[i + 1].count == MaxCount(es);
      }
    }
  }

  lemma {:induction false} CountSumConcat(a: seq<Entry>, b: seq<Entry>)
    ensures CountSum(a + b) == CountSum(a) + CountSum(b)
  {
    if |a| > 0 {
      assert (a + b)[0] == a[0] && (a + b)[1..] == a[1..] + b;
      CountSumConcat(a[1..], b);
    } else {
      assert a + b == b;
    }
  }

  /** The first j counts, the next count, and the first j + 1 counts. */
  lemma {:induction false} CountSumStep(es: seq<Entry>, j: nat)
    requires j < |es|
    ensures CountSum(es[..j]) + es[j].count == CountSum(es[..j + 1])
    ensures CountSum(es[..j + 1]) <= CountSum(es)
  {
    assert es[..j + 1] == es[..j] + [es[j]];
    CountSumConcat(es[..j], [es[j]]);
    assert es == es[..j + 1] + es[j + 1..];
    CountSumConcat(es[..j + 1], es[j + 1..]);
  }

  /** A prefix of the counts sums to no more than a longer prefix. */
  lemma {:induction false} CountSumPrefixes(es: seq<Entry>, j: nat, k: nat)
    requires j <= k <= |es|
    ensures CountSum(es[..j]) <= CountSum(es[..k])
  {
    assert es[..k] == es[..j] + es[j..k];
    CountSumConcat(es[..j], es[j..k]);
  }

  // The clusters each partner is given

  /** The specific partners' label slices: consecutive, each as long as the partner's
      count, starting at index. */
  function SpecificSlices(labels: seq<nat>, es: seq<Entry>, index: nat): (r: seq<seq<nat>>)
    ensures |r| == |es|
  {
    if |es| == 0 then []
    else [Split.PySlice(labels, index, index + es[0].count)] + SpecificSlices(labels, es[1..], index + es[0].count)
  }

  /** When the slices fit, slice j starts after the counts of the partners ranked
      before it and holds exactly the partner's count of labels. */
  lemma {:induction false} SlicesAt(labels: seq<nat>, es: seq<Entry>, index: nat)
    requires index + CountSum(es) <= |labels|
    ensures forall j :: 0 <= j < |es| ==>
      index + CountSum(es[..j]) + es[j].count <= |labels| &&
      SpecificSlices(labels, es, index)[j] ==
        labels[index + CountSum(es[..j]) .. index + CountSum(es[..j]) + es[j].count]
  {
    forall j | 0 <= j < |es|
      ensures index + CountSum(es[..j]) + es[j].count <= |labels|
      ensures SpecificSlices(labels, es, index)[j] ==
        labels[index + CountSum(es[..j]) .. index + CountSum(es[..j]) + es[j].count]
    {
      SliceAt(labels, es, index, j);
    }
  }

  /** Slice j of SlicesAt, by induction on j. */
  lemma {:induction false} SliceAt(labels: seq<nat>, es: seq<Entry>, index: nat, j: nat)
    requires index + CountSum(es) <= |labels| && j < |es|
    ensures index + CountSum(es[..j]) + es[j].count <= |labels|
    ensures SpecificSlices(labels, es, index)[j] ==
      labels[index + CountSum(es[..j]) .. index + CountSum(es[..j]) + es[j].count]
  {
    if j == 0 {
      SlicesHead(labels, es, index);
    } else {
      SliceAt(labels, es[1..], index + es[0].count, j - 1);
      SliceStep(labels, es, index, j);
    }
  }

  /** Slice j - 1 of the slices after the first partner's is slice j. */
  lemma {:induction false} SliceStep(labels: seq<nat>, es: seq<Entry>, index: nat, j: nat)
    requires 0 < j < |es|
    requires var c, rest := es[0].count, es[1..];
      && index + c + CountSum(rest[..j - 1]) + rest[j - 1].count <= |labels|
      && SpecificSlices(labels, rest, index + c)[j - 1] ==
        labels[index + c + CountSum(rest[..j - 1]) .. index + c + CountSum(rest[..j - 1]) + rest[j - 1].count]
    ensures index + CountSum(es[..j]) + es[j].count <= |labels|
    ensures SpecificSlices(labels, es, index)[j] ==
      labels[index + CountSum(es[..j]) .. index + CountSum(es[..j]) + es[j].count]
  {
    SlicesShift(labels, es, index, j);
  }

  lemma {:induction false} SlicesHead(labels: seq<nat>, es: seq<Entry>, index: nat)
    requires 0 < |es| && index + CountSum(es) <= |labels|
    ensures index + CountSum(es[..0]) + es[0].count <= |labels|
    ensures SpecificSlices(labels, es, index)[0] ==
      labels[index + CountSum(es[..0]) .. index + CountSum(es[..0]) + es[0].count]
  {
    assert es[..0] == [];
  }

  /** Slice j > 0 is slice j - 1 of the slices after the first partner's. */
  lemma {:induction false} SlicesShift(labels: seq<nat>, es: seq<Entry>, index: nat, j: nat)
    requires 0 < j < |es|
    ensures es[j] == es[1..][j - 1]
    ensures CountSum(es[..j]) == es[0].count + CountSum(es[1..][..j - 1])
    ensures SpecificSlices(labels, es, index)[j] == SpecificSlices(labels, es[1..], index + es[0].count)[j - 1]
  {
    assert es[..j][1..] == es[1..][..j - 1];
  }

  /** Entries at distinct positions of a repeat-free sequence differ, so two
      non-overlapping stretches share no entry. */
  lemma {:induction false} Apart(labels: seq<nat>, a: nat, b: nat, c: nat, d: nat)
    requires NoDup(labels) && a <= b <= c <= d <= |labels|
    ensures forall x :: x in labels[a..b] ==> x !in labels[c..d]
  {
    forall x | x in labels[a..b]
      ensures x !in labels[c..d]
    {
      var i :| 0 <= i < b - a && labels[a..b][i] == x;
      forall k | 0 <= k < d - c
        ensures labels[c..d][k] != x
      {
        assert labels[c + k] != labels[a + i];
      }
    }
  }

  /** With repeat-free labels, the specific partners' slices are pairwise disjoint. */
  lemma {:induction false} SlicesDisjoint(labels: seq<nat>, es: seq<Entry>, index: nat)
    requires NoDup(labels) && index + CountSum(es) <= |labels|
    ensures forall j, k, x :: 0 <= j < k < |es| && x in SpecificSlices(labels, es, index)[j] ==>
      x !in SpecificSlices(labels, es, index)[k]
  {
    SlicesAt(labels, es, index);
    forall j, k | 0 <= j < k < |es|
      ensures forall x :: x in SpecificSlices(labels, es, index)[j] ==> x !in SpecificSlices(labels, es, index)[k]
    {
      CountSumStep(es, j);
      CountSumStep(es, k);
      CountSumPrefixes(es, j + 1, k);
      Apart(labels, index + CountSum(es[..j]), index + CountSum(es[..j + 1]),
        index + CountSum(es[..k]), index + CountSum(es[..k + 1]));
    }
  }

  /** The labels after all the slices are disjoint from every slice. */
  lemma {:induction false} SlicesBeforePool(labels: seq<nat>, es: seq<Entry>, index: nat, size: nat)
    requires NoDup(labels) && index + CountSum(es) + size <= |labels|
    ensures forall j, x :: 0 <= j < |es| && x in SpecificSlices(labels, es, index)[j] ==>
      x !in labels[index + CountSum(es) .. index + CountSum(es) + size]
  {
    SlicesAt(labels, es, index);
    forall j | 0 <= j < |es|
      ensures forall x :: x in SpecificSlices(labels, es, index)[j] ==>
        x !in labels[index + CountSum(es) .. index + CountSum(es) + size]
    {
      CountSumStep(es, j);
      Apart(labels, index + CountSum(es[..j]), index + CountSum(es[..j + 1]),
        index + CountSum(es), index + CountSum(es) + size);
    }
  }

  /** random.sample(pool, k) as the first k positions of a draw of pool positions. */
  function Sample(pool: seq<nat>, draw: seq<nat>, k: nat): (r: seq<nat>)
    requires k <= |draw| && forall i :: 0 <= i < |draw| ==> draw[i] < |pool|
    ensures |r| == k
  {
    seq(k, j requires 0 <= j < k => pool[draw[j]])
  }

  /** A sample drawn without repetition from a repeat-free pool is repeat-free and
      comes from the pool. */
  lemma {:induction false} SampleFacts(pool: seq<nat>, draw: seq<nat>, k: nat)
    requires k <= |draw| && forall i :: 0 <= i < |draw| ==> draw[i] < |pool|
    requires NoDup(pool) && NoDup(draw)
    ensures NoDup(Sample(pool, draw, k))
    ensures forall x :: x in Sample(pool, draw, k) ==> x in pool
  {
  }

  /** A partner with the clusters it was given. */
  datatype Member = Member(id: nat, count: nat, clusters: seq<nat>)

  /** The specific partners with their slices, the shared partners with their
      samples, both in rank order, and the shared pool. */
  datatype Assignment = Assignment(specific: seq<Member>, shared: seq<Member>, pool: seq<nat>)

  /** The ways the advanced split fails, each an exception of the source. */
  datatype AdvancedError =
    | Infeasible          // more clusters asked for than there are labels
    | MissingAmount       // no configured amount for a partner id
    | ZeroDivision        // a zero configured amount, cluster count, need or total
    | EmptyPartner        // a partner with no cluster to concatenate
    | NoPartners          // the smallest partner of none
    | TooManyMinibatches  // more mini-batches than the smallest partner has samples

  function Attach(es: seq<Entry>, cls: seq<seq<nat>>): (ms: seq<Member>)
    requires |es| == |cls|
    ensures |ms| == |es|
  {
    seq(|es|, i requires 0 <= i < |es| => Member(es[i].id, es[i].count, cls[i]))
  }

  /** The draws random.sample makes: for each shared partner in rank order, an
      ordering of the pool's positions whose first entries it takes. */
  predicate DrawsFit(specs: seq<Scenario.ClusterSpec>, draws: seq<seq<nat>>)
  {
    |draws| == |Ranked(specs, "shared")| &&
    forall i :: 0 <= i < |draws| ==> IsPermutation(draws[i], MaxCount(Ranked(specs, "shared")))
  }

  /** The clusters of every specific and shared partner. The specific partners take
      consecutive slices of the shuffled labels, largest count first; the shared pool
      is the next labels, as many as the largest shared count; each shared partner
      samples its count of them. Fails when the two totals exceed the labels. */
  function Assign(specs: seq<Scenario.ClusterSpec>, labels: seq<nat>, draws: seq<seq<nat>>): (r: Result<Assignment, AdvancedError>)
    requires DrawsFit(specs, draws)
    ensures r.Success? ==>
      |r.value.specific| == |Ranked(specs, "specific")| && |r.value.shared| == |Ranked(specs, "shared")|
  {
    var specific := Ranked(specs, "specific");
    var shared := Ranked(specs, "shared");
    var index := CountSum(specific);
    var size := MaxCount(shared);
    if index + size > |labels| then Failure(Infeasible)
    else
      var pool := Split.PySlice(labels, index, index + size);
      Success(Assignment(
        Attach(specific, SpecificSlices(labels, specific, 0)),
        Attach(shared, seq(|shared|, i requires 0 <= i < |shared| => Sample(pool, draws[i], shared[i].count))),
        pool))
  }

  /** The assignment fails exactly when the specific counts and the largest shared
      count together exceed the labels; otherwise the pool is the labels right after
      the specific slices, and specific partner j's clusters are the labels after
      those of the partners ranked before it, as many as its count. */
  lemma {:induction false} AssignSpecific(specs: seq<Scenario.ClusterSpec>, labels: seq<nat>, draws: seq<seq<nat>>)
    requires DrawsFit(specs, draws)
    ensures var specific := Ranked(specs, "specific");
      var index := CountSum(specific);
      var size := MaxCount(Ranked(specs, "shared"));
      && (Assign(specs, labels, draws).Success? <==> index + size <= |labels|)
      && (Assign(specs, labels, draws).Success? ==>
        && Assign(specs, labels, draws).value.pool == labels[index .. index + size]
        && forall j :: 0 <= j < |specific| ==>
          CountSum(specific[..j]) + specific[j].count <= |labels| &&
          Assign(specs, labels, draws).value.specific[j] ==
            Member(specific[j].id, specific[j].count,
              labels[CountSum(specific[..j]) .. CountSum(specific[..j]) + specific[j].count]))
  {
    AssignPool(specs, labels, draws);
    if Assign(specs, labels, draws).Success? {
      AssignSlices(specs, labels, draws);
    }
  }

  lemma {:induction false} AssignPool(specs: seq<Scenario.ClusterSpec>, labels: seq<nat>, draws: seq<seq<nat>>)
    requires DrawsFit(specs, draws)
    ensures var index := CountSum(Ranked(specs, "specific"));
      var size := MaxCount(Ranked(specs, "shared"));
      && (Assign(specs, labels, draws).Success? <==> index + size <= |labels|)
      && (Assign(specs, labels, draws).Success? ==> Assign(specs, labels, draws).value.pool == labels[index .. index + size])
  {
  }

  lemma {:induction false} AssignSlices(specs: seq<Scenario.ClusterSpec>, labels: seq<nat>, draws: seq<seq<nat>>)
    requires DrawsFit(specs, draws) && Assign(specs, labels, draws).Success?
    ensures var specific := Ranked(specs, "specific");
      forall j :: 0 <= j < |specific| ==>
        CountSum(specific[..j]) + specific[j].count <= |labels| &&
        Assign(specs, labels, draws).value.specific[j] ==
          Member(specific[j].id, specific[j].count,
            labels[CountSum(specific[..j]) .. CountSum(specific[..j]) + specific[j].count])
  {
    var specific := Ranked(specs, "specific");
    var slices := SpecificSlices(labels, specific, 0);
    assert Assign(specs, labels, draws).value.specific == Attach(specific, slices);
    SlicesAt(labels, specific, 0);
  }

  /** With repeat-free labels the specific partners' clusters are pairwise disjoint
      and disjoint from the shared pool. */
  lemma {:induction false} AssignDisjoint(specs: seq<Scenario.ClusterSpec>, labels: seq<nat>, draws: seq<seq<nat>>)
    requires DrawsFit(specs, draws) && NoDup(labels)
    requires Assign(specs, labels, draws).Success?
    ensures var a := Assign(specs, labels, draws).value;
      && (forall j, k, x :: 0 <= j < k < |a.specific| && x in a.specific[j].clusters ==> x !in a.specific[k].clusters)
      && (forall j, x :: 0 <= j < |a.specific| && x in a.specific[j].clusters ==> x !in a.pool)
  {
    var specific := Ranked(specs, "specific");
    var size := MaxCount(Ranked(specs, "shared"));
    SlicesDisjoint(labels, specific, 0);
    SlicesBeforePool(labels, specific, 0, size);
  }

  /** With repeat-free labels each shared partner's clusters are repeat-free, come
      from the pool and number its count. */
  lemma {:induction false} AssignShared(specs: seq<Scenario.ClusterSpec>, labels: seq<nat>, draws: seq<seq<nat>>)
    requires DrawsFit(specs, draws) && NoDup(labels)
    requires Assign(specs, labels, draws).Success?
    ensures var a := Assign(specs, labels, draws).value;
      forall j :: 0 <= j < |a.shared| ==>
        && NoDup(a.shared[j].clusters)
        && |a.shared[j].clusters| == a.shared[j].count
        && forall x :: x in a.shared[j].clusters ==> x in a.pool
  {
    var a := Assign(specs, labels, draws).value;
    var shared := Ranked(specs, "shared");
    var index := CountSum(Ranked(specs, "specific"));
    var size := MaxCount(shared);
    var pool := labels[index .. index + size];
    assert NoDup(pool) by {
      forall i, k | 0 <= i < k < |pool| ensures pool[i] != pool[k] {
        assert pool[i] == labels[index + i] && pool[k] == labels[index + k];
      }
    }
    forall j | 0 <= j < |a.shared|
      ensures NoDup(a.shared[j].clusters)
      ensures forall x :: x in a.shared[j].clusters ==> x in a.pool
    {
      SampleFacts(pool, draws[j], shared[j].count);
    }
  }

  // The resize factors

  /** np.where(y_train == l): the training indices holding label l, ascending. */
  function ClusterOf(y: seq<nat>, l: nat): seq<nat>
  {
    if |y| == 0 then []
    else ClusterOf(y[..|y| - 1], l) + (if y[|y| - 1] == l then [|y| - 1] else [])
  }

  /** A cluster holds exactly the indices of the label's samples. */
  lemma {:induction false} ClusterOfExact(y: seq<nat>, l: nat)
    ensures forall i: nat :: i in ClusterOf(y, l) <==> i < |y| && y[i] == l
  {
    if |y| > 0 {
      var last := |y| - 1;
      ClusterOfExact(y[..last], l);
      forall i: nat
        ensures i in ClusterOf(y, l) <==> i < |y| && y[i] == l
      {
        if i < last {
          assert y[..last][i] == y[i];
        }
      }
    }
  }

  /** A cluster is as large as the number of the label's samples. */
  lemma {:induction false} ClusterOfSize(y: seq<nat>, l: nat)
    ensures |ClusterOf(y, l)| == multiset(y)[l]
  {
    if |y| > 0 {
      var last := |y| - 1;
      ClusterOfSize(y[..last], l);
      assert y == y[..last] + [y[last]];
    }
  }

  /** count_per_cluster. */
  function Count(y: seq<nat>, l: nat): nat
  {
    |ClusterOf(y, l)|
  }

  /** The samples available in a list of clusters. */
  function Available(y: seq<nat>, cls: seq<nat>): nat
  {
    if |cls| == 0 then 0 else Count(y, cls[0]) + Available(y, cls[1..])
  }

  /** int(amount * len(y_train)). */
  function Configured(a: real, n: nat): int
  {
    Split.Trunc(Split.Scaled(a, n))
  }

  /** int(amount * len(y_train) * factor). */
  function Resized(a: real, n: nat, f: real): int
  {
    Split.Trunc(Split.Scaled(a, n) * f)
  }

  /** int(x / c) on integers: true division, then truncation. */
  function Quotient(x: int, c: nat): int
    requires c > 0
  {
    Split.Trunc(x as real / c as real)
  }

  /** The specific loop's ratios, in rank order: samples available in the partner's
      clusters over samples configured for it. */
  function SpecificRatios(ms: seq<Member>, amounts: seq<real>, y: seq<nat>): (r: Result<seq<real>, AdvancedError>)
    ensures r.Success? ==> |r.value| == |ms|
  {
    if |ms| == 0 then Success([])
    else if ms[0].id >= |amounts| then Failure(MissingAmount)
    else
      var configured := Configured(amounts[ms[0].id], |y|);
      if configured == 0 then Failure(ZeroDivision)
      else
        match SpecificRatios(ms[1..], amounts, y)
        case Failure(e) => Failure(e)
        case Success(rest) => Success([Available(y, ms[0].clusters) as real / configured as real] + rest)
  }

  /** The ratios exist exactly when every specific partner has an amount whose
      configured size is not 0, and ratio i is partner i's available over configured. */
  lemma {:induction false} SpecificRatiosAt(ms: seq<Member>, amounts: seq<real>, y: seq<nat>)
    ensures SpecificRatios(ms, amounts, y).Success? <==>
      forall i :: 0 <= i < |ms| ==> ms[i].id < |amounts| && Configured(amounts[ms[i].id], |y|) != 0
    ensures SpecificRatios(ms, amounts, y).Success? ==>
      forall i :: 0 <= i < |ms| ==>
        SpecificRatios(ms, amounts, y).value[i] ==
          Available(y, ms[i].clusters) as real / Configured(amounts[ms[i].id], |y|) as real
  {
    if |ms| > 0 {
      SpecificRatiosAt(ms[1..], amounts, y);
      assert forall i :: 1 <= i < |ms| ==> ms[1..][i - 1] == ms[i];
    }
  }

  /** min(start, r0, r1, ...) as a loop of min from start computes it. */
  function MinFold(start: real, rs: seq<real>): real
    decreases |rs|
  {
    if |rs| == 0 then start else MinFold(Min(start, rs[0]), rs[1..])
  }

  /** The fold is at most its start and every ratio, and is one of them. */
  lemma {:induction false} MinFoldLeast(start: real, rs: seq<real>)
    decreases |rs|
    ensures MinFold(start, rs) <= start
    ensures forall i :: 0 <= i < |rs| ==> MinFold(start, rs) <= rs[i]
    ensures MinFold(start, rs) == start || exists i :: 0 <= i < |rs| && MinFold(start, rs) == rs[i]
  {
    if |rs| > 0 {
      MinFoldLeast(Min(start, rs[0]), rs[1..]);
      assert forall i :: 1 <= i < |rs| ==> rs[1..][i - 1] == rs[i];
      if MinFold(start, rs) != Min(start, rs[0]) {
        var i :| 0 <= i < |rs[1..]| && MinFold(start, rs) == rs[1..][i];
        assert MinFold(start, rs) == rs[i + 1];
      }
    }
  }

  /** Each shared partner's samples per cluster before the shared resize, in rank
      order: its configured amount shrunk by the specific factor, divided by its
      cluster count. */
  function SharedPers(ms: seq<Member>, amounts: seq<real>, n: nat, rs: real): (r: Result<seq<int>, AdvancedError>)
    ensures r.Success? ==> |r.value| == |ms|
  {
    if |ms| == 0 then Success([])
    else if ms[0].id >= |amounts| then Failure(MissingAmount)
    else if ms[0].count == 0 then Failure(ZeroDivision)
    else
      match SharedPers(ms[1..], amounts, n, rs)
      case Failure(e) => Failure(e)
      case Success(rest) => Success([Quotient(Resized(amounts[ms[0].id], n, rs), ms[0].count)] + rest)
  }

  /** A dictionary entry, 0 for a key not present (the source starts every key of
      the pool at 0 and only touches keys of the pool). */
  function Get(m: map<nat, int>, k: nat): int
  {
    if k in m then m[k] else 0
  }

  /** for cl in clusters: m[cl] += per. */
  function Bump(m: map<nat, int>, cls: seq<nat>, per: int): map<nat, int>
    decreases |cls|
  {
    if |cls| == 0 then m else Bump(m[cls[0] := Get(m, cls[0]) + per], cls[1..], per)
  }

  /** Bumping a repeat-free list adds per to its clusters' entries and nothing else. */
  lemma {:induction false} BumpGet(m: map<nat, int>, cls: seq<nat>, per: int)
    requires NoDup(cls)
    decreases |cls|
    ensures forall k :: Get(Bump(m, cls, per), k) == Get(m, k) + (if k in cls then per else 0)
  {
    if |cls| > 0 {
      var m' := m[cls[0] := Get(m, cls[0]) + per];
      BumpGet(m', cls[1..], per);
      assert forall k :: k in cls <==> k == cls[0] || k in cls[1..];
      assert cls[0] !in cls[1..];
    }
  }

  /** The bumps of several partners, in order. */
  function Tally(cls: seq<seq<nat>>, pers: seq<int>, m: map<nat, int>): map<nat, int>
    requires |cls| == |pers|
  {
    if |cls| == 0 then m
    else
      var last := |cls| - 1;
      Bump(Tally(cls[..last], pers[..last], m), cls[last], pers[last])
  }

  /** The amount of the partners whose clusters include k. */
  function Share(cls: seq<seq<nat>>, pers: seq<int>, k: nat): int
    requires |cls| == |pers|
  {
    if |cls| == 0 then 0
    else
      var last := |cls| - 1;
      Share(cls[..last], pers[..last], k) + (if k in cls[last] then pers[last] else 0)
  }

  /** The running tally of a cluster is the amount of every partner listing it. */
  lemma {:induction false} TallyGet(cls: seq<seq<nat>>, pers: seq<int>, m: map<nat, int>, k: nat)
    requires |cls| == |pers|
    requires forall i :: 0 <= i < |cls| ==> NoDup(cls[i])
    ensures Get(Tally(cls, pers, m), k) == Get(m, k) + Share(cls, pers, k)
  {
    if |cls| > 0 {
      var last := |cls| - 1;
      TallyGet(cls[..last], pers[..last], m, k);
      BumpGet(Tally(cls[..last], pers[..last], m), cls[last], pers[last]);
    }
  }

  /** With non-negative amounts a longer prefix of partners shares at least as much. */
  lemma {:induction false} ShareGrows(cls: seq<seq<nat>>, pers: seq<int>, k: nat, j: nat, l: nat)
    requires |cls| == |pers| && j <= l <= |cls|
    requires forall i :: 0 <= i < |pers| ==> pers[i] >= 0
    ensures Share(cls[..j], pers[..j], k) <= Share(cls[..l], pers[..l], k)
  {
    if j < l {
      ShareGrows(cls, pers, k, j, l - 1);
      assert cls[..l][..l - 1] == cls[..l - 1] && pers[..l][..l - 1] == pers[..l - 1];
    }
  }

  /** The cluster lists of some partners. */
  function ClusterLists(ms: seq<Member>): (cls: seq<seq<nat>>)
    ensures |cls| == |ms|
  {
    seq(|ms|, i requires 0 <= i < |ms| => ms[i].clusters)
  }

  /** The shared loop's ratios, over the pool: samples in the cluster over samples
      the shared partners need from it. */
  function SharedRatios(pool: seq<nat>, needed: map<nat, int>, y: seq<nat>): (r: Result<seq<real>, AdvancedError>)
    ensures r.Success? ==> |r.value| == |pool|
  {
    if |pool| == 0 then Success([])
    else if Get(needed, pool[0]) == 0 then Failure(ZeroDivision)
    else
      match SharedRatios(pool[1..], needed, y)
      case Failure(e) => Failure(e)
      case Success(rest) => Success([Count(y, pool[0]) as real / Get(needed, pool[0]) as real] + rest)
  }

  /** The ratios exist exactly when every pool cluster is needed by some amount other
      than 0, and ratio i is cluster i's samples over its need. */
  lemma {:induction false} SharedRatiosAt(pool: seq<nat>, needed: map<nat, int>, y: seq<nat>)
    ensures SharedRatios(pool, needed, y).Success? <==> forall i :: 0 <= i < |pool| ==> Get(needed, pool[i]) != 0
    ensures SharedRatios(pool, needed, y).Success? ==>
      forall i :: 0 <= i < |pool| ==>
        SharedRatios(pool, needed, y).value[i] == Count(y, pool[i]) as real / Get(needed, pool[i]) as real
  {
    if |pool| > 0 {
      SharedRatiosAt(pool[1..], needed, y);
      assert forall i :: 1 <= i < |pool| ==> pool[1..][i - 1] == pool[i];
    }
  }

  /** The shared partners' need per cluster of the pool, given the specific factor. */
  function Needs(a: Assignment, amounts: seq<real>, n: nat, rs: real): Result<map<nat, int>, AdvancedError>
  {
    match SharedPers(a.shared, amounts, n, rs)
    case Failure(e) => Failure(e)
    case Success(pers) => Success(Tally(ClusterLists(a.shared), pers, map[]))
  }

  /** The two resize factors. */
  datatype Factors = Factors(specific: real, shared: real)

  /** final_resize_factor. */
  function Final(f: Factors): real
  {
    f.specific * f.shared
  }

  /** Both resize factors, each a min over ratios starting from 1. */
  function Resize(a: Assignment, amounts: seq<real>, y: seq<nat>): Result<Factors, AdvancedError>
  {
    match SpecificRatios(a.specific, amounts, y)
    case Failure(e) => Failure(e)
    case Success(ratios) =>
      var rs := MinFold(1.0, ratios);
      match Needs(a, amounts, |y|, rs)
      case Failure(e) => Failure(e)
      case Success(needed) =>
        match SharedRatios(a.pool, needed, y)
        case Failure(e) => Failure(e)
        case Success(shares) => Success(Factors(rs, MinFold(1.0, shares)))
  }

  /** The specific factor is at most 1 and at most every specific partner's ratio of
      available to configured samples. */
  lemma {:induction false} ResizeSpecificLeast(a: Assignment, amounts: seq<real>, y: seq<nat>)
    requires Resize(a, amounts, y).Success?
    ensures var rs := Resize(a, amounts, y).value.specific;
      && rs <= 1.0
      && forall i :: 0 <= i < |a.specific| ==>
        a.specific[i].id < |amounts| && Configured(amounts[a.specific[i].id], |y|) != 0 &&
        rs <= Available(y, a.specific[i].clusters) as real / Configured(amounts[a.specific[i].id], |y|) as real
  {
    SpecificRatiosAt(a.specific, amounts, y);
    MinFoldLeast(1.0, SpecificRatios(a.specific, amounts, y).value);
  }

  /** The shared factor is at most 1 and at most every pool cluster's ratio of
      samples to need. */
  lemma {:induction false} ResizeSharedLeast(a: Assignment, amounts: seq<real>, y: seq<nat>)
    requires Resize(a, amounts, y).Success?
    ensures var f := Resize(a, amounts, y).value;
      && f.shared <= 1.0
      && Needs(a, amounts, |y|, f.specific).Success?
      && forall i :: 0 <= i < |a.pool| ==>
        var need := Get(Needs(a, amounts, |y|, f.specific).value, a.pool[i]);
        need != 0 && f.shared <= Count(y, a.pool[i]) as real / need as real
  {
    var f := Resize(a, amounts, y).value;
    var needed := Needs(a, amounts, |y|, f.specific).value;
    SharedRatiosAt(a.pool, needed, y);
    MinFoldLeast(1.0, SharedRatios(a.pool, needed, y).value);
  }

  /** What a cluster is needed for is the sum of the per-cluster amounts of the shared
      partners that sampled it, when no partner sampled a cluster twice. */
  lemma {:induction false} NeedsShare(a: Assignment, amounts: seq<real>, n: nat, rs: real, k: nat)
    requires Needs(a, amounts, n, rs).Success?
    requires forall i :: 0 <= i < |a.shared| ==> NoDup(a.shared[i].clusters)
    ensures |SharedPers(a.shared, amounts, n, rs).value| == |a.shared|
    ensures Get(Needs(a, amounts, n, rs).value, k) ==
      Share(ClusterLists(a.shared), SharedPers(a.shared, amounts, n, rs).value, k)
  {
    TallyGet(ClusterLists(a.shared), SharedPers(a.shared, amounts, n, rs).value, map[], k);
  }

  /** Tally entries only grow when every amount is non-negative. */
  lemma {:induction false} BumpGrows(m: map<nat, int>, cls: seq<nat>, per: int)
    requires per >= 0
    decreases |cls|
    ensures forall k :: Get(Bump(m, cls, per), k) >= Get(m, k)
  {
    if |cls| > 0 {
      BumpGrows(m[cls[0] := Get(m, cls[0]) + per], cls[1..], per);
    }
  }

  lemma {:induction false} TallyGrows(cls: seq<seq<nat>>, pers: seq<int>, m: map<nat, int>)
    requires |cls| == |pers|
    requires forall i :: 0 <= i < |pers| ==> pers[i] >= 0
    ensures forall k :: Get(Tally(cls, pers, m), k) >= Get(m, k)
  {
    if |cls| > 0 {
      var last := |cls| - 1;
      TallyGrows(cls[..last], pers[..last], m);
      BumpGrows(Tally(cls[..last], pers[..last], m), cls[last], pers[last]);
    }
  }

  /** A non-negative amount shrunk by a factor between 0 and 1 is a size between 0
      and the configured size. */
  lemma {:induction false} ResizedBounds(x: real, n: nat, f: real)
    requires x >= 0.0 && 0.0 <= f <= 1.0
    ensures 0 <= Resized(x, n, f) <= Configured(x, n)
  {
    var s := Split.Scaled(x, n);
    Split.ScaleMonotone(0.0, x, n);
    assert s - s * f == s * (1.0 - f);
    Split.TruncMonotone(s * f, s);
  }

  lemma {:induction false} QuotientNonNegative(x: int, c: nat)
    requires x >= 0 && c > 0
    ensures Quotient(x, c) >= 0
  {
    Split.TruncBounds(x as real / c as real);
  }

  /** Non-negative amounts with a non-negative factor give non-negative per-cluster
      amounts. */
  lemma {:induction false} SharedPersNonNegative(ms: seq<Member>, amounts: seq<real>, n: nat, rs: real)
    requires SharedPers(ms, amounts, n, rs).Success?
    requires forall i :: 0 <= i < |amounts| ==> amounts[i] >= 0.0
    requires 0.0 <= rs <= 1.0
    ensures forall i :: 0 <= i < |ms| ==> SharedPers(ms, amounts, n, rs).value[i] >= 0
  {
    if |ms| > 0 {
      SharedPersNonNegative(ms[1..], amounts, n, rs);
      ResizedBounds(amounts[ms[0].id], n, rs);
      QuotientNonNegative(Resized(amounts[ms[0].id], n, rs), ms[0].count);
    }
  }

  /** A fold of min from 1 over non-negative ratios lies between 0 and 1. */
  lemma {:induction false} MinFoldUnit(rs: seq<real>)
    requires forall i :: 0 <= i < |rs| ==> rs[i] >= 0.0
    ensures 0.0 <= MinFold(1.0, rs) <= 1.0
  {
    MinFoldLeast(1.0, rs);
  }

  /** With non-negative amounts every specific ratio is non-negative. */
  lemma {:induction false} SpecificRatiosNonNegative(ms: seq<Member>, amounts: seq<real>, y: seq<nat>)
    requires SpecificRatios(ms, amounts, y).Success?
    requires forall i :: 0 <= i < |amounts| ==> amounts[i] >= 0.0
    ensures forall i :: 0 <= i < |ms| ==> SpecificRatios(ms, amounts, y).value[i] >= 0.0
  {
    SpecificRatiosAt(ms, amounts, y);
    forall i | 0 <= i < |ms|
      ensures Configured(amounts[ms[i].id], |y|) > 0
    {
      Split.ScaleMonotone(0.0, amounts[ms[i].id], |y|);
      Split.TruncBounds(Split.Scaled(amounts[ms[i].id], |y|));
    }
  }

  /** With non-negative amounts and specific factor, no cluster's need is negative. */
  lemma {:induction false} NeedsNonNegative(a: Assignment, amounts: seq<real>, n: nat, rs: real)
    requires Needs(a, amounts, n, rs).Success?
    requires forall i :: 0 <= i < |amounts| ==> amounts[i] >= 0.0
    requires 0.0 <= rs <= 1.0
    ensures forall k :: Get(Needs(a, amounts, n, rs).value, k) >= 0
  {
    var pers := SharedPers(a.shared, amounts, n, rs).value;
    SharedPersNonNegative(a.shared, amounts, n, rs);
    TallyGrows(ClusterLists(a.shared), pers, map[]);
  }

  /** Ratios over needs that are not negative are not negative. */
  lemma {:induction false} SharedRatiosNonNegative(pool: seq<nat>, needed: map<nat, int>, y: seq<nat>)
    requires SharedRatios(pool, needed, y).Success?
    requires forall k :: Get(needed, k) >= 0
    ensures forall i :: 0 <= i < |pool| ==> SharedRatios(pool, needed, y).value[i] >= 0.0
  {
    SharedRatiosAt(pool, needed, y);
  }

  /** With non-negative amounts both resize factors lie between 0 and 1. */
  lemma {:induction false} ResizeUnit(a: Assignment, amounts: seq<real>, y: seq<nat>)
    requires Resize(a, amounts, y).Success?
    requires forall i :: 0 <= i < |amounts| ==> amounts[i] >= 0.0
    ensures var f := Resize(a, amounts, y).value;
      0.0 <= f.specific <= 1.0 && 0.0 <= f.shared <= 1.0
  {
    var ratios := SpecificRatios(a.specific, amounts, y).value;
    SpecificRatiosNonNegative(a.specific, amounts, y);
    MinFoldUnit(ratios);
    var rs := MinFold(1.0, ratios);
    var needed := Needs(a, amounts, |y|, rs).value;
    NeedsNonNegative(a, amounts, |y|, rs);
    SharedRatiosNonNegative(a.pool, needed, y);
    MinFoldUnit(SharedRatios(a.pool, needed, y).value);
  }

  // Sizing and the windows of the clusters

  /** A partner's final sizes: its samples in all and per cluster. */
  datatype Size = Size(total: int, perCluster: int)

  /** The sizing loop from partner k on: each partner's configured amount shrunk by the
      final factor, then divided by its cluster count. */
  function Sizes(specs: seq<Scenario.ClusterSpec>, amounts: seq<real>, n: nat, f: real, k: nat): (r: Result<seq<Size>, AdvancedError>)
    requires k <= |specs|
    ensures r.Success? ==> |r.value| == |specs| - k
    decreases |specs| - k
  {
    if k == |specs| then Success([])
    else if k >= |amounts| then Failure(MissingAmount)
    else if specs[k].count == 0 then Failure(ZeroDivision)
    else
      var total := Resized(amounts[k], n, f);
      match Sizes(specs, amounts, n, f, k + 1)
      case Failure(e) => Failure(e)
      case Success(rest) => Success([Size(total, Quotient(total, specs[k].count))] + rest)
  }

  /** Sizing from partner k on succeeds exactly when there is an amount for every
      partner and each asks for at least one cluster. */
  lemma {:induction false} SizesAccept(specs: seq<Scenario.ClusterSpec>, amounts: seq<real>, n: nat, f: real, k: nat)
    requires k <= |specs|
    decreases |specs| - k
    ensures Sizes(specs, amounts, n, f, k).Success? <==>
      (k == |specs| || |specs| <= |amounts|) && forall i :: k <= i < |specs| ==> specs[i].count > 0
  {
    if k < |specs| {
      SizesAccept(specs, amounts, n, f, k + 1);
    }
  }

  /** With non-negative amounts and a factor between 0 and 1, each partner's total
      lies between 0 and its configured size, and its per-cluster amount is
      non-negative. */
  lemma {:induction false} SizesBounds(specs: seq<Scenario.ClusterSpec>, amounts: seq<real>, n: nat, f: real, k: nat)
    requires k <= |specs|
    requires forall i :: 0 <= i < |amounts| ==> amounts[i] >= 0.0
    requires 0.0 <= f <= 1.0
    requires Sizes(specs, amounts, n, f, k).Success?
    decreases |specs| - k
    ensures k < |specs| ==> |specs| <= |amounts|
    ensures forall j :: 0 <= j < |specs| - k ==>
      0 <= Sizes(specs, amounts, n, f, k).value[j].total <= Configured(amounts[k + j], n) &&
      Sizes(specs, amounts, n, f, k).value[j].perCluster >= 0
  {
    if k < |specs| {
      var rest := Sizes(specs, amounts, n, f, k + 1).value;
      SizesAccept(specs, amounts, n, f, k);
      SizesBounds(specs, amounts, n, f, k + 1);
      ResizedBounds(amounts[k], n, f);
      QuotientNonNegative(Resized(amounts[k], n, f), specs[k].count);
      var total := Resized(amounts[k], n, f);
      assert Sizes(specs, amounts, n, f, k).value == [Size(total, Quotient(total, specs[k].count))] + rest;
    }
  }

  /** nb_samples_used. */
  function Used(sizes: seq<Size>): int
  {
    if |sizes| == 0 then 0 else sizes[0].total + Used(sizes[1..])
  }

  /** The clusters recorded for a partner id: the first member with that id. */
  function Find(ms: seq<Member>, id: nat): seq<nat>
  {
    if |ms| == 0 then [] else if ms[0].id == id then ms[0].clusters else Find(ms[1..], id)
  }

  /** A lookup finds nothing or the clusters of some member with the id. */
  lemma {:induction false} FindSome(ms: seq<Member>, id: nat)
    ensures Find(ms, id) == [] || exists i :: 0 <= i < |ms| && ms[i].id == id && Find(ms, id) == ms[i].clusters
  {
    if |ms| > 0 && ms[0].id != id {
      FindSome(ms[1..], id);
      if Find(ms, id) != [] {
        var i :| 0 <= i < |ms[1..]| && ms[1..][i].id == id && Find(ms, id) == ms[1..][i].clusters;
        assert ms[i + 1] == ms[1..][i];
      }
    }
  }

  /** clusters_list of the partner with this id. */
  function ClustersOfId(a: Assignment, id: nat): seq<nat>
  {
    Find(a.specific + a.shared, id)
  }

  /** A cluster window: positions lo .. hi of one cluster. */
  datatype Window = Window(cluster: nat, lo: int, hi: int)

  /** A shared partner's windows, cluster by cluster: each starts at the cluster's
      running index, which then advances by per. */
  function SharedWindows(m: map<nat, int>, cls: seq<nat>, per: int): (r: seq<Window>)
    ensures |r| == |cls|
    decreases |cls|
  {
    if |cls| == 0 then []
    else [Window(cls[0], Get(m, cls[0]), Get(m, cls[0]) + per)] + SharedWindows(m[cls[0] := Get(m, cls[0]) + per], cls[1..], per)
  }

  /** With no cluster listed twice, window j starts at cluster j's index on entry. */
  lemma {:induction false} SharedWindowsAt(m: map<nat, int>, cls: seq<nat>, per: int)
    requires NoDup(cls)
    decreases |cls|
    ensures forall j :: 0 <= j < |cls| ==>
      SharedWindows(m, cls, per)[j] == Window(cls[j], Get(m, cls[j]), Get(m, cls[j]) + per)
  {
    if |cls| > 0 {
      SharedWindowsAt(m[cls[0] := Get(m, cls[0]) + per], cls[1..], per);
      assert forall j :: 1 <= j < |cls| ==> cls[1..][j - 1] == cls[j] && cls[j] != cls[0];
    }
  }

  /** Every partner's cluster list in id order, empty for a partner that is not
      shared: the index advances only on shared partners' clusters. */
  function SharedLists(specs: seq<Scenario.ClusterSpec>, a: Assignment): (ls: seq<seq<nat>>)
    ensures |ls| == |specs|
  {
    seq(|specs|, b requires 0 <= b < |specs| => if specs[b].option == "shared" then ClustersOfId(a, b) else [])
  }

  function PerCluster(sizes: seq<Size>): (ps: seq<int>)
    ensures |ps| == |sizes|
  {
    seq(|sizes|, b requires 0 <= b < |sizes| => sizes[b].perCluster)
  }

  /** shared_clusters_index when partner b's turn comes. */
  function IndexBefore(specs: seq<Scenario.ClusterSpec>, a: Assignment, sizes: seq<Size>, b: nat): map<nat, int>
    requires |sizes| == |specs| && b <= |specs|
  {
    Tally(SharedLists(specs, a)[..b], PerCluster(sizes)[..b], map[])
  }

  /** The windows partner b takes: consecutive windows of the shared clusters, or the
      first per samples of each specific cluster, or none. */
  function WindowsOf(specs: seq<Scenario.ClusterSpec>, a: Assignment, sizes: seq<Size>, b: nat): seq<Window>
    requires |sizes| == |specs| && b < |specs|
  {
    var cls := ClustersOfId(a, b);
    var per := sizes[b].perCluster;
    if specs[b].option == "shared" then SharedWindows(IndexBefore(specs, a, sizes, b), cls, per)
    else if specs[b].option == "specific" then seq(|cls|, j requires 0 <= j < |cls| => Window(cls[j], 0, per))
    else []
  }

  /** np.concatenate of a partner's windows of its clusters. */
  function SamplesOf(y: seq<nat>, ws: seq<Window>): seq<nat>
  {
    Split.Flatten(seq(|ws|, j requires 0 <= j < |ws| => Split.PySlice(ClusterOf(y, ws[j].cluster), ws[j].lo, ws[j].hi)))
  }

  /** The fewest samples any partner holds. */
  function Fewest(ss: seq<seq<nat>>): (m: nat)
    requires |ss| > 0
    ensures forall i :: 0 <= i < |ss| ==> m <= |ss[i]|
  {
    if |ss| == 1 then |ss[0]|
    else
      var t := Fewest(ss[1..]);
      assert forall i :: 1 <= i < |ss| ==> ss[i] == ss[1..][i - 1];
      if |ss[0]| <= t then |ss[0]| else t
  }

  /** What the split hands each partner. */
  datatype Plan = Plan(assignment: Assignment, factors: Factors, sizes: seq<Size>, used: int,
                       windows: seq<seq<Window>>, samples: seq<seq<nat>>)

  /** The hand-out once every partner is sized: the relative sizes divide by the total
      used, every partner concatenates its windows, and the mini-batch count is
      checked against the smallest partner. */
  function Handout(specs: seq<Scenario.ClusterSpec>, y: seq<nat>, a: Assignment, f: Factors, sizes: seq<Size>,
                   minibatches: int): (r: Result<Plan, AdvancedError>)
    requires |sizes| == |specs|
    ensures r.Success? ==> |r.value.windows| == |specs| && |r.value.samples| == |specs| && r.value.sizes == sizes
  {
    var used := Used(sizes);
    if |specs| > 0 && used == 0 then Failure(ZeroDivision)
    else
      var windows := seq(|specs|, b requires 0 <= b < |specs| => WindowsOf(specs, a, sizes, b));
      if exists b :: 0 <= b < |specs| && |windows[b]| == 0 then Failure(EmptyPartner)
      else
        var samples := seq(|specs|, b requires 0 <= b < |specs| => SamplesOf(y, windows[b]));
        if |specs| == 0 then Failure(NoPartners)
        else if minibatches > Fewest(samples) then Failure(TooManyMinibatches)
        else Success(Plan(a, f, sizes, used, windows, samples))
  }

  /** Everything after the assignment: the resize factors, the sizes, the hand-out. */
  function Distribute(specs: seq<Scenario.ClusterSpec>, amounts: seq<real>, y: seq<nat>, a: Assignment,
                      minibatches: int): (r: Result<Plan, AdvancedError>)
    ensures r.Success? ==> |r.value.sizes| == |specs| && |r.value.windows| == |specs| && |r.value.samples| == |specs|
  {
    match Resize(a, amounts, y)
    case Failure(e) => Failure(e)
    case Success(f) => Allocate(specs, amounts, y, a, f, minibatches)
  }

  /** With the resize factors known: size every partner, then hand out the windows. */
  function Allocate(specs: seq<Scenario.ClusterSpec>, amounts: seq<real>, y: seq<nat>, a: Assignment, f: Factors,
                    minibatches: int): (r: Result<Plan, AdvancedError>)
    ensures r.Success? ==> |r.value.sizes| == |specs| && |r.value.windows| == |specs| && |r.value.samples| == |specs|
  {
    match Sizes(specs, amounts, |y|, Final(f), 0)
    case Failure(e) => Failure(e)
    case Success(sizes) => Handout(specs, y, a, f, sizes, minibatches)
  }

  /** split_data_advanced: assign the clusters, compute the resize factors, size every
      partner, hand out the windows, then check the mini-batch count against the
      smallest partner. */
  function AdvancedSplit(specs: seq<Scenario.ClusterSpec>, amounts: seq<real>, y: seq<nat>, labels: seq<nat>,
                         draws: seq<seq<nat>>, minibatches: int): (r: Result<Plan, AdvancedError>)
    requires DrawsFit(specs, draws)
    ensures r.Success? ==>
      |r.value.sizes| == |specs| && |r.value.windows| == |specs| && |r.value.samples| == |specs|
  {
    match Assign(specs, labels, draws)
    case Failure(e) => Failure(e)
    case Success(a) => Distribute(specs, amounts, y, a, minibatches)
  }

  // What a successful split guarantees

  /** A successful split has partners, each with at least one window, and no fewer
      samples than there are mini-batches. */
  lemma {:induction false} AdvancedMinibatches(specs: seq<Scenario.ClusterSpec>, amounts: seq<real>, y: seq<nat>, labels: seq<nat>,
                            draws: seq<seq<nat>>, minibatches: int)
    requires DrawsFit(specs, draws)
    requires AdvancedSplit(specs, amounts, y, labels, draws, minibatches).Success?
    ensures var plan := AdvancedSplit(specs, amounts, y, labels, draws, minibatches).value;
      && |specs| > 0
      && forall b :: 0 <= b < |specs| ==> |plan.windows[b]| > 0 && minibatches <= |plan.samples[b]|
  {
    AdvancedStages(specs, amounts, y, labels, draws, minibatches);
    var a := Assign(specs, labels, draws).value;
    DistributeStages(specs, amounts, y, a, minibatches);
  }

  /** A successful split succeeded at each stage. */
  lemma {:induction false} AdvancedStages(specs: seq<Scenario.ClusterSpec>, amounts: seq<real>, y: seq<nat>, labels: seq<nat>,
                       draws: seq<seq<nat>>, minibatches: int)
    requires DrawsFit(specs, draws)
    requires AdvancedSplit(specs, amounts, y, labels, draws, minibatches).Success?
    ensures Assign(specs, labels, draws).Success?
    ensures AdvancedSplit(specs, amounts, y, labels, draws, minibatches) ==
      Distribute(specs, amounts, y, Assign(specs, labels, draws).value, minibatches)
  {
  }

  lemma {:induction false} DistributeStages(specs: seq<Scenario.ClusterSpec>, amounts: seq<real>, y: seq<nat>, a: Assignment, minibatches: int)
    requires Distribute(specs, amounts, y, a, minibatches).Success?
    ensures Resize(a, amounts, y).Success?
    ensures var f := Resize(a, amounts, y).value;
      && Sizes(specs, amounts, |y|, Final(f), 0).Success?
      && Distribute(specs, amounts, y, a, minibatches) ==
        Handout(specs, y, a, f, Sizes(specs, amounts, |y|, Final(f), 0).value, minibatches)
  {
  }

  lemma {:induction false} HandoutStages(specs: seq<Scenario.ClusterSpec>, y: seq<nat>, a: Assignment, f: Factors, sizes: seq<Size>, minibatches: int)
    requires |sizes| == |specs|
    requires Handout(specs, y, a, f, sizes, minibatches).Success?
    ensures var plan := Handout(specs, y, a, f, sizes, minibatches).value;
      && plan.assignment == a && plan.factors == f
      && forall b :: 0 <= b < |specs| ==>
        plan.windows[b] == WindowsOf(specs, a, sizes, b) && plan.samples[b] == SamplesOf(y, plan.windows[b])
  {
  }

  lemma {:induction false} UnitProduct(x: real, z: real)
    requires 0.0 <= x <= 1.0 && 0.0 <= z <= 1.0
    ensures 0.0 <= x * z <= 1.0
  {
    if x != 0.0 && z != 0.0 {
      assert x * z <= 1.0 * z by {
        assert (1.0 - x) * z > 0.0 || x == 1.0;
      }
    }
  }

  /** With non-negative amounts the final factor lies between 0 and 1 too. */
  lemma {:induction false} FinalUnit(a: Assignment, amounts: seq<real>, y: seq<nat>)
    requires Resize(a, amounts, y).Success?
    requires forall i :: 0 <= i < |amounts| ==> amounts[i] >= 0.0
    ensures var f := Resize(a, amounts, y).value;
      0.0 <= f.specific <= 1.0 && 0.0 <= f.shared <= 1.0 && 0.0 <= Final(f) <= 1.0
  {
    var f := Resize(a, amounts, y).value;
    ResizeUnit(a, amounts, y);
    UnitProduct(f.specific, f.shared);
  }

  /** With non-negative amounts, both factors lie between 0 and 1 and every partner
      ends with between 0 and its configured number of samples, and a non-negative
      number per cluster: resizing only shrinks. */
  lemma {:induction false} DistributeShrinks(specs: seq<Scenario.ClusterSpec>, amounts: seq<real>, y: seq<nat>, a: Assignment, minibatches: int)
    requires forall i :: 0 <= i < |amounts| ==> amounts[i] >= 0.0
    requires Distribute(specs, amounts, y, a, minibatches).Success?
    ensures var plan := Distribute(specs, amounts, y, a, minibatches).value;
      && 0.0 <= plan.factors.specific <= 1.0
      && 0.0 <= plan.factors.shared <= 1.0
      && |specs| <= |amounts|
      && forall b :: 0 <= b < |specs| ==>
        0 <= plan.sizes[b].total <= Configured(amounts[b], |y|) && plan.sizes[b].perCluster >= 0
  {
    DistributeStages(specs, amounts, y, a, minibatches);
    var f := Resize(a, amounts, y).value;
    var sizes := Sizes(specs, amounts, |y|, Final(f), 0).value;
    HandoutStages(specs, y, a, f, sizes, minibatches);
    FinalUnit(a, amounts, y);
    SizesAccept(specs, amounts, |y|, Final(f), 0);
    SizesBounds(specs, amounts, |y|, Final(f), 0);
  }

  lemma {:induction false} AdvancedShrinks(specs: seq<Scenario.ClusterSpec>, amounts: seq<real>, y: seq<nat>, labels: seq<nat>,
                        draws: seq<seq<nat>>, minibatches: int)
    requires DrawsFit(specs, draws)
    requires forall i :: 0 <= i < |amounts| ==> amounts[i] >= 0.0
    requires AdvancedSplit(specs, amounts, y, labels, draws, minibatches).Success?
    ensures var plan := AdvancedSplit(specs, amounts, y, labels, draws, minibatches).value;
      && 0.0 <= plan.factors.specific <= 1.0
      && 0.0 <= plan.factors.shared <= 1.0
      && |specs| <= |amounts|
      && forall b :: 0 <= b < |specs| ==>
        0 <= plan.sizes[b].total <= Configured(amounts[b], |y|) && plan.sizes[b].perCluster >= 0
  {
    AdvancedStages(specs, amounts, y, labels, draws, minibatches);
    DistributeShrinks(specs, amounts, y, Assign(specs, labels, draws).value, minibatches);
  }

  /** The shared cluster lists of the partners before b, with b's added. */
  lemma {:induction false} ShareStep(cls: seq<seq<nat>>, pers: seq<int>, k: nat, b: nat)
    requires |cls| == |pers| && b < |cls|
    ensures Share(cls[..b + 1], pers[..b + 1], k) ==
      Share(cls[..b], pers[..b], k) + (if k in cls[b] then pers[b] else 0)
  {
    assert cls[..b + 1][..b] == cls[..b] && pers[..b + 1][..b] == pers[..b];
  }

  /** A shared partner's window of a cluster starts where the per-cluster amounts of
      the shared partners before it that list the cluster add up to, and is its own
      per-cluster amount long. */
  lemma {:induction false} WindowsShared(specs: seq<Scenario.ClusterSpec>, a: Assignment, sizes: seq<Size>, b: nat)
    requires |sizes| == |specs| && b < |specs| && specs[b].option == "shared"
    requires forall c :: 0 <= c < |specs| ==> NoDup(SharedLists(specs, a)[c])
    ensures var cls := ClustersOfId(a, b);
      |WindowsOf(specs, a, sizes, b)| == |cls| &&
      forall j :: 0 <= j < |cls| ==>
        WindowsOf(specs, a, sizes, b)[j] ==
          Window(cls[j], Share(SharedLists(specs, a)[..b], PerCluster(sizes)[..b], cls[j]),
                 Share(SharedLists(specs, a)[..b], PerCluster(sizes)[..b], cls[j]) + sizes[b].perCluster)
  {
    var ls := SharedLists(specs, a);
    var cls := ClustersOfId(a, b);
    assert cls == ls[b];
    SharedWindowsAt(IndexBefore(specs, a, sizes, b), cls, sizes[b].perCluster);
    forall j | 0 <= j < |cls|
      ensures Get(IndexBefore(specs, a, sizes, b), cls[j]) == Share(ls[..b], PerCluster(sizes)[..b], cls[j])
    {
      TallyGet(ls[..b], PerCluster(sizes)[..b], map[], cls[j]);
    }
  }

  /** With non-negative per-cluster amounts, two shared partners' windows of the same
      cluster do not overlap: the earlier partner's window ends before the later one's
      starts. */
  lemma {:induction false} WindowsApart(specs: seq<Scenario.ClusterSpec>, a: Assignment, sizes: seq<Size>, b1: nat, b2: nat, i: nat, j: nat)
    requires |sizes| == |specs| && b1 < b2 < |specs|
    requires specs[b1].option == "shared" && specs[b2].option == "shared"
    requires forall c :: 0 <= c < |specs| ==> NoDup(SharedLists(specs, a)[c])
    requires forall c :: 0 <= c < |specs| ==> sizes[c].perCluster >= 0
    requires i < |WindowsOf(specs, a, sizes, b1)| && j < |WindowsOf(specs, a, sizes, b2)|
    requires WindowsOf(specs, a, sizes, b1)[i].cluster == WindowsOf(specs, a, sizes, b2)[j].cluster
    ensures WindowsOf(specs, a, sizes, b1)[i].hi <= WindowsOf(specs, a, sizes, b2)[j].lo
  {
    var ls := SharedLists(specs, a);
    var ps := PerCluster(sizes);
    WindowsShared(specs, a, sizes, b1);
    WindowsShared(specs, a, sizes, b2);
    var cl := WindowsOf(specs, a, sizes, b1)[i].cluster;
    assert cl == ls[b1][i] && cl in ls[b1];
    ShareStep(ls, ps, cl, b1);
    ShareGrows(ls, ps, cl, b1 + 1, b2);
  }

  /** The clusters found for a partner of one option belong to a member of that
      option's list. */
  lemma {:induction false} FoundMember(specs: seq<Scenario.ClusterSpec>, labels: seq<nat>, draws: seq<seq<nat>>, b: nat)
    requires DrawsFit(specs, draws) && Assign(specs, labels, draws).Success?
    requires b < |specs|
    ensures var a := Assign(specs, labels, draws).value;
      var cls := ClustersOfId(a, b);
      && (specs[b].option == "shared" && cls != [] ==>
        exists i :: 0 <= i < |a.shared| && a.shared[i].id == b && cls == a.shared[i].clusters)
      && (specs[b].option == "specific" && cls != [] ==>
        exists i :: 0 <= i < |a.specific| && a.specific[i].id == b && cls == a.specific[i].clusters)
      && (specs[b].option != "shared" && specs[b].option != "specific" ==> cls == [])
  {
    var a := Assign(specs, labels, draws).value;
    var ms := a.specific + a.shared;
    FindSome(ms, b);
    if ClustersOfId(a, b) != [] {
      var i :| 0 <= i < |ms| && ms[i].id == b && ClustersOfId(a, b) == ms[i].clusters;
      if i < |a.specific| {
        assert ms[i] == a.specific[i];
        MemberOption(specs, labels, draws, true, i);
      } else {
        assert ms[i] == a.shared[i - |a.specific|];
        MemberOption(specs, labels, draws, false, i - |a.specific|);
      }
    }
  }

  /** Member i of the specific (or shared) list has an id of that option. */
  lemma {:induction false} MemberOption(specs: seq<Scenario.ClusterSpec>, labels: seq<nat>, draws: seq<seq<nat>>, specific: bool, i: nat)
    requires DrawsFit(specs, draws) && Assign(specs, labels, draws).Success?
    requires var a := Assign(specs, labels, draws).value;
      i < if specific then |a.specific| else |a.shared|
    ensures var a := Assign(specs, labels, draws).value;
      var m := if specific then a.specific[i] else a.shared[i];
      m.id < |specs| && specs[m.id].option == if specific then "specific" else "shared"
  {
    var opt := if specific then "specific" else "shared";
    var es := Ranked(specs, opt);
    RankedExact(specs, opt);
    assert es[i] in es;
  }

  /** With repeat-free labels, a shared partner's clusters are repeat-free and come
      from the pool; so no partner's list that advances the index repeats a cluster. */
  lemma {:induction false} SharedListsNoDup(specs: seq<Scenario.ClusterSpec>, labels: seq<nat>, draws: seq<seq<nat>>)
    requires DrawsFit(specs, draws) && NoDup(labels) && Assign(specs, labels, draws).Success?
    ensures var a := Assign(specs, labels, draws).value;
      forall c :: 0 <= c < |specs| ==>
        NoDup(SharedLists(specs, a)[c]) && forall x :: x in SharedLists(specs, a)[c] ==> x in a.pool
  {
    var a := Assign(specs, labels, draws).value;
    AssignShared(specs, labels, draws);
    forall c | 0 <= c < |specs|
      ensures NoDup(SharedLists(specs, a)[c]) && forall x :: x in SharedLists(specs, a)[c] ==> x in a.pool
    {
      FoundMember(specs, labels, draws, c);
    }
  }

  /** With non-negative amounts, two shared partners' windows of one cluster do not
      overlap. */
  lemma {:induction false} DistributeWindowsApart(specs: seq<Scenario.ClusterSpec>, amounts: seq<real>, y: seq<nat>, a: Assignment,
                               minibatches: int, b1: nat, b2: nat, i: nat, j: nat)
    requires forall k :: 0 <= k < |amounts| ==> amounts[k] >= 0.0
    requires forall c :: 0 <= c < |specs| ==> NoDup(SharedLists(specs, a)[c])
    requires Distribute(specs, amounts, y, a, minibatches).Success?
    requires b1 < b2 < |specs| && specs[b1].option == "shared" && specs[b2].option == "shared"
    requires var ws := Distribute(specs, amounts, y, a, minibatches).value.windows;
      i < |ws[b1]| && j < |ws[b2]| && ws[b1][i].cluster == ws[b2][j].cluster
    ensures var ws := Distribute(specs, amounts, y, a, minibatches).value.windows;
      ws[b1][i].hi <= ws[b2][j].lo
  {
    DistributeStages(specs, amounts, y, a, minibatches);
    var f := Resize(a, amounts, y).value;
    var sizes := Sizes(specs, amounts, |y|, Final(f), 0).value;
    HandoutStages(specs, y, a, f, sizes, minibatches);
    DistributeShrinks(specs, amounts, y, a, minibatches);
    WindowsApart(specs, a, sizes, b1, b2, i, j);
  }

  /** A successful split with repeat-free labels and non-negative amounts gives two
      shared partners windows of a common cluster that do not overlap: the earlier
      partner's window ends at or before the later one's start. */
  lemma {:induction false} AdvancedWindowsApart(specs: seq<Scenario.ClusterSpec>, amounts: seq<real>, y: seq<nat>, labels: seq<nat>,
                             draws: seq<seq<nat>>, minibatches: int, b1: nat, b2: nat, i: nat, j: nat)
    requires DrawsFit(specs, draws) && NoDup(labels)
    requires forall k :: 0 <= k < |amounts| ==> amounts[k] >= 0.0
    requires AdvancedSplit(specs, amounts, y, labels, draws, minibatches).Success?
    requires b1 < b2 < |specs| && specs[b1].option == "shared" && specs[b2].option == "shared"
    requires var ws := AdvancedSplit(specs, amounts, y, labels, draws, minibatches).value.windows;
      i < |ws[b1]| && j < |ws[b2]| && ws[b1][i].cluster == ws[b2][j].cluster
    ensures var ws := AdvancedSplit(specs, amounts, y, labels, draws, minibatches).value.windows;
      ws[b1][i].hi <= ws[b2][j].lo
  {
    AdvancedStages(specs, amounts, y, labels, draws, minibatches);
    SharedListsNoDup(specs, labels, draws);
    DistributeWindowsApart(specs, amounts, y, Assign(specs, labels, draws).value, minibatches, b1, b2, i, j);
  }

  /** A shared partner's windows in a successful split: its window of cluster cl
      starts at the sum of the per-cluster amounts of the shared partners before it
      that list cl, and is its own per-cluster amount long. */
  lemma {:induction false} DistributeWindowsTile(specs: seq<Scenario.ClusterSpec>, amounts: seq<real>, y: seq<nat>, a: Assignment,
                              minibatches: int, b: nat)
    requires forall c :: 0 <= c < |specs| ==> NoDup(SharedLists(specs, a)[c])
    requires Distribute(specs, amounts, y, a, minibatches).Success?
    requires b < |specs| && specs[b].option == "shared"
    ensures var plan := Distribute(specs, amounts, y, a, minibatches).value;
      var cls := ClustersOfId(a, b);
      var before := SharedLists(specs, a)[..b];
      |plan.windows[b]| == |cls| &&
      forall j :: 0 <= j < |cls| ==>
        plan.windows[b][j] ==
          Window(cls[j], Share(before, PerCluster(plan.sizes)[..b], cls[j]),
                 Share(before, PerCluster(plan.sizes)[..b], cls[j]) + plan.sizes[b].perCluster)
  {
    DistributeStages(specs, amounts, y, a, minibatches);
    var f := Resize(a, amounts, y).value;
    var sizes := Sizes(specs, amounts, |y|, Final(f), 0).value;
    HandoutStages(specs, y, a, f, sizes, minibatches);
    WindowsShared(specs, a, sizes, b);
  }

  lemma {:induction false} AdvancedWindowsTile(specs: seq<Scenario.ClusterSpec>, amounts: seq<real>, y: seq<nat>, labels: seq<nat>,
                            draws: seq<seq<nat>>, minibatches: int, b: nat)
    requires DrawsFit(specs, draws) && NoDup(labels)
    requires AdvancedSplit(specs, amounts, y, labels, draws, minibatches).Success?
    requires b < |specs| && specs[b].option == "shared"
    ensures var plan := AdvancedSplit(specs, amounts, y, labels, draws, minibatches).value;
      var cls := ClustersOfId(plan.assignment, b);
      var before := SharedLists(specs, plan.assignment)[..b];
      |plan.windows[b]| == |cls| &&
      forall j :: 0 <= j < |cls| ==>
        plan.windows[b][j] ==
          Window(cls[j], Share(before, PerCluster(plan.sizes)[..b], cls[j]),
                 Share(before, PerCluster(plan.sizes)[..b], cls[j]) + plan.sizes[b].perCluster)
  {
    AdvancedStages(specs, amounts, y, labels, draws, minibatches);
    SharedListsNoDup(specs, labels, draws);
    var a := Assign(specs, labels, draws).value;
    DistributeWindowsTile(specs, amounts, y, a, minibatches, b);
    DistributeStages(specs, amounts, y, a, minibatches);
    var f := Resize(a, amounts, y).value;
    HandoutStages(specs, y, a, f, Sizes(specs, amounts, |y|, Final(f), 0).value, minibatches);
  }

  lemma {:induction false} FlattenMember(cs: seq<seq<nat>>, x: nat)
    requires x in Split.Flatten(cs)
    ensures exists j :: 0 <= j < |cs| && x in cs[j]
  {
    if x !in cs[0] {
      FlattenMember(cs[1..], x);
      var j :| 0 <= j < |cs[1..]| && x in cs[1..][j];
      assert cs[j + 1] == cs[1..][j];
    }
  }

  lemma {:induction false} PySliceMember(c: seq<nat>, lo: int, hi: int, x: nat)
    requires x in Split.PySlice(c, lo, hi)
    ensures x in c
  {
  }

  /** Every sample a list of windows yields is a training index whose label is the
      cluster of one of the windows. */
  lemma {:induction false} SamplesLabels(y: seq<nat>, ws: seq<Window>, x: nat)
    requires x in SamplesOf(y, ws)
    ensures x < |y| && exists j :: 0 <= j < |ws| && y[x] == ws[j].cluster
  {
    var pieces := seq(|ws|, j requires 0 <= j < |ws| => Split.PySlice(ClusterOf(y, ws[j].cluster), ws[j].lo, ws[j].hi));
    FlattenMember(pieces, x);
    var j :| 0 <= j < |pieces| && x in pieces[j];
    PySliceMember(ClusterOf(y, ws[j].cluster), ws[j].lo, ws[j].hi, x);
    ClusterOfExact(y, ws[j].cluster);
  }

  lemma {:induction false} SharedWindowsClusters(m: map<nat, int>, cls: seq<nat>, per: int)
    decreases |cls|
    ensures forall j :: 0 <= j < |cls| ==> SharedWindows(m, cls, per)[j].cluster == cls[j]
  {
    if |cls| > 0 {
      SharedWindowsClusters(m[cls[0] := Get(m, cls[0]) + per], cls[1..], per);
    }
  }

  /** Every window of a partner is of one of its clusters. */
  lemma {:induction false} WindowsClusters(specs: seq<Scenario.ClusterSpec>, a: Assignment, sizes: seq<Size>, b: nat)
    requires |sizes| == |specs| && b < |specs|
    ensures forall j :: 0 <= j < |WindowsOf(specs, a, sizes, b)| ==>
      WindowsOf(specs, a, sizes, b)[j].cluster in ClustersOfId(a, b)
  {
    if specs[b].option == "shared" {
      SharedWindowsClusters(IndexBefore(specs, a, sizes, b), ClustersOfId(a, b), sizes[b].perCluster);
    }
  }

  /** A successful split gives each partner only training indices whose labels are
      among the partner's clusters. */
  lemma {:induction false} DistributeSamplesLabels(specs: seq<Scenario.ClusterSpec>, amounts: seq<real>, y: seq<nat>, a: Assignment,
                                minibatches: int, b: nat, x: nat)
    requires Distribute(specs, amounts, y, a, minibatches).Success?
    requires b < |specs| && x in Distribute(specs, amounts, y, a, minibatches).value.samples[b]
    ensures x < |y| && y[x] in ClustersOfId(a, b)
  {
    DistributeStages(specs, amounts, y, a, minibatches);
    var f := Resize(a, amounts, y).value;
    var sizes := Sizes(specs, amounts, |y|, Final(f), 0).value;
    HandoutStages(specs, y, a, f, sizes, minibatches);
    var ws := WindowsOf(specs, a, sizes, b);
    SamplesLabels(y, ws, x);
    WindowsClusters(specs, a, sizes, b);
  }

  lemma {:induction false} AdvancedSamplesLabels(specs: seq<Scenario.ClusterSpec>, amounts: seq<real>, y: seq<nat>, labels: seq<nat>,
                              draws: seq<seq<nat>>, minibatches: int, b: nat, x: nat)
    requires DrawsFit(specs, draws)
    requires AdvancedSplit(specs, amounts, y, labels, draws, minibatches).Success?
    requires b < |specs| && x in AdvancedSplit(specs, amounts, y, labels, draws, minibatches).value.samples[b]
    ensures x < |y| && y[x] in ClustersOfId(Assign(specs, labels, draws).value, b)
  {
    AdvancedStages(specs, amounts, y, labels, draws, minibatches);
    DistributeSamplesLabels(specs, amounts, y, Assign(specs, labels, draws).value, minibatches, b, x);
  }

  /** With repeat-free labels, a specific partner's clusters are shared with no other
      partner. */
  lemma {:induction false} SpecificClustersApart(specs: seq<Scenario.ClusterSpec>, labels: seq<nat>, draws: seq<seq<nat>>, b1: nat, b2: nat, l: nat)
    requires DrawsFit(specs, draws) && NoDup(labels) && Assign(specs, labels, draws).Success?
    requires b1 < |specs| && b2 < |specs| && b1 != b2 && specs[b1].option == "specific"
    requires l in ClustersOfId(Assign(specs, labels, draws).value, b1)
    ensures l !in ClustersOfId(Assign(specs, labels, draws).value, b2)
  {
    var a := Assign(specs, labels, draws).value;
    FoundMember(specs, labels, draws, b1);
    FoundMember(specs, labels, draws, b2);
    AssignDisjoint(specs, labels, draws);
    SharedListsNoDup(specs, labels, draws);
    var i1 :| 0 <= i1 < |a.specific| && a.specific[i1].id == b1 && ClustersOfId(a, b1) == a.specific[i1].clusters;
    if specs[b2].option == "specific" && ClustersOfId(a, b2) != [] {
      var i2 :| 0 <= i2 < |a.specific| && a.specific[i2].id == b2 && ClustersOfId(a, b2) == a.specific[i2].clusters;
      assert i1 != i2;
    } else if specs[b2].option == "shared" {
      assert ClustersOfId(a, b2) == SharedLists(specs, a)[b2];
    }
  }

  /** With repeat-free labels, a specific partner's samples are held by no other
      partner. */
  lemma {:induction false} AdvancedSpecificApart(specs: seq<Scenario.ClusterSpec>, amounts: seq<real>, y: seq<nat>, labels: seq<nat>,
                              draws: seq<seq<nat>>, minibatches: int, b1: nat, b2: nat, x: nat)
    requires DrawsFit(specs, draws) && NoDup(labels)
    requires AdvancedSplit(specs, amounts, y, labels, draws, minibatches).Success?
    requires b1 < |specs| && b2 < |specs| && b1 != b2 && specs[b1].option == "specific"
    requires x in AdvancedSplit(specs, amounts, y, labels, draws, minibatches).value.samples[b1]
    ensures x !in AdvancedSplit(specs, amounts, y, labels, draws, minibatches).value.samples[b2]
  {
    AdvancedSamplesLabels(specs, amounts, y, labels, draws, minibatches, b1, x);
    AdvancedStages(specs, amounts, y, labels, draws, minibatches);
    SpecificClustersApart(specs, labels, draws, b1, b2, y[x]);
    if x in AdvancedSplit(specs, amounts, y, labels, draws, minibatches).value.samples[b2] {
      AdvancedSamplesLabels(specs, amounts, y, labels, draws, minibatches, b2, x);
    }
  }
}
