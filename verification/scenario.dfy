/** Scenario configuration (Scenario.__init__): the defaults filled in for absent
    parameters, the checks on the supplied epoch and mini-batch counts, the
    validation of the requested contributivity methods, and the quick-demo
    overrides. The datasets enter only through their lengths. */
module Scenario {
  import opened Wrappers

  /** Every contributivity method a scenario may request. */
  const AllMethods: seq<string> := ["Shapley values", "Independant scores", "TMCS", "ITMCS",
    "IS_lin_S", "IS_reg_S", "AIS_Kriging_S", "SMCS", "WR_SMC"]

  /** The methods run when the configuration names none. */
  const DefaultMethods: seq<string> := ["Shapley values", "Independant scores", "TMCS"]

  const DefaultEpochs := 40
  const DefaultMinibatches := 20
  const QuickDemoEpochs := 3
  const QuickDemoMinibatches := 2
  const QuickDemoTrain: nat := 1000
  const QuickDemoVal: nat := 500
  const QuickDemoTest: nat := 500

  /** One partner's entry of the advanced split option: how many label clusters it
      draws from, and whether they are "shared" with others or "specific" to it. */
  datatype ClusterSpec = ClusterSpec(count: nat, option: string)

  /** samples_split_option: a name ("random", "stratified") for the basic split, or
      one cluster entry per partner for the advanced split. */
  datatype SplitOption = Named(name: string) | PerPartner(specs: seq<ClusterSpec>)

  /** The lengths of the train, validation and test sets. */
  datatype Lengths = Lengths(train: nat, val: nat, test: nat)

  /** The configuration dictionary: None stands for an absent key. */
  datatype Params = Params(
    partnersCount: nat,
    amounts: seq<real>,
    splitOption: Option<SplitOption>,
    corrupted: Option<seq<string>>,
    testMode: Option<string>,
    weighting: Option<string>,
    epochs: Option<int>,
    minibatches: Option<int>,
    earlyStopping: Option<bool>,
    methods: Option<seq<string>>,
    quickDemo: Option<bool>)

  /** The scenario's attributes once __init__ has run. */
  datatype Config = Config(
    partnersCount: nat,
    amounts: seq<real>,
    splitOption: SplitOption,
    corrupted: seq<string>,
    testMode: string,
    weighting: string,
    epochs: int,
    minibatches: int,
    earlyStopping: bool,
    methods: seq<string>,
    lengths: Lengths)

  /** The exceptions __init__ raises: the two failed asserts and the unknown method. */
  datatype ConfigError = EpochsNotPositive | MinibatchesNotPositive | UnknownMethod(name: string)

  /** The loop over the requested methods: each is kept, in order, until the first
      one outside AllMethods raises. */
  function CheckMethods(ms: seq<string>): (r: Result<seq<string>, ConfigError>)
    ensures r.Success? ==> |r.value| == |ms|
    decreases |ms|
  {
    if |ms| == 0 then Success([])
    else if ms[0] !in AllMethods then Failure(UnknownMethod(ms[0]))
    else
      match CheckMethods(ms[1..])
      case Success(rest) => Success([ms[0]] + rest)
      case Failure(e) => Failure(e)
  }

  /** A methods list is accepted exactly when every entry is known, and then it is
      kept as given. */
  lemma {:induction false} CheckMethodsAccepts(ms: seq<string>)
    ensures CheckMethods(ms).Success? <==> forall i :: 0 <= i < |ms| ==> ms[i] in AllMethods
    ensures CheckMethods(ms).Success? ==> CheckMethods(ms).value == ms
    decreases |ms|
  {
    if |ms| > 0 {
      CheckMethodsAccepts(ms[1..]);
      assert forall i :: 1 <= i < |ms| ==> ms[i] == ms[1..][i - 1];
      if CheckMethods(ms).Success? {
        assert ms == [ms[0]] + ms[1..];
      }
    }
  }

  /** A rejected list names its first unknown entry. */
  lemma {:induction false} CheckMethodsRejects(ms: seq<string>, i: nat)
    requires i < |ms| && ms[i] !in AllMethods
    requires forall j :: 0 <= j < i ==> ms[j] in AllMethods
    ensures CheckMethods(ms) == Failure(UnknownMethod(ms[i]))
    decreases i
  {
    if i > 0 {
      assert forall j :: 0 <= j < i - 1 ==> ms[1..][j] == ms[j + 1];
      CheckMethodsRejects(ms[1..], i - 1);
    }
  }

  /** Whatever a rejection names is an unknown entry of the list. */
  lemma {:induction false} CheckMethodsNames(ms: seq<string>)
    ensures CheckMethods(ms).Failure? ==>
      CheckMethods(ms).error.UnknownMethod? && CheckMethods(ms).error.name in ms &&
      CheckMethods(ms).error.name !in AllMethods
    decreases |ms|
  {
    if |ms| > 0 && ms[0] in AllMethods {
      CheckMethodsNames(ms[1..]);
      if CheckMethods(ms).Failure? {
        assert CheckMethods(ms).error.name in ms[1..];
      }
    }
  }

  /** The methods attribute: the default list when the key is absent or the list is
      empty, the validated list otherwise. */
  function ResolveMethods(methods: Option<seq<string>>): (r: Result<seq<string>, ConfigError>)
    ensures (methods.None? || methods.value == []) ==> r == Success(DefaultMethods)
  {
    if methods.None? || methods.value == [] then Success(DefaultMethods)
    else CheckMethods(methods.value)
  }

  /** Every method a scenario ends up with is a known one, and a non-empty list is
      either kept as given or rejected for its first unknown entry. */
  lemma {:induction false} ResolvedMethodsKnown(methods: Option<seq<string>>)
    ensures ResolveMethods(methods).Success? ==>
      forall m :: m in ResolveMethods(methods).value ==> m in AllMethods
    ensures methods.Some? && methods.value != [] && ResolveMethods(methods).Success? ==>
      ResolveMethods(methods).value == methods.value
  {
    if methods.Some? && methods.value != [] {
      CheckMethodsAccepts(methods.value);
    }
  }

  /** The quick demo keeps the first 1000 training, 500 validation and 500 test samples. */
  function DemoLengths(l: Lengths): (r: Lengths)
    ensures r.train <= QuickDemoTrain && r.val <= QuickDemoVal && r.test <= QuickDemoTest
    ensures r.train <= l.train && r.val <= l.val && r.test <= l.test
    ensures (r.train == l.train || r.train == QuickDemoTrain) && (r.val == l.val || r.val == QuickDemoVal)
    ensures r.test == l.test || r.test == QuickDemoTest
  {
    Lengths(
      if l.train <= QuickDemoTrain then l.train else QuickDemoTrain,
      if l.val <= QuickDemoVal then l.val else QuickDemoVal,
      if l.test <= QuickDemoTest then l.test else QuickDemoTest)
  }

  function ValueOr<T>(o: Option<T>, default: T): T
  {
    if o.Some? then o.value else default
  }

  /** Scenario.__init__ on a configuration and datasets of the given lengths. */
  function Configure(p: Params, l: Lengths): (r: Result<Config, ConfigError>)
    ensures r.Success? ==> r.value.epochs > 0 && r.value.minibatches > 0
    ensures r.Success? ==> r.value.partnersCount == p.partnersCount && r.value.amounts == p.amounts
  {
    if p.epochs.Some? && p.epochs.value <= 0 then Failure(EpochsNotPositive)
    else if p.minibatches.Some? && p.minibatches.value <= 0 then Failure(MinibatchesNotPositive)
    else
      match ResolveMethods(p.methods)
      case Failure(e) => Failure(e)
      case Success(ms) =>
        var base := Config(
          p.partnersCount,
          p.amounts,
          ValueOr(p.splitOption, Named("random")),
          ValueOr(p.corrupted, seq(p.partnersCount, i => "not_corrupted")),
          ValueOr(p.testMode, "global"),
          ValueOr(p.weighting, "uniform"),
          ValueOr(p.epochs, DefaultEpochs),
          ValueOr(p.minibatches, DefaultMinibatches),
          ValueOr(p.earlyStopping, true),
          ms,
          l);
        if p.quickDemo == Some(true) then
          Success(base.(epochs := QuickDemoEpochs, minibatches := QuickDemoMinibatches, lengths := DemoLengths(l)))
        else Success(base)
  }

  /** A configuration is accepted exactly when the supplied counts are positive and
      the methods list is empty, absent or made of known methods. */
  lemma {:induction false} ConfigureAccepts(p: Params, l: Lengths)
    ensures Configure(p, l).Success? <==>
      (p.epochs.None? || p.epochs.value > 0) &&
      (p.minibatches.None? || p.minibatches.value > 0) &&
      (p.methods.None? || forall i :: 0 <= i < |p.methods.value| ==> p.methods.value[i] in AllMethods)
  {
    if p.methods.Some? {
      CheckMethodsAccepts(p.methods.value);
    }
  }

  /** The epoch count is checked first, then the mini-batch count, then the methods. */
  lemma {:induction false} ConfigureErrorOrder(p: Params, l: Lengths)
    ensures p.epochs.Some? && p.epochs.value <= 0 ==> Configure(p, l) == Failure(EpochsNotPositive)
    ensures (p.epochs.None? || p.epochs.value > 0) && p.minibatches.Some? && p.minibatches.value <= 0 ==>
      Configure(p, l) == Failure(MinibatchesNotPositive)
    ensures Configure(p, l).Failure? && Configure(p, l).error.UnknownMethod? ==>
      p.methods.Some? && Configure(p, l).error.name in p.methods.value &&
      Configure(p, l).error.name !in AllMethods
  {
    if p.methods.Some? {
      CheckMethodsNames(p.methods.value);
    }
  }

  /** Absent keys take their defaults: a random split, no corrupted partner, the
      global test set, uniform aggregation, 40 epochs, 20 mini-batches, early
      stopping, and the three default methods. */
  lemma {:induction false} ConfigureDefaults(p: Params, l: Lengths)
    requires Configure(p, l).Success?
    ensures p.splitOption.None? ==> Configure(p, l).value.splitOption == Named("random")
    ensures p.corrupted.None? ==>
      |Configure(p, l).value.corrupted| == p.partnersCount &&
      forall i :: 0 <= i < p.partnersCount ==> Configure(p, l).value.corrupted[i] == "not_corrupted"
    ensures p.testMode.None? ==> Configure(p, l).value.testMode == "global"
    ensures p.weighting.None? ==> Configure(p, l).value.weighting == "uniform"
    ensures p.earlyStopping.None? ==> Configure(p, l).value.earlyStopping
    ensures p.quickDemo != Some(true) && p.epochs.None? ==> Configure(p, l).value.epochs == DefaultEpochs
    ensures p.quickDemo != Some(true) && p.minibatches.None? ==> Configure(p, l).value.minibatches == DefaultMinibatches
    ensures (p.methods.None? || p.methods.value == []) ==> Configure(p, l).value.methods == DefaultMethods
  {
  }

  /** Supplied keys are kept as given, except that the quick demo overrides the counts. */
  lemma {:induction false} ConfigureKeeps(p: Params, l: Lengths)
    requires Configure(p, l).Success?
    ensures p.splitOption.Some? ==> Configure(p, l).value.splitOption == p.splitOption.value
    ensures p.corrupted.Some? ==> Configure(p, l).value.corrupted == p.corrupted.value
    ensures p.testMode.Some? ==> Configure(p, l).value.testMode == p.testMode.value
    ensures p.weighting.Some? ==> Configure(p, l).value.weighting == p.weighting.value
    ensures p.earlyStopping.Some? ==> Configure(p, l).value.earlyStopping == p.earlyStopping.value
    ensures p.quickDemo != Some(true) && p.epochs.Some? ==> Configure(p, l).value.epochs == p.epochs.value
    ensures p.quickDemo != Some(true) && p.minibatches.Some? ==> Configure(p, l).value.minibatches == p.minibatches.value
    ensures p.quickDemo != Some(true) ==> Configure(p, l).value.lengths == l
    ensures p.methods.Some? && p.methods.value != [] ==> Configure(p, l).value.methods == p.methods.value
  {
    ResolvedMethodsKnown(p.methods);
  }

  /** The quick demo runs 3 epochs of 2 mini-batches on at most 1000/500/500 samples,
      whatever counts were supplied (as long as they passed their checks). */
  lemma {:induction false} QuickDemoOverrides(p: Params, l: Lengths)
    requires Configure(p, l).Success? && p.quickDemo == Some(true)
    ensures Configure(p, l).value.epochs == QuickDemoEpochs
    ensures Configure(p, l).value.minibatches == QuickDemoMinibatches
    ensures Configure(p, l).value.lengths.train <= QuickDemoTrain
    ensures Configure(p, l).value.lengths.val <= QuickDemoVal
    ensures Configure(p, l).value.lengths.test <= QuickDemoTest
    ensures Configure(p, l).value.lengths.train == (if l.train <= QuickDemoTrain then l.train else QuickDemoTrain)
  {
  }
}
