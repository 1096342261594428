/**
 * BaseDataLoader: a loader that splits the index range of its dataset
 * into a training prefix and a validation suffix, each served in order
 * by a sequential sampler, and can spawn a sibling loader over the
 * validation part with the same configuration.
 */
module DataLoaders {
  import opened Wrappers

  /** validation_split: an int is an absolute count, a float a fraction. */
  datatype Split = IntSplit(count: int) | FloatSplit(fraction: real)

  /** `split == 0.0`, which in Python also holds of the int 0. */
  predicate IsZero(split: Split) {
    match split
    case IntSplit(k) => k == 0
    case FloatSplit(x) => x == 0.0
  }

  /** The two assertions of the integer branch (AssertionError). */
  datatype ConfigError = SplitNotPositive | SplitNotBelowSampleCount

  /** A sequential sampler: yields the stored indices in order. */
  datatype Sampler = SequentialSampler(indices: seq<int>)

  /** The dataset and collate function are opaque; only len(dataset) matters here. */
  datatype Dataset = Dataset(id: int, size: nat)
  datatype CollateFn = DefaultCollate | CustomCollate(id: int)

  /** init_kwargs. */
  datatype LoaderConfig = LoaderConfig(
    dataset: Dataset, batchSize: int, shuffle: bool, collateFn: CollateFn, numWorkers: int)

  /** A torch DataLoader, reduced to its sampler and its configuration. */
  datatype DataLoader = DataLoader(sampler: Option<Sampler>, config: LoaderConfig)

  /** torch accepts a sampler only together with shuffle=False. */
  predicate SamplerExclusive(loader: DataLoader) {
    loader.sampler.Some? ==> !loader.config.shuffle
  }

  /** Python's int() on a float: truncation toward zero. */
  function Trunc(x: real): (r: int)
    ensures 0.0 <= x ==> r as real <= x < r as real + 1.0
    ensures x < 0.0 ==> r as real - 1.0 < x <= r as real
  {
    if x >= 0.0 then x.Floor else -((-x).Floor)
  }

  /** np.arange(lo, hi). */
  function Range(lo: int, hi: int): (r: seq<int>)
    requires lo <= hi
    ensures |r| == hi - lo
    ensures forall i :: 0 <= i < |r| ==> r[i] == lo + i
  {
    seq(hi - lo, i requires 0 <= i < hi - lo => lo + i)
  }

  /** Where a Python slice bound k falls in a sequence of length len. */
  function SliceBound(len: nat, k: int): (b: nat)
    ensures b <= len
  {
    if k < 0 then (if k + len < 0 then 0 else k + len) else if k > len then len else k
  }

  /** n_samples * split, the float product that int() truncates. */
  function Product(nSamples: nat, fraction: real): real {
    nSamples as real * fraction
  }

  /** For a fraction in [0, 1] the product lies between 0 and n_samples. */
  lemma {:induction false} ProductBounds(nSamples: nat, fraction: real)
    requires 0.0 <= fraction <= 1.0
    ensures 0.0 <= Product(nSamples, fraction) <= nSamples as real
  {
    if nSamples > 0 {
      ProductBounds(nSamples - 1, fraction);
      assert Product(nSamples, fraction) == Product(nSamples - 1, fraction) + fraction;
    }
  }

  /** len_valid, for a split that is not zero. */
  function LenValid(nSamples: nat, split: Split): Result<int, ConfigError> {
    match split
    case IntSplit(k) =>
      if k <= 0 then Failure(SplitNotPositive)
      else if k >= nSamples then Failure(SplitNotBelowSampleCount)
      else Success(k)
    case FloatSplit(x) => Success(Trunc(Product(nSamples, x)))
  }

  /** The value _split_sampler returns, or the assertion it fails. */
  function SplitPlan(nSamples: nat, split: Split): Result<(Option<Sampler>, Option<Sampler>), ConfigError> {
    if IsZero(split) then Success((None, None))
    else
      match LenValid(nSamples, split)
      case Failure(e) => Failure(e)
      case Success(lenValid) =>
        var idxFull := Range(0, nSamples);
        var cut := SliceBound(|idxFull|, |idxFull| - lenValid);
        Success((Some(SequentialSampler(idxFull[..cut])), Some(SequentialSampler(idxFull[cut..]))))
  }

  predicate Increasing(s: seq<int>) {
    forall i, j :: 0 <= i < j < |s| ==> s[i] < s[j]
  }

  /**
   * Whenever samplers are made they partition 0 .. nSamples-1: the
   * training indices are a prefix [0, cut), the validation indices the
   * suffix [cut, nSamples), both in increasing order, so they are
   * disjoint and every training index precedes every validation index.
   */
  lemma SplitPartition(nSamples: nat, split: Split)
    requires SplitPlan(nSamples, split).Success? && SplitPlan(nSamples, split).value.0.Some?
    ensures SplitPlan(nSamples, split).value.1.Some?
    ensures
      var train := SplitPlan(nSamples, split).value.0.value.indices;
      var valid := SplitPlan(nSamples, split).value.1.value.indices;
      && train == Range(0, |train|)
      && valid == Range(|train|, nSamples)
      && train + valid == Range(0, nSamples)
      && Increasing(train) && Increasing(valid)
      && (forall i, j :: 0 <= i < |train| && 0 <= j < |valid| ==> train[i] < valid[j])
      && multiset(train) !! multiset(valid)
  {
    var lenValid := LenValid(nSamples, split).value;
    var cut := SliceBound(nSamples, nSamples - lenValid);
    RangeCut(nSamples, cut);
    RangesPartition(cut, nSamples);
  }

  lemma RangeCut(n: nat, cut: nat)
    requires cut <= n
    ensures Range(0, n)[..cut] == Range(0, cut)
    ensures Range(0, n)[cut..] == Range(cut, n)
  {
  }

  /** [0, cut) and [cut, n) are increasing, ordered one before the other, disjoint, and make up [0, n). */
  lemma RangesPartition(cut: nat, n: nat)
    requires cut <= n
    ensures Range(0, cut) + Range(cut, n) == Range(0, n)
    ensures Increasing(Range(0, cut)) && Increasing(Range(cut, n))
    ensures forall i, j :: 0 <= i < cut && 0 <= j < n - cut ==> Range(0, cut)[i] < Range(cut, n)[j]
    ensures multiset(Range(0, cut)) !! multiset(Range(cut, n))
  {
    var train, valid := Range(0, cut), Range(cut, n);
    forall x | x in multiset(train)
      ensures x !in multiset(valid)
    {
      assert x in train;
    }
  }

  /**
   * Integer split: zero means no validation; otherwise the split is
   * accepted exactly when 0 < k < nSamples, and then the validation
   * sampler holds exactly the last k indices.
   */
  lemma IntSplitContract(nSamples: nat, k: int)
    ensures k == 0 ==> SplitPlan(nSamples, IntSplit(k)) == Success((None, None))
    ensures k < 0 ==> SplitPlan(nSamples, IntSplit(k)) == Failure(SplitNotPositive)
    ensures k > 0 && k >= nSamples ==> SplitPlan(nSamples, IntSplit(k)) == Failure(SplitNotBelowSampleCount)
    ensures 0 < k < nSamples ==>
      SplitPlan(nSamples, IntSplit(k)) ==
        Success((Some(SequentialSampler(Range(0, nSamples - k))), Some(SequentialSampler(Range(nSamples - k, nSamples)))))
  {
    if 0 < k < nSamples {
      var idxFull := Range(0, nSamples);
      assert idxFull[..nSamples - k] == Range(0, nSamples - k);
      assert idxFull[nSamples - k..] == Range(nSamples - k, nSamples);
    }
  }

  /**
   * Fractional split in (0, 1]: the validation sampler holds the last
   * floor(nSamples * x) indices (int() truncates, it does not round).
   */
  lemma FractionSplitContract(nSamples: nat, x: real)
    requires 0.0 < x <= 1.0
    ensures
      var lenValid := Product(nSamples, x).Floor;
      && 0 <= lenValid <= nSamples
      && SplitPlan(nSamples, FloatSplit(x)) ==
           Success((Some(SequentialSampler(Range(0, nSamples - lenValid))),
                    Some(SequentialSampler(Range(nSamples - lenValid, nSamples)))))
  {
    var product := Product(nSamples, x);
    ProductBounds(nSamples, x);
    var lenValid := product.Floor;
    assert 0 <= lenValid <= nSamples;
    assert Trunc(product) == lenValid;
    assert LenValid(nSamples, FloatSplit(x)) == Success(lenValid);
    assert SliceBound(nSamples, nSamples - lenValid) == nSamples - lenValid;
    var idxFull := Range(0, nSamples);
    assert idxFull[..nSamples - lenValid] == Range(0, nSamples - lenValid);
    assert idxFull[nSamples - lenValid..] == Range(nSamples - lenValid, nSamples);
  }

  class BaseDataLoader {
    var validationSplit: Split
    var shuffle: bool
    var batchIdx: int
    var nSamples: nat
    var sampler: Option<Sampler>
    var validSampler: Option<Sampler>
    var initKwargs: LoaderConfig
    /** What is passed to DataLoader.__init__: the training sampler and init_kwargs. */
    var loader: DataLoader

    ghost predicate Valid()
      reads this
    {
      && nSamples == initKwargs.dataset.size
      && initKwargs.shuffle == shuffle
      && SplitPlan(nSamples, validationSplit) == Success((sampler, validSampler))
      && (sampler.Some? ==> !shuffle)
      && loader == DataLoader(sampler, initKwargs)
    }

    /**
     * __init__ for a split that passes the assertions (Create below
     * covers the ones that fail). The effective shuffle flag is the
     * caller's only when there is no validation split.
     */
    constructor (dataset: Dataset, batchSize: int, shuffle: bool, validationSplit: Split,
                 numWorkers: int, collateFn: CollateFn)
      requires SplitPlan(dataset.size, validationSplit).Success?
      ensures Valid()
      ensures this.validationSplit == validationSplit
      ensures batchIdx == 0 && nSamples == dataset.size
      ensures (sampler, validSampler) == SplitPlan(dataset.size, validationSplit).value
      ensures this.shuffle == (shuffle && IsZero(validationSplit))
      ensures initKwargs == LoaderConfig(dataset, batchSize, this.shuffle, collateFn, numWorkers)
      ensures loader == DataLoader(sampler, initKwargs) && SamplerExclusive(loader)
    {
      this.validationSplit := validationSplit;
      this.shuffle := shuffle;
      batchIdx := 0;
      nSamples := dataset.size;
      new;
      var samplers := SplitSampler(this.validationSplit);
      sampler, validSampler := samplers.value.0, samplers.value.1;
      initKwargs := LoaderConfig(dataset, batchSize, this.shuffle, collateFn, numWorkers);
      loader := DataLoader(sampler, initKwargs);
    }

    /**
     * _split_sampler: returns the two samplers (None, None for a zero
     * split) and, once samplers exist, turns shuffle off.
     */
    method SplitSampler(split: Split) returns (r: Result<(Option<Sampler>, Option<Sampler>), ConfigError>)
      modifies this`shuffle
      ensures r == SplitPlan(nSamples, split)
      ensures shuffle == if r.Success? && r.value.0.Some? then false else old(shuffle)
    {
      if IsZero(split) {
        return Success((None, None));
      }
      var idxFull := Range(0, nSamples);
      var lenValid: int;
      match split {
        case IntSplit(k) =>
          if k <= 0 {
            return Failure(SplitNotPositive);
          }
          if k >= nSamples {
            return Failure(SplitNotBelowSampleCount);
          }
          lenValid := k;
          assert LenValid(nSamples, split) == Success(lenValid);
        case FloatSplit(x) =>
          lenValid := Trunc(Product(nSamples, x));
          assert LenValid(nSamples, split) == Success(lenValid);
      }
      var cut := SliceBound(|idxFull|, |idxFull| - lenValid);
      var trainSampler := SequentialSampler(idxFull[..cut]);
      var validSampler := SequentialSampler(idxFull[cut..]);
      shuffle := false;
      r := Success((Some(trainSampler), Some(validSampler)));
    }

    /**
     * split_validation: None when the split was zero; otherwise a loader
     * over the validation sampler with the very same init_kwargs.
     */
    method SplitValidation() returns (r: Option<DataLoader>)
      requires Valid()
      ensures r.None? <==> IsZero(validationSplit)
      ensures r.Some? ==> r.value == DataLoader(validSampler, initKwargs)
      ensures r.Some? ==> r.value.config == loader.config && r.value.sampler.Some? && SamplerExclusive(r.value)
    {
      if validSampler.None? {
        return None;
      }
      return Some(DataLoader(validSampler, initKwargs));
    }
  }

  /**
   * BaseDataLoader(...), including the failing assertions: a loader when
   * the split is accepted, the assertion's error otherwise.
   */
  method Create(dataset: Dataset, batchSize: int, shuffle: bool, validationSplit: Split,
                numWorkers: int, collateFn: CollateFn)
    returns (r: Result<BaseDataLoader, ConfigError>)
    ensures r.Failure? <==> SplitPlan(dataset.size, validationSplit).Failure?
    ensures r.Failure? ==> r.error == SplitPlan(dataset.size, validationSplit).error
    ensures r.Success? ==> fresh(r.value) && r.value.Valid()
    ensures r.Success? ==> r.value.shuffle == (shuffle && IsZero(validationSplit))
    ensures r.Success? ==> r.value.validationSplit == validationSplit
    ensures r.Success? ==> r.value.batchIdx == 0 && r.value.nSamples == dataset.size
    ensures r.Success? ==>
      (r.value.sampler, r.value.validSampler) == SplitPlan(dataset.size, validationSplit).value
    ensures r.Success? ==>
      r.value.initKwargs == LoaderConfig(dataset, batchSize, r.value.shuffle, collateFn, numWorkers)
  {
    var plan := SplitPlan(dataset.size, validationSplit);
    if plan.Failure? {
      return Failure(plan.error);
    }
    var loader := new BaseDataLoader(dataset, batchSize, shuffle, validationSplit, numWorkers, collateFn);
    return Success(loader);
  }

  /** A validation split of 0.2 with shuffle requested: shuffle ends up off. */
  method ShuffleOverrideExample() {
    var loader := new BaseDataLoader(Dataset(0, 10), 4, true, FloatSplit(0.2), 1, DefaultCollate);
    assert !loader.shuffle && !loader.initKwargs.shuffle;
    var valid := loader.SplitValidation();
    assert valid.Some?;
    FractionSplitContract(10, 0.2);
    assert valid.value.sampler == Some(SequentialSampler(Range(8, 10)));
  }
}
