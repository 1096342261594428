# Train/validation splitting and indicator columns of a CNN-LSTM stock predictor

This project models two parts of a stock-price forecasting repository in Dafny, and proves properties of the model.

1. **The base data loader.** It splits the sample positions `0 .. n_samples-1` into a training prefix and a validation suffix. Each part is served in order by a sequential sampler. The loader can spawn a sibling loader over the validation suffix that shares the training loader's configuration. This part lives in `base/base_data_loader.py`.
2. **The hand-written indicator builders.** Each one derives a column from the `Close` prices of a feature frame and joins it to the frame under a formatted name. The builders are momentum, rate of change, the future simple-moving-average ratio and the SMA ratio. This part lives in `data_loader/technical_indicators.py`.

Modules:

- `Wrappers` (`wrappers.dfy`): the `Option` and `Result` types.
- `Decimal` (`decimal.dfy`): Python's `str()` on integers, which builds column names. It also holds the inverse of `str()`, so that different window parameters are known to give different names.
- `Series` (`series.dfy`): the pandas operations the builders use: `shift`, `diff`, `pct_change`, `rolling(w).mean()`, reversal, and row-wise arithmetic. They work on a column `seq<Option<real>>`, where `None` is an undefined (NaN) cell. Arithmetic propagates NaN.
- `Frames` (`frames.dfy`): a frame is a row count, the column names in insertion order, and a map from name to column. Every column has as many cells as the frame has rows. The module holds `df[name]`, `df.join(series)` and "add if absent".
- `TechnicalIndicators` (`indicators.dfy`): the four builders. For each one there is a definition of the column as the source computes it, and a closed-form statement of each row of the result.
- `DataLoaders` (`data_loader.dfy`): the split plan as a function, and the class `BaseDataLoader`, whose constructor and methods update the fields as `__init__`, `_split_sampler` and `split_validation` do.

Three behaviours of the code are easy to misread:

- A fractional split gives `len_valid = int(n_samples * split)`. That is truncation toward zero, not rounding.
- The undefined rows of `FSMA_n` are row 0 and the last `n - 1` rows. They are not a tail of length `n`.
- A fraction above 1 goes through Python's negative-index slicing. For example, with `n < len_valid < 2n` the validation part holds only `len_valid - n` indices. `SliceBound` models this exactly, and `SplitPartition` shows that the result is still an ordered partition.

Modelling choices:

- Prices are exact `real`s.
- The `Close` column must be strictly positive wherever a builder divides by it. This applies to rate of change, the future moving average and the SMA ratio. Momentum only subtracts, so it accepts undefined cells and propagates them.
- A frame without `Close` gives `MissingColumn("Close")`, which is pandas' `KeyError`.
- Joining a name that is already a column gives `ColumnsOverlap`, which is pandas' `ValueError`. Only `rate_of_change` guards against this, with its add-if-absent test.
- `ROC[4] = 0.1` on a frame of fewer than five rows adds label 4 to the series. The left join then drops that label, so the model leaves such a frame unaffected.
- The assertions of the integer split become `Create`'s `Failure` result. The constructor itself requires a split that passes them.

## Model

| member | source | states |
|---|---|---|
| `DataLoaders.Trunc` | Stock-Price-Prediction-CNNLSTM-master/base/base_data_loader.py:43 | `int()` on a float truncates toward zero: the result is within 1 of `x`, on the side of zero |
| `DataLoaders.SplitPartition` | Stock-Price-Prediction-CNNLSTM-master/base/base_data_loader.py:33-49 | when samplers are made, the training indices are exactly `[0, k)` and the validation indices exactly `[k, n_samples)`. Their concatenation is `arange(n_samples)`, both are increasing, they are disjoint, and every training index is below every validation index. This holds for every accepted split, fractions above 1 and below 0 included |
| `DataLoaders.IntSplitContract` | Stock-Price-Prediction-CNNLSTM-master/base/base_data_loader.py:30-41 | integer split: 0 gives `(None, None)`; a value ≤ 0 fails the first assertion; a value ≥ `n_samples` fails the second; for `0 < k < n_samples` the samplers are `[0, n-k)` and `[n-k, n)`, so the validation sampler holds exactly `k` indices |
| `DataLoaders.FractionSplitContract` | Stock-Price-Prediction-CNNLSTM-master/base/base_data_loader.py:42-49 | fraction `0 < x <= 1`: `len_valid == floor(n_samples * x)` lies in `[0, n_samples]`, and the samplers are `[0, n - len_valid)` and `[n - len_valid, n)` |
| `DataLoaders.BaseDataLoader.constructor` | Stock-Price-Prediction-CNNLSTM-master/base/base_data_loader.py:11-27 | `batch_idx == 0`; `n_samples == len(dataset)`, not the training length; the samplers are the split plan's; the effective `shuffle` is the caller's exactly when the split is zero and `False` otherwise; `init_kwargs` records that effective value; the base `DataLoader` gets the training sampler and `init_kwargs`, never a sampler together with `shuffle` |
| `DataLoaders.BaseDataLoader.SplitSampler` | Stock-Price-Prediction-CNNLSTM-master/base/base_data_loader.py:29-55 | returns the split plan, or the assertion the split fails; sets `shuffle` to `False` exactly when it returns samplers, and changes nothing else |
| `DataLoaders.BaseDataLoader.SplitValidation` | Stock-Price-Prediction-CNNLSTM-master/base/base_data_loader.py:57-61 | returns `None` exactly when the split was zero; otherwise returns a loader over `valid_sampler` whose configuration is `init_kwargs`, identical to the training loader's, with shuffle off |
| `DataLoaders.Create` | Stock-Price-Prediction-CNNLSTM-master/base/base_data_loader.py:11-43 | construction fails exactly when the split plan fails, with that plan's assertion; otherwise it yields a fresh loader that satisfies the class invariant and holds what the constructor promises: the caller's split, `batch_idx == 0`, `n_samples == len(dataset)`, the split plan's samplers, `shuffle` overridden as above, and `init_kwargs` built from the caller's dataset, batch size, collate function and worker count |
| `Frames.GetColumn` | Stock-Price-Prediction-CNNLSTM-master/data_loader/technical_indicators.py:100 | `df[name]` succeeds exactly when the column exists and yields a column as long as the frame; otherwise it fails with `MissingColumn(name)` |
| `Frames.Join` | Stock-Price-Prediction-CNNLSTM-master/data_loader/technical_indicators.py:101 | `df.join(series)` fails exactly when the name is already a column; otherwise it appends exactly that one column, last, keeping the row count and every other column |
| `Frames.AddIfAbsent` | Stock-Price-Prediction-CNNLSTM-master/data_loader/technical_indicators.py:119-120 | the result always has the column; it is the frame itself when the name was present, and the frame with the column appended when it was not |
| `Frames.AddIfAbsentIdempotent` | Stock-Price-Prediction-CNNLSTM-master/data_loader/technical_indicators.py:119-120 | adding a column a second time under the same name changes nothing, whatever the second column holds |
| `Decimal.NatToString` | Stock-Price-Prediction-CNNLSTM-master/data_loader/technical_indicators.py:100 | `str()` of a natural number is a non-empty string of digits with no leading zero |
| `Decimal.IntToString` | Stock-Price-Prediction-CNNLSTM-master/data_loader/technical_indicators.py:100 | `str()` of an integer begins with `-` exactly when the integer is negative |
| `Decimal.ParseNatToString` | Stock-Price-Prediction-CNNLSTM-master/data_loader/technical_indicators.py:100 | reading the digits of `str(n)` back gives `n` |
| `Decimal.ParseIntToString` | Stock-Price-Prediction-CNNLSTM-master/data_loader/technical_indicators.py:116 | reading `str(i)` back gives `i`, negative values included |
| `Decimal.IntToStringInjective` | Stock-Price-Prediction-CNNLSTM-master/data_loader/technical_indicators.py:116 | different integers have different `str()` |
| `Series.DiffAt` | Stock-Price-Prediction-CNNLSTM-master/data_loader/technical_indicators.py:100 | `diff(k)` at row `t` is `c[t] - c[t-k]` when row `t-k` exists, and undefined otherwise |
| `Series.PctChangeAt` | Stock-Price-Prediction-CNNLSTM-master/data_loader/technical_indicators.py:116 | on positive prices, `pct_change(k)` at row `t` is `c[t]/c[t-k] - 1` when row `t-k` exists, and undefined otherwise |
| `Series.RollingMeanPositive` | Stock-Price-Prediction-CNNLSTM-master/data_loader/technical_indicators.py:65 | on positive prices, `rolling(w).mean()` is defined exactly from row `w-1` on, and is positive there |
| `Series.SumReversed` | Stock-Price-Prediction-CNNLSTM-master/data_loader/technical_indicators.py:65 | a window sum taken on the reversed series equals the sum of the same prices in their original order |
| `TechnicalIndicators.Momentum` | Stock-Price-Prediction-CNNLSTM-master/data_loader/technical_indicators.py:93-102 | fails without `Close`, and fails with `ColumnsOverlap` when `MOM_n` is already a column; otherwise it appends exactly `MOM_n`, whose row `t` is `Close[t] - Close[t-n]` when row `t-n` exists, and undefined otherwise |
| `TechnicalIndicators.MomentumWarmUp` | Stock-Price-Prediction-CNNLSTM-master/data_loader/technical_indicators.py:100-101 | on complete prices and `n >= 0`, `MOM_n` is undefined exactly on the first `n` rows |
| `TechnicalIndicators.MomentumExample` | Stock-Price-Prediction-CNNLSTM-master/data_loader/technical_indicators.py:100-101 | `MOM_5` of prices 1..7 is undefined on rows 0-4 and is 5 at row 5 |
| `TechnicalIndicators.RocReference` | Stock-Price-Prediction-CNNLSTM-master/data_loader/technical_indicators.py:116-118 | the `ROC_n` column keeps the frame's row count (its rows are stated by `RocFrameContract`) |
| `TechnicalIndicators.PercentChangeRows` | Stock-Price-Prediction-CNNLSTM-master/data_loader/technical_indicators.py:116 | on positive prices, row `t` of `pct_change(n) * 100` is `(Close[t]/Close[t-n] - 1) * 100` when row `t-n` exists, and undefined otherwise |
| `TechnicalIndicators.RateOfChange` | Stock-Price-Prediction-CNNLSTM-master/data_loader/technical_indicators.py:105-122 | computing `pct_change(n)*100`, writing 0.1 into row 4 when `n >= 5`, and then joining only if the name is absent gives exactly `RocFrame` |
| `TechnicalIndicators.OverriddenRocMatches` | Stock-Price-Prediction-CNNLSTM-master/data_loader/technical_indicators.py:116-118 | the `pct_change` column after the row-4 write is the closed-form `ROC_n` column |
| `TechnicalIndicators.RocFrameContract` | Stock-Price-Prediction-CNNLSTM-master/data_loader/technical_indicators.py:116-122 | without `Close` the result is `MissingColumn`; with `ROC_n` already present it is the unchanged frame; otherwise it is the frame with exactly `ROC_n` appended. Each row `t` is `(Close[t]/Close[t-n] - 1) * 100` where row `t-n` exists and undefined elsewhere, except that row 4 is exactly 0.1 when `n >= 5` |
| `TechnicalIndicators.RocIdempotent` | Stock-Price-Prediction-CNNLSTM-master/data_loader/technical_indicators.py:119-122 | applying `rate_of_change` twice with the same `n` equals applying it once, and the intermediate frame still has its positive `Close` |
| `TechnicalIndicators.RocNamesDistinct` | Stock-Price-Prediction-CNNLSTM-master/data_loader/technical_indicators.py:116-119 | `ROC_m` and `ROC_n` are the same name exactly when `m == n`, so the guard only skips a column of the same period |
| `TechnicalIndicators.TrailingMeanPositive` | Stock-Price-Prediction-CNNLSTM-master/data_loader/technical_indicators.py:30-31 | the mean of a trailing window of positive prices is positive |
| `TechnicalIndicators.FsmaColumn` | Stock-Price-Prediction-CNNLSTM-master/data_loader/technical_indicators.py:65-68 | the reverse / rolling mean / shift(-1) / reverse column keeps the frame's row count; its rows are stated by `FsmaClosedForm` |
| `TechnicalIndicators.FutureMeanAt` | Stock-Price-Prediction-CNNLSTM-master/data_loader/technical_indicators.py:65 | the rolling mean of the reversed `Close`, read at the position of row `t`, is the mean of `Close[t..t+n-1]` when those rows exist, and undefined otherwise |
| `TechnicalIndicators.PreviousAt` | Stock-Price-Prediction-CNNLSTM-master/data_loader/technical_indicators.py:66 | `shift(-1)` of the reversed `Close`, read at the position of row `t`, holds `Close[t-1]`, and is undefined for row 0 |
| `TechnicalIndicators.FsmaClosedForm` | Stock-Price-Prediction-CNNLSTM-master/data_loader/technical_indicators.py:65-68 | `FSMA_n[t] = (mean(Close[t..t+n-1]) - Close[t-1]) / Close[t-1]`, defined exactly for `1 <= t <= len - n`: row 0 and the last `n-1` rows are undefined |
| `TechnicalIndicators.FsmaClosedFormAll` | Stock-Price-Prediction-CNNLSTM-master/data_loader/technical_indicators.py:65-68 | the same statement for all rows at once |
| `TechnicalIndicators.FutureMovingAverage` | Stock-Price-Prediction-CNNLSTM-master/data_loader/technical_indicators.py:63-70 | fails without `Close`, and fails with `ColumnsOverlap` when `FSMA_n` is already a column; otherwise it appends exactly `FSMA_n`, with the rows of `FsmaClosedForm` |
| `TechnicalIndicators.SmaRatioColumn` | Stock-Price-Prediction-CNNLSTM-master/data_loader/technical_indicators.py:30-33 | the `(SMA_b - SMA_s) / SMA_s` column keeps the frame's row count; its rows are stated by `SmaRatioClosedForm` |
| `TechnicalIndicators.SmaRatioClosedForm` | Stock-Price-Prediction-CNNLSTM-master/data_loader/technical_indicators.py:30-33 | row `t` is `(mean of the last b prices - mean of the last s prices) / mean of the last s prices`, defined exactly from row `max(s, b) - 1` on |
| `TechnicalIndicators.SmaRatioConstant` | Stock-Price-Prediction-CNNLSTM-master/data_loader/technical_indicators.py:30-33 | on a constant positive price series every defined `SMA_s_b` value is 0 |
| `TechnicalIndicators.MovingAverage` | Stock-Price-Prediction-CNNLSTM-master/data_loader/technical_indicators.py:28-35 | fails without `Close`, and fails with `ColumnsOverlap` when `SMA_s_b` is already a column; otherwise it appends exactly `SMA_s_b`, with the rows of `SmaRatioClosedForm` |

## Left out

- TA-lib wrappers (`average_true_range`, the three `bollinger_bands_*`, `relative_strength_index`, the three `MACD_*`, `william_r`, `stocha_osc_k`, `stocha_osc_d`, `acc_dist`): their algorithms run inside TA-lib and are not visible. Note that `average_true_range` uses `n` only in the column name.
- `exponential_moving_average` and `future_exponential_moving_average`: they depend on pandas' `ewm(span, min_periods)` weighting, which is not visible.
- Commented-out code: the alternative future averages and the commented shuffle. `np.random.seed(0)` is also left out, because nothing draws from the generator.
- Torch `DataLoader` internals: batching, `collate_fn`, worker processes. A loader is reduced to its sampler and its `init_kwargs`, and the dataset and collate function are opaque values. Torch's refusal of a sampler together with `shuffle=True` appears only as the predicate `SamplerExclusive`, which is proved to hold. Torch's `DataLoader.__init__` also replaces a `None` sampler with its own default sampler, so after a zero split the source's `self.sampler` is that default sampler, while the model's `sampler` field stays `None`.
- `mySequentialSampler` is not part of this model. It is taken to store its index list and yield it in order.
- Floating point: prices and split fractions are exact reals. So division by a zero price (inf/NaN), `pct_change`'s forward filling of NaN, and the rounding of `n_samples * split` are not modelled. Builders that divide require a positive `Close`.
- TechnicalIndicators.MovingAverage: requires both windows to be at least 1. TA-lib's own range check on `timeperiod` is not modelled.
- TechnicalIndicators.FutureMovingAverage: requires `n >= 1`. pandas' handling of a window of 0 and its error on a negative window are not modelled.
- Frames: a frame's index is taken to be the positions `0 .. rows-1`, and its column names to be distinct. Duplicate column names, which pandas allows in general, are not modelled.
- The join is modelled for a series computed from the frame itself, so both share one index. Joining a series with a different index is not modelled.
