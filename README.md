# ProactorAI data preparation and k-nearest-neighbour classifiers, in Dafny

ProactorAI predicts network-switch failures from daily telemetry. This project models its
analysis core:

- **The sample grabbers.** There are two:
  - the current grabber, `v0.2/analyzing/Grabber.py`;
  - the older grabber, `analyzing/Grabber.py`.

  Each one does the following:
  - keeps the usable switches of a telemetry database;
  - walks back from every down event and from the end of the observation period in
    steps of `sample_len` days;
  - turns each complete window into a sample labelled failing (or unhealthy) or healthy;
  - widens per-statistic upper and lower limits;
  - scales samples into [0, 1].

  The current grabber also does three more things:
  - drops a second failing sample from the same site on the same day;
  - builds a balanced training split;
  - builds a validation split skewed by the healthy-to-failing ratio.

  The older grabber routes samples that end on the last observed day to validation. It can
  draw a capped "small" training set.
- **The two `Sample` classes.** These are `v0.2/analyzing/Sample.py` and
  `analyzing/Sample.py`. They hold mean or maximum, standard deviation and slope for each of
  six telemetry series, and serialise a sample to a dictionary or a list.
- **The classifiers.** These are `v0.1/analyzing/KNN.py` (majority vote with a weight on
  healthy votes) and `v0.1/analyzing/WeightedKNN.py` (inverse-distance votes). The model
  covers the following:
  - distance;
  - nearest-neighbour selection with Python's stable sort;
  - prediction;
  - the k sweep that scores every k from 1 to `k_range` on a validation slice;
  - the results file and reading it back;
  - precision, recall, accuracy and F1;
  - choosing the best k from accumulated counts.

## How the model is built

- **Pure computations** become functions with named results. Examples are the window
  statistics, the key regex, scaling, distance, the stable sort and the vote.
- **Objects that Python mutates** become classes: both `Grabber`s and both `Sample`s. Their
  fields are reassigned by methods with `modifies` clauses. Each method is proved equal to a
  value-level specification:
  - `Visit`, `VisitAll`, `ProcessSwitch`, `ProcessFrom` and `ScanFiles` describe the whole
    scan as a fold over candidate windows;
  - `Normalized` describes `normalize_sample`;
  - `Paired` and `Drawn` describe the two random splits.

  Lemmas then prove the promised properties about those specifications.
- **Loops over arrays** keep their arrays: the per-k counters of the sweeps, the vote and
  ballot vectors, and the totals of `read_k_file`.
- **Python exceptions** become a `Result` with a `Fault`:
  - `KeyError` for a missing key;
  - `IndexError` for an empty row or a short vector;
  - `ZeroDivisionError` for division by zero;
  - `TypeError` for `None - float`;
  - `AttributeError` for a model attribute that was never set;
  - `ValueError` for `randint` or `randrange` on an empty range;
  - `UnboundLocalError` for `get_nn` on an empty dataset.

  Every raising branch on a well-formed switch record yields the matching `Err` (see
  "Left out" for what a malformed record would raise). For example, the older
  `grab_switches` raises `KeyError` when a kept switch lacks `switch_name` or `site_code`
  (`GrabberV1.Strip`).
- **Things outside the program** become parameters:
  - `random.randint` and `random.randrange` are modelled by an arbitrary index in range;
  - `np.std` is the function parameter `std`;
  - `math.sqrt` is the function parameter `root`. The sort order is proved from the squared
    distance wherever only the order matters.
- **Numbers.** Floats are modelled as `real` and Python ints as `int`. `int(x)` of a float
  truncates toward zero (`Telemetry.PyInt`).

Where the documented behaviour and the code disagree, the model follows the code:

- `equal_set` stops once `len(training) >= 2 * 0.9 * len(failing)`. So it moves
  `ceil(0.9 n)` pairs, where `n` is the number of failing samples, and not `floor(0.9 n)`
  (`GrabberV2.PairsFromEmpty`).
- `validation_set` draws healthy samples while `i < healthy_ratio`. That is `ceil(ratio)`
  per failing sample, not `round(ratio)` (`GrabberV2.Draws`).
- A statistic whose upper and lower limits coincide makes `normalize_sample` raise
  `ZeroDivisionError`. No dedicated error exists for it (`GrabberV2.Normalized`).
- The older `update_limits` treats a limit of `0.0` as unset. See "Findings".

## Model

| member | source | states |
|---|---|---|
| Values.AsBit | v0.2/analyzing/Sample.py:58-61 | the rewritten label is the int 1 or 0 and keeps the truth value of the original flag |
| Values.AsBitIdempotent | analyzing/Sample.py:67-70 | rewriting an already rewritten label changes nothing, so `to_array` may be called twice |
| Stats.Index | v0.2/analyzing/Grabber.py:26-31 | every statistic has a position in `stats_full` |
| Stats.StatsFullIsEnumeration | v0.2/analyzing/Grabber.py:26-31 | `stats_full` lists eighteen statistics, each exactly once |
| Stats.StatNameInjective | v0.2/analyzing/Grabber.py:26-31 | no two statistics share an attribute name, so the limit dictionaries have eighteen distinct keys |
| Extract.Mean | v0.2/analyzing/Sample.py:19 | the mean of a non-empty series lies between its minimum and maximum |
| Extract.Slope | v0.2/analyzing/Sample.py:39-40 | the slope is zero, positive or negative exactly when the last value equals, exceeds or is below the first |
| Extract.Summarize | v0.2/analyzing/Sample.py:19-36 | an average statistic lies within the range of its series; a max statistic is a member of the series and bounds it; the deviation is `np.std` of the series |
| Extract.ConstantWindow | analyzing/Sample.py:29-46 | a constant series has that constant as its level and a zero slope |
| Extract.Levels | v0.2/analyzing/Sample.py:63-73 | the six representative values come in the order temp_avg, temp_max, cpu_avg, cpu_max, latency_avg, latency_max |
| SampleV1.ModelCode | analyzing/Sample.py:24-27 | "anon_model_c" gives 0, "anon_model_j" gives 1, any other string leaves the model unset |
| SampleV1.Sample.constructor | analyzing/Sample.py:12-46 | the label is stored as given, the model is encoded, and the features summarise the six series |
| SampleV1.Sample.ToDict | analyzing/Sample.py:53-63 | fails with `AttributeError` iff the model is unset; otherwise it holds the label, the model code and each representative value under its attribute name, with no name key |
| SampleV1.Sample.ToArray | analyzing/Sample.py:66-81 | the label becomes a 0/1 int with the same truth value, which a second call leaves alone; the list is [label, model, six values] and fails iff the model is unset |
| SampleV2.ModelCode | v0.2/analyzing/Sample.py:14-17 | "cisco" gives 0, "juniper" gives 1, any other string leaves the model unset |
| SampleV2.Sample.constructor | v0.2/analyzing/Sample.py:9-36 | the failing flag, the name and the encoded model are stored, and the features summarise the six series |
| SampleV2.Sample.ToDict | v0.2/analyzing/Sample.py:43-54 | the `healthy` key carries the failing flag; name, model and the six values are under their keys; fails iff the model is unset |
| SampleV2.Sample.ToArray | v0.2/analyzing/Sample.py:57-73 | the failing flag becomes a 0/1 int with the same truth value; the list is [flag, name, model, six values]; fails iff the model is unset |
| Telemetry.IsValidSample | v0.2/analyzing/Grabber.py:161-182 | a window is valid exactly when each of the six series has a reading on each of the `sample_len` days before its end |
| Telemetry.PyInt | v0.2/analyzing/Grabber.py:196-200 | `int()` of a float is the whole number within one unit of it on the same side of zero, so it truncates toward zero for both signs |
| Telemetry.MetricWindow | v0.2/analyzing/Grabber.py:195-200 | the window has `sample_len` readings, and reading i is the day `day - sample_len + i` converted as `make_sample` converts that series |
| Telemetry.Survivors | v0.2/analyzing/Grabber.py:66-80 | a switch survives exactly when it is in the database, is not a juniper and has at least `sample_len` latency readings |
| Scan.Insert | v0.2/analyzing/Grabber.py:99 | inserting into a sorted list keeps it sorted and adds exactly the one element |
| Scan.SortInts | v0.2/analyzing/Grabber.py:99 | `sort()` returns a sorted permutation of the event days |
| Scan.DaysUpTo | v0.2/analyzing/Grabber.py:97-98 | exactly the event days not after the horizon are kept |
| Scan.EventDays | v0.2/analyzing/Grabber.py:97-102 | the scanned days are sorted, end with the horizon and are all within it; a day is scanned iff it is the horizon or an event day within it; the horizon is appended only when absent |
| Scan.Floors | v0.2/analyzing/Grabber.py:104-140 | one floor per period plus the initial 0 |
| Scan.PeriodShape | v0.2/analyzing/Grabber.py:113-138 | the k-th candidate of a period ends `k * sample_len` days before the event at distance k, and the cursor stops less than `sample_len` days above the floor |
| Scan.PeriodWithin | v0.2/analyzing/Grabber.py:113 | every candidate window lies between the floor and the event day, and distance 0 is the window ending on the event |
| Scan.NextFloorBounds | v0.2/analyzing/Grabber.py:111-140 | the next floor lies between the previous floor and the period's event day |
| Scan.FloorsNonDecreasing | v0.2/analyzing/Grabber.py:104-140 | floors never move backwards, and each lies at or before its event day |
| Scan.CandidatesInHorizon | v0.2/analyzing/Grabber.py:107-140 | every candidate window starts at day 0 or later and ends by the horizon |
| Scan.LabelMeansEventDay | v0.2/analyzing/Grabber.py:120-132 | a candidate is labelled failing exactly when it ends on a recorded event at distance 0 |
| Scan.PeriodLabels | v0.2/analyzing/Grabber.py:120-132 | within a period only the window ending on the event can be failing |
| Scan.SingleFailureDays | v0.2/analyzing/Grabber.py:97-102 | one down event on day 20 with horizon 30 gives the scan days [20, 30] |
| Scan.SingleFailureExample | v0.2/analyzing/Grabber.py:107-140 | with five-day samples, the windows of that switch are listed in order; the one ending on day 20 fails and the one ending on day 10 is healthy |
| Scan.FailurePeriod | v0.2/analyzing/Grabber.py:113-138 | the period up to day 20 yields windows ending on days 20, 15, 10 and 5 |
| Scan.HorizonPeriod | v0.2/analyzing/Grabber.py:113-140 | the period from floor 0 to the horizon steps back in whole windows |
| Scan.RescanRelabels | v0.2/analyzing/Grabber.py:140 | because the floor is the cursor's leftover rather than the event day, a window can be emitted twice: failing at distance 0 and healthy at distance 2 |
| Limits.LeTransitive | v0.2/analyzing/Grabber.py:33-34 | the order on limits extended with infinities is transitive |
| Limits.Raise | v0.2/analyzing/Grabber.py:217-220 | the new upper limit is the larger of the old limit and the value |
| Limits.Lower | v0.2/analyzing/Grabber.py:222-225 | the new lower limit is the smaller of the old limit and the value |
| Limits.BoundsWiden | v0.2/analyzing/Grabber.py:213-227 | limits that enclose a sample still enclose it after any widening |
| Limits.Scale | v0.2/analyzing/Grabber.py:247 | `(v - bot) / (top - bot)` raises `ZeroDivisionError` iff `top == bot`, and otherwise times `top - bot` gives back `v - bot` |
| Limits.ScaleRange | v0.2/analyzing/Grabber.py:247 | the lower limit scales to 0, the upper to 1, and values between them into [0, 1] |
| Limits.GreedyGroup | analyzing/Grabber.py:228-229 | `^(.+)_` captures the longest non-empty prefix that is followed by an underscore, and fails when there is none |
| Limits.LastSeparator | analyzing/Grabber.py:228-229 | the search for the last underscore after position 0 finds the prefix the regex captures |
| Limits.KeyGroups | analyzing/Grabber.py:35-36 | the regex recovers the statistic's name from both its `_top` and its `_bot` key |
| Limits.TopAsWritten | analyzing/Grabber.py:230-231 | as written, a falsy limit (None or 0.0) is overwritten by the value; otherwise the larger one is kept |
| Limits.BotAsWritten | analyzing/Grabber.py:236-237 | as written, a falsy limit (None or 0.0) is overwritten by the value; otherwise the smaller one is kept |
| Limits.Top | analyzing/Grabber.py:230-231 | corrected: only an unset limit is overwritten; the result bounds both the limit and the value and is one of them |
| Limits.Bot | analyzing/Grabber.py:236-237 | corrected: only an unset limit is overwritten; the result is below both and is one of them |
| Limits.TopAsWrittenNarrows | analyzing/Grabber.py:230 | as written, values 0.0 then -1.0 leave an upper limit of -1.0, below a recorded value; a lower limit of 0.0 is replaced by a larger 1.0 |
| Limits.LimitsEncloseAll | analyzing/Grabber.py:225-239 | with the corrected test, limits exist iff some value was recorded, and they enclose every recorded value |
| GrabberV2.WidenEncloses | v0.2/analyzing/Grabber.py:213-227 | after `update_limits` the limits cover each other, enclose the sample and are only wider than before |
| GrabberV2.RaisedToEnds | v0.2/analyzing/Grabber.py:217-220 | the loop over the upper limits starts at the old dictionary and ends at the widened one |
| GrabberV2.LoweredToEnds | v0.2/analyzing/Grabber.py:222-225 | the loop over the lower limits starts at the old dictionary and ends at the widened one |
| GrabberV2.RaiseLimits | v0.2/analyzing/Grabber.py:217-220 | the loop over the upper limits computes the widened dictionary |
| GrabberV2.LowerLimits | v0.2/analyzing/Grabber.py:222-225 | the loop over the lower limits computes the widened dictionary |
| GrabberV2.VisitAllErr | v0.2/analyzing/Grabber.py:107-140 | once a `KeyError` escapes, the rest of the scan does not run |
| GrabberV2.ScanFilesErr | v0.2/analyzing/Grabber.py:41-45 | an error in one file ends the constructor's file loop |
| GrabberV2.VisitAllAppend | v0.2/analyzing/Grabber.py:107-140 | scanning two runs of windows equals scanning them one after the other |
| GrabberV2.RestVisitsCandidates | v0.2/analyzing/Grabber.py:107-140 | the nested period and cursor loops visit exactly the candidate windows, in order |
| GrabberV2.VisitNext | v0.2/analyzing/Grabber.py:113-138 | one cursor step visits the current window and then the rest of the period |
| GrabberV2.SamplesWiden | v0.2/analyzing/Grabber.py:213-227 | samples enclosed by the limits stay enclosed when the limits widen |
| GrabberV2.WidenSound | v0.2/analyzing/Grabber.py:204 | widening keeps every held sample within the limits and encloses the new one |
| GrabberV2.JoinSound | v0.2/analyzing/Grabber.py:206-209 | adding an enclosed sample to its pool keeps the state sound |
| GrabberV2.AdmitSound | v0.2/analyzing/Grabber.py:204-209 | `make_sample` appends to the failing pool iff the sample fails, and every held sample stays within the limits |
| GrabberV2.VisitAddsAtMostOne | v0.2/analyzing/Grabber.py:115-135 | visiting one window keeps the state sound and adds at most one sample |
| GrabberV2.VisitAllSound | v0.2/analyzing/Grabber.py:107-140 | a successful scan of a switch leaves every sample within the limits |
| GrabberV2.ProcessFromSound | v0.2/analyzing/Grabber.py:95-140 | a successful scan of all switches leaves every sample within the limits |
| GrabberV2.ClaimOnce | v0.2/analyzing/Grabber.py:146-158 | a site's day already claimed by a failure produces no further sample, and any admitted failing window claims its day |
| GrabberV2.Pairs | v0.2/analyzing/Grabber.py:255-256 | the number of pairs is the least m with `training + 2m >= 1.8 * failing` |
| GrabberV2.PairsStep | v0.2/analyzing/Grabber.py:256-260 | each loop turn adds one pair while the quota is unmet |
| GrabberV2.PairsFromEmpty | v0.2/analyzing/Grabber.py:255-256 | from an empty training set the loop moves `ceil(0.9 n)` pairs, which is at most n |
| GrabberV2.Draws | v0.2/analyzing/Grabber.py:270-273 | `while i < healthy_ratio` draws `ceil(ratio)` healthy samples, and none for a non-positive ratio |
| GrabberV2.PairsSizes | v0.2/analyzing/Grabber.py:256-260 | pairing m times takes m failing and m healthy samples |
| GrabberV2.SplitArith | v0.2/analyzing/Grabber.py:253-274 | both splits complete exactly when the pools hold enough samples, and then every sample ends up in training or validation |
| GrabberV2.CountsKept | v0.2/analyzing/Grabber.py:257-259 | moving samples between lists neither creates nor loses any |
| GrabberV2.ValidationShortfall | v0.2/analyzing/Grabber.py:264-274 | with 100 failing and 101 healthy samples, 90 pairs and 2 draws per failure need more healthy samples than remain, so `randint` fails |
| GrabberV2.ShortfallBound | v0.2/analyzing/Grabber.py:266-273 | the draws still owed exceed the healthy samples left when the split fails |
| GrabberV2.PairStep | v0.2/analyzing/Grabber.py:257-260 | after one pair, the failing and healthy halves of training plus the pools hold the original samples |
| GrabberV2.BlockExtends | v0.2/analyzing/Grabber.py:266-273 | one failing sample and its healthy draws extend validation by a block of `c + 1`, conserving both pools |
| GrabberV2.RunDry | v0.2/analyzing/Grabber.py:271 | when the healthy pool runs dry mid-block, nothing has been lost |
| GrabberV2.RoundDry | v0.2/analyzing/Grabber.py:266-273 | a split that fails did not have enough healthy samples, and loses nothing |
| GrabberV2.AllBlocks | v0.2/analyzing/Grabber.py:264-274 | the finished validation split plus the leftover healthy samples are exactly both pools |
| GrabberV2.EnclosedRecs | v0.2/analyzing/Grabber.py:204 | every sample held lies within the limits |
| GrabberV2.Redistributed | v0.2/analyzing/Grabber.py:253-274 | samples moved from the pools to training and validation stay within the limits |
| GrabberV2.ScaledStats | v0.2/analyzing/Grabber.py:243-248 | the loop over `stats_full` fails with `ZeroDivisionError` iff some statistic has equal limits; otherwise each cell is the statistic scaled between its limits |
| GrabberV2.ScaledStatsStops | v0.2/analyzing/Grabber.py:243-248 | the loop stops at the first statistic with equal limits |
| GrabberV2.ScaledStatsFails | v0.2/analyzing/Grabber.py:247 | equal limits at the first failing statistic raise `ZeroDivisionError` |
| GrabberV2.Normalized | v0.2/analyzing/Grabber.py:230-250 | an unset model raises `AttributeError`; otherwise `ZeroDivisionError` iff some statistic has equal limits, and otherwise 21 cells: label bit, model, 18 scaled statistics, name |
| GrabberV2.NormalizedRange | v0.2/analyzing/Grabber.py:230-250 | a sample within finite limits normalises to values in [0, 1] |
| GrabberV2.ScaledRange | v0.2/analyzing/Grabber.py:243-248 | each statistic enclosed by finite, distinct limits scales into [0, 1] |
| GrabberV2.Grabber.ValidSound | v0.2/analyzing/Grabber.py:15-50 | the grabber's invariant makes its state sound |
| GrabberV2.Grabber.constructor | v0.2/analyzing/Grabber.py:15-36 | every upper limit starts at -inf, every lower at +inf, and all lists are empty |
| GrabberV2.Grabber.ReadFiles | v0.2/analyzing/Grabber.py:41-45 | the file loop ends in the state, or the error, that scanning every database gives |
| GrabberV2.Grabber.Load | v0.2/analyzing/Grabber.py:39-50 | with no failing samples the ratio raises `ZeroDivisionError`; otherwise the ratio is healthy over failing and the splits run with the proved sizes |
| GrabberV2.Grabber.Split | v0.2/analyzing/Grabber.py:49-50 | both splits succeed iff the pools are large enough, otherwise `ValueError`; training gains `2 * Pairs` samples |
| GrabberV2.Grabber.GrabSwitches | v0.2/analyzing/Grabber.py:66-80 | exactly the surviving switches are kept |
| GrabberV2.Grabber.IsMultipleFailure | v0.2/analyzing/Grabber.py:146-158 | a healthy window never repeats; a failing window without a site code raises `KeyError`; a claimed day repeats; an unclaimed day is claimed and does not repeat |
| GrabberV2.Grabber.UpdateLimits | v0.2/analyzing/Grabber.py:213-227 | both dictionaries are widened to the sample, which they then enclose |
| GrabberV2.Grabber.SetLimits | v0.2/analyzing/Grabber.py:213-227 | storing widened limits keeps every held sample enclosed |
| GrabberV2.Grabber.NormalizeSample | v0.2/analyzing/Grabber.py:230-250 | the method returns exactly the specified normalisation, errors included |
| GrabberV2.Grabber.HeldNormalizes | v0.2/analyzing/Grabber.py:230-250 | any held sample normalises into [0, 1] once the limits are finite and distinct |
| GrabberV2.Grabber.MakeSample | v0.2/analyzing/Grabber.py:185-210 | a missing switch name raises `KeyError`; otherwise the new sample widens the limits and joins its pool |
| GrabberV2.Grabber.AdmitSample | v0.2/analyzing/Grabber.py:204-209 | limits widened, then the sample appended to the failing or healthy pool |
| GrabberV2.Grabber.AddToPool | v0.2/analyzing/Grabber.py:206-209 | failing samples go to `failing_samples` and the rest to `healthy_samples`, the other pool unchanged |
| GrabberV2.Grabber.BuildSample | v0.2/analyzing/Grabber.py:193-202 | the sample carries the switch name, its encoded model and the features of the window before `day` |
| GrabberV2.Grabber.ConsiderWindow | v0.2/analyzing/Grabber.py:115-135 | one candidate window changes the state exactly as the specification of a visit says |
| GrabberV2.Grabber.SwitchesToSamples | v0.2/analyzing/Grabber.py:82-143 | scanning all switches ends in the specified state or error |
| GrabberV2.Grabber.ScanSwitch | v0.2/analyzing/Grabber.py:96-140 | scanning one switch ends in the specified state or error |
| GrabberV2.Grabber.ScanDays | v0.2/analyzing/Grabber.py:104-140 | the loop over event days visits every candidate window of the switch |
| GrabberV2.Grabber.ScanEventDay | v0.2/analyzing/Grabber.py:109-140 | one period visits its windows and returns the next floor |
| GrabberV2.Grabber.CursorLoop | v0.2/analyzing/Grabber.py:113-138 | the cursor loop visits the period's windows and stops at its leftover |
| GrabberV2.Grabber.ScanStep | v0.2/analyzing/Grabber.py:115-138 | one cursor step moves back `sample_len` days and one step of distance |
| GrabberV2.Grabber.MoveToTraining | v0.2/analyzing/Grabber.py:259-260 | `training.append(pool.pop(i))` moves element i of the chosen pool to the end of training |
| GrabberV2.Grabber.MoveToValidation | v0.2/analyzing/Grabber.py:268-272 | `validation.append(pool.pop(i))` moves element i of the chosen pool to the end of validation |
| GrabberV2.Grabber.TakeFrom | v0.2/analyzing/Grabber.py:259-260 | `pop(i)` removes and returns element i of the chosen pool |
| GrabberV2.Grabber.EqualSet | v0.2/analyzing/Grabber.py:253-261 | training gains exactly `2 * Pairs` samples, alternately failing and healthy, drawn from the pools with nothing lost; an empty pool raises `ValueError` |
| GrabberV2.Grabber.EqualPairs | v0.2/analyzing/Grabber.py:256-260 | the pairing loop ends in the specified outcome |
| GrabberV2.Grabber.EqualRound | v0.2/analyzing/Grabber.py:257-260 | one pass moves one failing and one healthy sample |
| GrabberV2.Grabber.ValidationSet | v0.2/analyzing/Grabber.py:264-274 | validation gains every failing sample, each followed by `ceil(ratio)` healthy ones, conserving all samples; a dry healthy pool raises `ValueError` |
| GrabberV2.Grabber.ValidationBlocks | v0.2/analyzing/Grabber.py:266-273 | the outer loop ends in the specified outcome |
| GrabberV2.Grabber.ValidationRound | v0.2/analyzing/Grabber.py:267-273 | one pass removes a failing sample and appends its block |
| GrabberV2.Grabber.MoveBlock | v0.2/analyzing/Grabber.py:267-273 | a block is the popped failing sample followed by healthy samples from the pool |
| GrabberV2.Grabber.DrawHealthy | v0.2/analyzing/Grabber.py:270-273 | the inner loop moves healthy samples only, conserving them |
| GrabberV1.Strip | analyzing/Grabber.py:89-90 | `KeyError` iff the switch lacks `switch_name` or `site_code`; otherwise exactly those two fields are removed |
| GrabberV1.Stripped | analyzing/Grabber.py:81-92 | `KeyError` iff some surviving switch lacks `switch_name` or `site_code`; otherwise the kept switches are the survivors, stripped, in order |
| GrabberV1.StrippedKeeps | analyzing/Grabber.py:84-90 | a surviving switch without name or site code makes `grab_switches` raise; when it returns, a switch is kept exactly when it is not a juniper and has enough latency readings |
| GrabberV1.FindStat | analyzing/Grabber.py:228-229 | looking up a captured name finds the statistic with that name, or reports that there is none |
| GrabberV1.KeyStat | analyzing/Grabber.py:228-229 | the statistic named by a limit key is the one the regex captures |
| GrabberV1.KeyStatOfKeys | analyzing/Grabber.py:35-36 | both `_top` and `_bot` keys lead back to their statistic |
| GrabberV1.RaiseAll | analyzing/Grabber.py:227-231 | each upper limit becomes the larger of itself and the sample's value, and the keys are unchanged |
| GrabberV1.LowerAll | analyzing/Grabber.py:233-237 | each lower limit becomes the smaller of itself and the sample's value, and the keys are unchanged |
| GrabberV1.WidenEncloses | analyzing/Grabber.py:225-239 | with the corrected limit test, widened limits enclose the new sample and every sample they enclosed before |
| GrabberV1.Admit | analyzing/Grabber.py:209-214 | limits are widened with the corrected test, and the sample goes to validation iff it ends on the last observed day, to training otherwise |
| GrabberV1.RestVisitsCandidates | analyzing/Grabber.py:123-155 | the nested loops visit exactly the candidate windows, in order |
| GrabberV1.VisitAllAppend | analyzing/Grabber.py:123-155 | scanning two runs of windows equals scanning them one after the other |
| GrabberV1.VisitNext | analyzing/Grabber.py:129-152 | one cursor step visits the current window and then the rest of the period |
| GrabberV1.VisitRoutes | analyzing/Grabber.py:131-150 | a valid window adds one sample to the split its end day selects; an invalid window changes nothing |
| GrabberV1.VisitAllRoutes | analyzing/Grabber.py:123-155 | a scan only appends to training and validation |
| GrabberV1.HealthyLabelRule | analyzing/Grabber.py:135-148 | a window ending on the last day is healthy iff no event is recorded there; any other window is healthy iff it is not the one ending on the event |
| GrabberV1.ScaleSet | analyzing/Grabber.py:264-266 | `None` limits raise `TypeError`, equal limits `ZeroDivisionError`; otherwise the value is scaled between them |
| GrabberV1.ScaledStats | analyzing/Grabber.py:260-266 | the loop fails at the first statistic that cannot be scaled, otherwise lists each scaled statistic |
| GrabberV1.ScaledStatsStops | analyzing/Grabber.py:260-266 | nothing after the first failing statistic is computed |
| GrabberV1.ScaledStatsFails | analyzing/Grabber.py:266 | the error raised is that of the first failing statistic |
| GrabberV1.Normalized | analyzing/Grabber.py:249-268 | an unset model raises `AttributeError`; otherwise it fails iff some statistic cannot be scaled, and yields 20 cells: label bit, model, 18 scaled statistics |
| GrabberV1.ScaledRange | analyzing/Grabber.py:260-266 | statistics within set, distinct limits scale into [0, 1] |
| GrabberV1.NormalizedRange | analyzing/Grabber.py:249-268 | a sample within set, distinct limits normalises into [0, 1] |
| GrabberV1.HeldAppend | analyzing/Grabber.py:209-214 | appending an enclosed sample keeps every held sample enclosed |
| GrabberV1.HeldPop | analyzing/Grabber.py:288 | popping a sample keeps the rest enclosed, and the popped one is enclosed too |
| GrabberV1.HealthyCountConcat | analyzing/Grabber.py:290-302 | healthy samples of two lists add up |
| GrabberV1.DrawingStep | analyzing/Grabber.py:285-302 | each draw keeps the books of the small set and of training balanced |
| GrabberV1.RaisedToEnds | analyzing/Grabber.py:227-231 | the upper-limit loop starts at the old table and ends at the table widened with the corrected test |
| GrabberV1.LoweredToEnds | analyzing/Grabber.py:233-237 | the lower-limit loop starts at the old table and ends at the table widened with the corrected test |
| GrabberV1.RaiseLimits | analyzing/Grabber.py:227-231 | the loop over `_top` keys computes the table widened with the corrected test (`limit is None or value > limit`) |
| GrabberV1.LowerLimits | analyzing/Grabber.py:233-237 | the loop over `_bot` keys computes the table widened with the corrected test (`limit is None or value < limit`) |
| GrabberV1.Grabber.constructor | analyzing/Grabber.py:18-36 | every limit starts unset and all lists are empty |
| GrabberV1.Grabber.ReadFiles | analyzing/Grabber.py:42-47 | the file loop ends in the state that scanning every database gives, or in the `KeyError` of the first database whose `grab_switches` raises |
| GrabberV1.Grabber.GrabSwitches | analyzing/Grabber.py:81-92 | the forward loop returns the stripped survivors, or `KeyError` at the first survivor lacking `switch_name` or `site_code` |
| GrabberV1.Grabber.SwitchesToSamples | analyzing/Grabber.py:102-158 | scanning all switches ends in the specified state |
| GrabberV1.Grabber.ScanSwitch | analyzing/Grabber.py:111-155 | scanning one switch ends in the specified state |
| GrabberV1.Grabber.ScanDays | analyzing/Grabber.py:120-155 | the loop over event days visits every candidate window |
| GrabberV1.Grabber.ScanEventDay | analyzing/Grabber.py:125-155 | one period visits its windows and returns the next floor |
| GrabberV1.Grabber.CursorLoop | analyzing/Grabber.py:129-152 | the cursor loop visits the period's windows and stops at its leftover |
| GrabberV1.Grabber.ScanStep | analyzing/Grabber.py:131-152 | one cursor step moves back `sample_len` days and one step of distance |
| GrabberV1.Grabber.ConsiderWindow | analyzing/Grabber.py:131-150 | one candidate window changes the state as the specification of a visit says |
| GrabberV1.Grabber.MakeSample | analyzing/Grabber.py:196-215 | the new sample widens the limits (corrected test) and goes to validation or training by its end day |
| GrabberV1.Grabber.File | analyzing/Grabber.py:209-214 | the limits are widened with the corrected test and the sample is routed to validation or training by its end day |
| GrabberV1.Grabber.Route | analyzing/Grabber.py:211-214 | validation gets the sample iff `day == data_len`, training otherwise |
| GrabberV1.Grabber.UpdateLimits | analyzing/Grabber.py:225-239 | with the corrected limits, both tables are widened to the sample, which they then enclose, and the splits are untouched |
| GrabberV1.Grabber.SetLimits | analyzing/Grabber.py:225-239 | with the corrected limits, storing widened tables keeps every held sample enclosed |
| GrabberV1.Grabber.NormalizeSample | analyzing/Grabber.py:249-268 | the method returns exactly the specified normalisation, errors included |
| GrabberV1.Grabber.HeldNormalizes | analyzing/Grabber.py:249-268 | with the corrected limits, any held sample normalises into [0, 1] once all limits are set and distinct |
| GrabberV1.Grabber.Draw | analyzing/Grabber.py:287-302 | one draw pops a sample; it joins `small` if its class quota has room, otherwise it returns to the end of training |
| GrabberV1.Grabber.SmallSet | analyzing/Grabber.py:278-304 | `small` gains samples taken from training with nothing lost, at most 5000 of each class; success means exactly 5000 of each; otherwise `randrange` raises `ValueError` |
| Neighbours.SqDistTo | v0.1/analyzing/KNN.py:89-93 | the running sum of squares is never negative |
| Neighbours.SqDistSymmetric | v0.1/analyzing/KNN.py:87-94 | the distance from a to b equals the distance from b to a |
| Neighbours.SqDistZero | v0.1/analyzing/KNN.py:87-94 | rows with equal features are at distance zero |
| Neighbours.SqDistSelf | v0.1/analyzing/KNN.py:87-94 | every row is at distance zero from itself |
| Neighbours.SqDistIgnoresLabelAndModel | v0.1/analyzing/KNN.py:90 | the label and model columns (0 and 1) do not affect the distance |
| Neighbours.Distance | v0.1/analyzing/KNN.py:87-94 | the square root of the sum over columns 2 onward, or `IndexError` when the second row is shorter |
| Neighbours.AscendingPairs | v0.1/analyzing/KNN.py:79 | a list sorted by distance has every earlier entry no farther than every later one |
| Neighbours.Place | v0.1/analyzing/KNN.py:79 | inserting a neighbour after all entries at its distance keeps the list sorted and adds exactly that neighbour |
| Neighbours.StableSort | v0.1/analyzing/KNN.py:79 | `sort(key=dist)` yields a permutation ordered by distance |
| Neighbours.StableSortTies | v0.1/analyzing/KNN.py:79 | neighbours at equal distance keep their dataset order |
| Neighbours.StableSortSorted | v0.1/analyzing/KNN.py:79 | sorting an already sorted list changes nothing |
| Neighbours.ResortStep | v0.1/analyzing/KNN.py:76-79 | sorting after every append equals sorting once at the end |
| Neighbours.PairsAt | v0.1/analyzing/KNN.py:76-78 | each (row, distance) pair holds its row's distance to the query |
| Neighbours.Nearest | v0.1/analyzing/KNN.py:72-85 | succeeds iff every row fits, the dataset is non-empty and k is at most its size; an empty dataset raises `UnboundLocalError`; the result is the first k of the stably sorted pairs |
| Neighbours.NearestMembers | v0.1/analyzing/KNN.py:72-85 | each nearest neighbour is a dataset row with its true distance |
| Neighbours.NearestLabelled | v0.1/analyzing/KNN.py:72-85 | from a labelled dataset every neighbour has a label |
| Neighbours.NearestPrefix | v0.1/analyzing/KNN.py:82-83 | the k nearest are the first k of any larger request |
| Neighbours.NearestAreClosest | v0.1/analyzing/KNN.py:72-85 | no row left out is closer than a row kept |
| Neighbours.RankAll | v0.1/analyzing/KNN.py:75-79 | the loop builds the sorted ranking or reports the row that does not fit |
| Neighbours.GetNN | v0.1/analyzing/KNN.py:72-85 | `get_nn` returns exactly the specified nearest neighbours, errors included |
| Knn.Load | v0.1/analyzing/KNN.py:14-47 | loading succeeds iff every row has a label column, and keeps the rows and the weight |
| Knn.AyesNays | v0.1/analyzing/KNN.py:58-64 | every neighbour votes healthy or unhealthy, so the two counts add up to k |
| Knn.CountStep | v0.1/analyzing/KNN.py:58-64 | each neighbour adds one to exactly one count |
| Knn.WeightedIsProduct | v0.1/analyzing/KNN.py:66 | repeated addition of the weight is `weight * healthy_sum` |
| Knn.Decide | v0.1/analyzing/KNN.py:66-69 | the verdict is 0 or 1 |
| Knn.DecideMeans | v0.1/analyzing/KNN.py:66-69 | the verdict is 1 iff `weight * healthy_sum > unhealthy_sum` |
| Knn.Outweighs | v0.1/analyzing/KNN.py:66 | evaluating the comparison decides the verdict |
| Knn.DefaultWeight | v0.1/analyzing/KNN.py:14 | with the default weight 1 the verdict is a strict majority of healthy votes |
| Knn.NearestRows | v0.1/analyzing/KNN.py:72-85 | the k nearest rows exist iff every row fits, the dataset is non-empty and k is at most its size; they are dataset rows, labelled when the dataset is |
| Knn.NearestRowsPrefix | v0.1/analyzing/KNN.py:128-146 | the first k of the `k_range` nearest rows are the k nearest rows |
| Knn.GetNN | v0.1/analyzing/KNN.py:72-85 | `get_nn` returns exactly the specified rows |
| Knn.Prediction | v0.1/analyzing/KNN.py:50-69 | the prediction is 0 or 1, and for a loaded dataset exists iff the neighbours do |
| Knn.PredictionVotes | v0.1/analyzing/KNN.py:55-69 | the two counts add up to k, and the prediction is 1 iff the weighted healthy count beats the unhealthy one |
| Knn.PredictionOf | v0.1/analyzing/KNN.py:50-69 | the prediction is the verdict on the nearest rows' votes |
| Knn.CountRows | v0.1/analyzing/KNN.py:58-64 | counting row by row adds the row's vote to the matching count |
| Knn.Predict | v0.1/analyzing/KNN.py:50-69 | `predict` returns exactly the specified prediction |
| Knn.CountLabels | v0.1/analyzing/KNN.py:58-64 | counting fails with `IndexError` iff a row has no label; otherwise it gives the healthy and unhealthy counts |
| Knn.Outcomes | v0.1/analyzing/KNN.py:128-163 | one outcome per k; for a loaded dataset the sweep works iff the nearest neighbours do and the sample has a label |
| Knn.OutcomesOf | v0.1/analyzing/KNN.py:140-163 | the outcome at k is decided by the first k + 1 votes |
| Knn.SweepIsPredict | v0.1/analyzing/KNN.py:140-163 | the sweep's verdict for k + 1 neighbours is exactly what `predict(sample, k + 1)` returns |
| Knn.Scored | v0.1/analyzing/KNN.py:117-163 | each sample in the slice is scored in order |
| Knn.OneCounterEach | v0.1/analyzing/KNN.py:154-163 | for each k, every sample is counted in exactly one of TP, TN, FP and FN |
| Knn.TalliesSnoc | v0.1/analyzing/KNN.py:154-163 | one more sample bumps one counter for each k |
| Knn.TalliedOnSnoc | v0.1/analyzing/KNN.py:117-163 | one more sample in the slice credits its outcomes |
| Knn.PickKConfusion | v0.1/analyzing/KNN.py:97-167 | the four counter vectors have `k_range` entries and add up to the number of samples scored |
| Knn.CountIsMatching | v0.1/analyzing/KNN.py:154-163 | each counter is the number of samples whose outcome is that kind |
| Knn.PickKMeasuresPredict | v0.1/analyzing/KNN.py:97-167 | the counter of a kind at k counts the samples on which `predict(sample, k + 1)` gave that kind |
| Knn.TallyAdvance | v0.1/analyzing/KNN.py:117-123 | samples outside [start, end] are skipped, and the others are credited |
| Knn.PickK | v0.1/analyzing/KNN.py:97-167 | `pick_k` computes the specified counters for the validation slice, or the first error |
| Knn.CountOutcomes | v0.1/analyzing/KNN.py:117-163 | the loop over validation rows computes the specified tally |
| Knn.ScoreSample | v0.1/analyzing/KNN.py:128-163 | one sample bumps exactly its outcomes, or reports the specified error |
| Knn.Tabulate | v0.1/analyzing/KNN.py:140-163 | each k bumps the counter of its outcome |
| Knn.Record | v0.1/analyzing/KNN.py:154-163 | the guess and the truth select the counter to bump |
| Knn.CastVotes | v0.1/analyzing/KNN.py:131-137 | the vote vector holds each neighbour's vote, or reports an unlabelled neighbour |
| Knn.CountVotes | v0.1/analyzing/KNN.py:142-152 | the inner loop counts the healthy and unhealthy votes among the first k + 1 |
| Knn.ReadKFile | v0.1/analyzing/KNN.py:277-304 | `read_k_file` picks the first k whose total over the selected rows is highest, using 400 columns |
| KnnReport.Credit | v0.1/analyzing/KNN.py:261-272 | adding a row keeps the vectors' lengths |
| KnnReport.Aggregate | v0.1/analyzing/KNN.py:239-274 | a successful read gives four vectors of `k_range` entries |
| KnnReport.AggregateAppend | v0.1/analyzing/KNN.py:251-272 | reading two files' rows equals reading them one after the other |
| KnnReport.ReadResults | v0.1/analyzing/KNN.py:239-274 | the loop over rows computes the specified sums |
| KnnReport.ReadRow | v0.1/analyzing/KNN.py:255-272 | one row adds its values to the vector its tag names |
| KnnReport.AggregateFails | v0.1/analyzing/KNN.py:256-262 | a label without the number pattern or a short row raises `IndexError` |
| KnnReport.LabelParts | v0.1/analyzing/KNN.py:178-181 | the written label is "Samples s-e Inclusive: " followed by the tag |
| KnnReport.LabelRange | v0.1/analyzing/KNN.py:178-181 | reading the sample range back from a written label gives the start and end that were written |
| KnnReport.NameContains | v0.1/analyzing/KNN.py:260-272 | no counter's tag contains another's, so a label's tag test picks exactly its counter |
| KnnReport.LabelTag | v0.1/analyzing/KNN.py:260-272 | a written label is read back with the tag it was written with |
| KnnReport.AbsorbWritten | v0.1/analyzing/KNN.py:255-272 | reading a written row adds its values to its counter, and a TP row adds its sample count |
| KnnReport.ReadBack | v0.1/analyzing/KNN.py:169-185 | reading back a freshly written file gives the four vectors cut to `k_range`, and a total of `end - start + 1` |
| KnnReport.WrittenRows | v0.1/analyzing/KNN.py:176-181 | the file holds four rows tagged TP, TN, FP, FN |
| KnnReport.Rate | v0.1/analyzing/KNN.py:203-211 | the rate is `None` iff both counts are zero, lies in [0, 1], and is truthy when the first count is positive |
| KnnReport.F1 | v0.1/analyzing/KNN.py:213-216 | F1 is `None` unless both precision and recall are truthy |
| KnnReport.HarmonicBounds | v0.1/analyzing/KNN.py:214 | the F1 of two rates in (0, 1] lies in (0, 1] |
| KnnReport.Metrics | v0.1/analyzing/KNN.py:200-216 | one set of metrics per k |
| KnnReport.MetricsDefined | v0.1/analyzing/KNN.py:200-216 | with a positive total and counts long enough, every k has defined metrics in range |
| KnnReport.BestOf | v0.1/analyzing/KNN.py:218-229 | the best is the first strict maximum, with k = 0 iff no score beats 0 |
| KnnReport.BestStep | v0.1/analyzing/KNN.py:218-229 | a new score replaces the best only when strictly larger |
| KnnReport.ScoreGate | v0.1/analyzing/KNN.py:221-227 | `metric and metric > best` holds exactly when its score beats the best |
| KnnReport.CalculatePerformance | v0.1/analyzing/KNN.py:188-236 | the best k and value of each metric are exactly the specified ones |
| KnnReport.Improve | v0.1/analyzing/KNN.py:218-220 | the accuracy update keeps the first strict maximum |
| KnnReport.ImproveOn | v0.1/analyzing/KNN.py:221-229 | the update for a metric that may be `None` keeps the first strict maximum |
| KnnReport.Measure | v0.1/analyzing/KNN.py:201-216 | the metrics for one k are the specified ones |
| KnnReport.Ratio | v0.1/analyzing/KNN.py:203-211 | the division computes the specified rate |
| KnnReport.Harmonic | v0.1/analyzing/KNN.py:213-216 | the F1 computation yields the specified value |
| Sweep.Picked | v0.1/analyzing/KNN.py:288-292 | the rows kept are a subsequence of the file |
| Sweep.PickedIsSlice | v0.1/analyzing/KNN.py:288-292 | skipping below start and stopping after end keeps exactly the slice [start, end] |
| Sweep.Zeros | v0.1/analyzing/KNN.py:283 | `[0] * n` has n zeros |
| Sweep.Accumulate | v0.1/analyzing/KNN.py:296-297 | the totals gain each value in its column |
| Sweep.TotalsAreColumnSums | v0.1/analyzing/KNN.py:283-297 | the totals exist iff no row is wider than the totals, and are then the column sums |
| Sweep.MaxOf | v0.1/analyzing/KNN.py:299 | `max` is a member of the list and bounds it |
| Sweep.IndexOf | v0.1/analyzing/KNN.py:300 | `index` finds the first position of the value |
| Sweep.KChoice | v0.1/analyzing/KNN.py:277-304 | the chosen k is one plus the first position of the largest total, and fails iff some selected row is too wide |
| Sweep.ReadKFile | v0.1/analyzing/WeightedKNN.py:185-211 | the loop computes the specified choice |
| Sweep.ChoiceOf | v0.1/analyzing/KNN.py:299-300 | successful totals give the first arg-max plus one |
| Sweep.ChoiceOfErr | v0.1/analyzing/KNN.py:297 | a row wider than the totals raises `IndexError` |
| Sweep.Advance | v0.1/analyzing/KNN.py:288-297 | each row outside the slice is skipped, and each row inside it is added |
| Text.DigitValue | v0.1/analyzing/KNN.py:256-257 | each digit character has a value below ten |
| Text.NatString | v0.1/analyzing/KNN.py:178 | `str(n)` of a natural number is a non-empty run of digits without a leading zero |
| Text.NatStringRoundTrip | v0.1/analyzing/KNN.py:256-257 | `int(str(n)) == n` |
| Text.DigitRun | v0.1/analyzing/KNN.py:256-257 | `\d+` takes the longest run of digits |
| Text.MatchBeforeDash | v0.1/analyzing/KNN.py:256 | `(\d+)-` captures a non-empty run of digits |
| Text.MatchAfterDash | v0.1/analyzing/KNN.py:257 | `-(\d+)` captures a non-empty run of digits |
| WeightedKnn.Load | v0.1/analyzing/WeightedKNN.py:12-41 | loading succeeds iff every row has a label column, otherwise `IndexError` |
| WeightedKnn.Inv | v0.1/analyzing/WeightedKNN.py:81-84 | a distance of zero counts as one, so every weight is positive |
| WeightedKnn.Vote | v0.1/analyzing/WeightedKNN.py:91-94 | the vote is 0 or 1 |
| WeightedKnn.SupportSplits | v0.1/analyzing/WeightedKNN.py:86-89 | the healthy and unhealthy sums add up to the total weight |
| WeightedKnn.SupportSign | v0.1/analyzing/WeightedKNN.py:86-89 | the sums are non-negative, zero for a side nobody voted for, positive for a side somebody did |
| WeightedKnn.Unanimous | v0.1/analyzing/WeightedKNN.py:79-94 | unanimous healthy neighbours give 1 and unanimous unhealthy neighbours give 0 |
| WeightedKnn.EqualDistancesIsMajority | v0.1/analyzing/WeightedKNN.py:79-94 | when all neighbours are equally far, the weighted vote is the plain majority vote |
| WeightedKnn.ScaleInvariant | v0.1/analyzing/WeightedKNN.py:79-94 | multiplying every distance by the same positive factor does not change the vote |
| WeightedKnn.VoteByTotals | v0.1/analyzing/WeightedKNN.py:91-94 | the vote is 1 iff the healthy sum exceeds the unhealthy sum |
| WeightedKnn.Prediction | v0.1/analyzing/WeightedKNN.py:70-94 | the prediction is 0 or 1 and exists only when the nearest neighbours do |
| WeightedKnn.PredictionLoaded | v0.1/analyzing/WeightedKNN.py:70-94 | for a loaded dataset the prediction exists iff the nearest neighbours do |
| WeightedKnn.PredictionSums | v0.1/analyzing/WeightedKNN.py:76-94 | the prediction is 1 iff the healthy sum is larger, and the sums add up to the total weight |
| WeightedKnn.Predict | v0.1/analyzing/WeightedKNN.py:70-94 | `predict` returns exactly the specified prediction |
| WeightedKnn.Weigh | v0.1/analyzing/WeightedKNN.py:79-89 | the loop gives the two sums, or `IndexError` for an unlabelled neighbour |
| WeightedKnn.Judgement | v0.1/analyzing/WeightedKNN.py:126-172 | 300 judgements; they exist only when the 300 nearest neighbours do and the sample has a label |
| WeightedKnn.PickKNeedsRows | v0.1/analyzing/WeightedKNN.py:126 | the sweep needs at least 300 training rows, and suffices when rows fit and the sample is labelled |
| WeightedKnn.JudgementOf | v0.1/analyzing/WeightedKNN.py:138-172 | the judgement at k is whether the vote of the first k + 1 ballots was right |
| WeightedKnn.SweepIsPredict | v0.1/analyzing/WeightedKNN.py:138-172 | the sweep's verdict for k + 1 neighbours is exactly what `predict(sample, k + 1)` returns |
| WeightedKnn.Judged | v0.1/analyzing/WeightedKNN.py:111-173 | each sample in the slice is judged in order |
| WeightedKnn.HitsBounded | v0.1/analyzing/WeightedKNN.py:157-172 | no k is right more often than there are samples |
| WeightedKnn.CorrectsSnoc | v0.1/analyzing/WeightedKNN.py:157-172 | one more sample raises each count by its judgement |
| WeightedKnn.CorrectOnSnoc | v0.1/analyzing/WeightedKNN.py:111-173 | one more sample in the slice credits its judgements |
| WeightedKnn.HitsIsHitting | v0.1/analyzing/WeightedKNN.py:157-172 | the count at k is the number of samples the k-th vote got right |
| WeightedKnn.PickKMeasuresPredict | v0.1/analyzing/WeightedKNN.py:97-182 | `correct_counts[k]` counts the samples on which `predict(sample, k + 1)` matched the label |
| WeightedKnn.PickKStep | v0.1/analyzing/WeightedKNN.py:157-172 | each sample raises each count by at most one |
| WeightedKnn.CorrectAdvance | v0.1/analyzing/WeightedKNN.py:111-118 | samples outside [start, end] are skipped, and the others are credited |
| WeightedKnn.PickK | v0.1/analyzing/WeightedKNN.py:97-182 | `pick_k` computes the specified counts for the validation slice, or the first error |
| WeightedKnn.CountCorrect | v0.1/analyzing/WeightedKNN.py:111-173 | the loop over validation rows computes the specified counts |
| WeightedKnn.JudgeSample | v0.1/analyzing/WeightedKNN.py:122-172 | one sample raises exactly the counts it got right, or reports the specified error |
| WeightedKnn.CastBallots | v0.1/analyzing/WeightedKNN.py:129-134 | the ballot vector holds each neighbour's vote and distance, or reports an unlabelled neighbour |
| WeightedKnn.Tally | v0.1/analyzing/WeightedKNN.py:157-172 | each k that was right gains one |
| WeightedKnn.WeighPrefix | v0.1/analyzing/WeightedKNN.py:140-155 | the inner loop computes the two sums over the first k + 1 ballots |
| WeightedKnn.ReadKFile | v0.1/analyzing/WeightedKNN.py:185-211 | `read_k_file` picks the first k whose total is highest, using 300 columns |

## Left out

- Reading and writing files is not modelled. This covers `file_to_db`, `os.listdir`,
  `file_to_dataset`'s CSV parsing, `samples_to_file`, and the `open` and `csv.writer` calls
  of `pick_k` and `results_to_file`. Databases, rows and written rows are parameters and
  results.
- `ResultsToFile` models the rows a call writes, not the append to an existing file.
- `print` output, `__str__` and `test_quality` (KNN.py:306-322) are left out. They only
  report values that the model computes.
- The healthy and failing counters in `switches_to_samples` and `file_to_dataset` are only
  printed, so they are not modelled.
- `math.sqrt` is the parameter `root`. The model does not state its numeric behaviour, only
  that neighbours are sorted by the value it returns.
- `np.std` is the parameter `std`. Mean, maximum and slope are modelled exactly over reals.
- Floating-point rounding, infinities other than the `-inf`/`+inf` initial limits, and NaN
  are not modelled. Floats are `real`.
- `random.randint` and `random.randrange` are modelled by an index chosen arbitrarily within
  the range the source passes. Only the distribution is abstracted. For `small_set` that range
  is `randrange(0, size)`, with `size` starting at `len(training) - 1` and shrinking on every
  pass, and its `ValueError` once `size` reaches 0 is modelled.
- The telemetry JSON is reduced as follows:
  - day keys are ints, not strings;
  - an event is reduced to its status;
  - a database is a sequence of (key, switch) entries in dictionary order.
- A switch record always has `model`, `events` and the six series, its readings are numbers
  and its event descriptors are non-empty. Only `switch_name` and `site_code` may be missing.
  The errors a malformed record would raise are not modelled:
  - the `KeyError` of `database[key]["model"]`, `["ping_latency_max"]`, `switch["events"]`,
    `switch[stat]` and `switch["model"]` (analyzing/Grabber.py:85, 112, 179, 199 and
    v0.2/analyzing/Grabber.py:73, 96, 176, 194);
  - the `ValueError` or `TypeError` of `int()` on an event key and of `float()` or `int()` on
    a reading (analyzing/Grabber.py:113, 200-205 and v0.2/analyzing/Grabber.py:97, 195-200);
  - the `IndexError` of `events[str(end_day)][0]` on an empty descriptor
    (analyzing/Grabber.py:127 and v0.2/analyzing/Grabber.py:111).
- `WeightedKNN.weight` (WeightedKNN.py:16) is never read, so the classifier has no such field.
- Text.IsDigit: the digit class is ASCII `0`-`9`, while Python's `\d` also matches other
  Unicode decimal digits. The labels it reads are written by the program with `str(n)`.
- `main.py`, `Trainer`, `Tester` and `NeuralNetwork` are not part of this model.
- GrabberV1.RaiseAll: uses the corrected test "limit is None" in place of `not limit` at
  analyzing/Grabber.py:230 and 236. The as-written test is modelled separately by
  `Limits.TopAsWritten` and `Limits.BotAsWritten`. See "Findings".
- GrabberV1.LowerAll: uses the corrected test as well. See "Findings".
- GrabberV1.WidenEncloses: holds for the corrected test only. As written, 0.0 then -1.0 leaves
  the recorded 0.0 above the upper limit.
- GrabberV1.Admit: widens with the corrected test, not `not limit`.
- GrabberV1.RaisedToEnds: its end table is the one the corrected test gives.
- GrabberV1.LoweredToEnds: its end table is the one the corrected test gives.
- GrabberV1.RaiseLimits: tests `limit is None or value > limit`. A 0.0 limit is kept where the
  source overwrites it.
- GrabberV1.LowerLimits: tests `limit is None or value < limit`. A 0.0 limit is kept where the
  source overwrites it.
- GrabberV1.Grabber.Valid: its enclosure invariant holds for the corrected test only. Every
  method that keeps it inherits that test.
- GrabberV1.Grabber.MakeSample: widens with the corrected test, so held samples stay enclosed
  only for the corrected program.
- GrabberV1.Grabber.File: widens with the corrected test and keeps `Valid()`. The program as
  written does not.
- GrabberV1.Grabber.UpdateLimits: produces the corrected tables. As written, 0.0 then -1.0
  leaves a held sample outside them.
- GrabberV1.Grabber.SetLimits: "keeps every held sample enclosed" holds for the corrected
  test only.
- GrabberV1.Grabber.HeldNormalizes: [0, 1] holds for the corrected test only. As written, the
  values 0.0, -1.0 and -2.0 give limits -1.0 and -2.0, and the first sample normalises to 2.0.

## Findings

| source | as written | input that shows it | evidently intended | confidence | as-written member | corrected member |
|---|---|---|---|---|---|---|
| analyzing/Grabber.py:230 | `if not limit or value > limit` treats a limit of 0.0 as unset and overwrites it | values 0.0 then -1.0 for one statistic: the upper limit ends at -1.0, below the recorded 0.0; a lower limit of 0.0 followed by 1.0 becomes 1.0 | `if limit is None or value > limit`, so the limits enclose every recorded value | high (not executed) | Limits.TopAsWrittenNarrows | Limits.LimitsEncloseAll |
