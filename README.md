# Hydrogen.Prometheus.Client in Dafny

A model of the core of Hydrogen.Prometheus.Client, a .NET client library for
Prometheus metrics, with proofs about it:

- `common.dfy` (module `Common`): options, results, one error constructor per
  exception the core throws, and the .NET whitespace rules behind
  `string.IsNullOrWhiteSpace` and `string.Trim`.
- `label_arrays.dfy` (`LabelArrays`): `LabelArrayEqualityComparer`, the
  equality and 32-bit wrapping hash of the label-value arrays that key every
  collector's children.
- `samples.dfy` (`Samples`): `MetricFamilySamples` and `Sample`, with their
  validating constructors; `CollectorType`; the Go spelling of doubles.
- `collectors.dfy` (`Collectors`): the name patterns and checks of
  `Collector`, the fluent `Builder`, the checks of the `Collector`
  constructor, and the child container `Collector<TChild>` (`Labels`,
  `Remove`, `Clear`, the re-created child of a collector without labels).
- `counters.dfy`, `gauges.dfy` (`Counters`, `Gauges`): the child classes with
  their value updates, and `Collect`.
- `histograms.dfy` (`Histograms`): bucket bounds and the checks of
  `HistogramBuilder.Create`, `LinearBuckets`, the per-child bucket counts
  (`Observe`, `GetValue`) and the samples `Collect` reports.
- `registry.dfy` (`Registry`): `CollectorRegistry`'s two dictionaries,
  `Register` (all or nothing), `Unregister`, and the gathered families.
- `text_format.dfy` (`TextFormat`): the text exposition writer, version 0.0.4.
  Stream output is a `Writer` object whose text grows with each write.

Modelling choices:

- A .NET `double` is an exact `real` for finite values, plus the infinities
  and NaN where they can reach the output (`Samples.Double`,
  `Histograms.Bound`).
- `double.ToString()` is a parameter `fmt: real -> string`, because it
  depends on the culture.
- `string.GetHashCode` is a parameter `h`, because it is randomised per
  process.
- A nullable label value is an `Option<string>`.
- An exception is an `Err`/`Fail` value that names it.
- The lock-free adds (`ThreadSafeDouble.Add`) and `Interlocked.Exchange` are
  modelled by their sequential effect.
- A dictionary is a `map` plus its enumeration order, kept as a `seq` of
  keys in insertion order. Insertion order stands for the dictionary's own
  order, which `ConcurrentDictionary` and `Dictionary` leave unspecified.
- `Collector<TChild>.NewChild()` is abstract. The container therefore takes
  the freshly built child as an argument (`candidate`); each collector class
  builds it with its own `NewChild`.

Two behaviours of the code that a reader might expect otherwise are
modelled as written:

- The `Collector` constructor does not create the child of a collector
  without labels. Only `Remove` and `Clear` create it, through
  `InitializeNoLabelsChild`.
- Repeated label names are not rejected.

Some lines do not compile as written. They are read as their evident intent:

- `CollectorType.Guage` and `CollectorType.SUMMARY` are read as `Gauge` and
  `Summary`.
- `sample.LabelNames.Length` on an `IList` is read as its count.
- `LabelNames` inside the collectors' `Collect` methods, a property
  `Collector` does not declare, is read as the collector's `_labelNames`.

## Model

| member | source | states |
|---|---|---|
| Common.TrimSpec | src/Hydrogen.Prometheus.Client/Collector.cs:233 | `Trim` returns a contiguous piece of the input, and everything cut off before and after it is whitespace; neither end of a non-empty result is whitespace; the result is empty exactly when the input is blank |
| Common.TrimIdempotent | src/Hydrogen.Prometheus.Client/Collector.cs:242 | trimming a trimmed setting again changes nothing |
| LabelArrays.Wrap32 | src/Hydrogen.Prometheus.Client/Internal/LabelArrayEqualityComparer.cs:51-54 | the unchecked 32-bit result is a signed 32-bit value congruent to the exact one modulo 2^32 |
| LabelArrays.Strings | src/Hydrogen.Prometheus.Client/Internal/LabelArrayEqualityComparer.cs:53 | an array without null is its strings, one per position |
| LabelArrays.Equals | src/Hydrogen.Prometheus.Client/Internal/LabelArrayEqualityComparer.cs:23-39 | the early-exit loop returns true exactly when the two arrays have the same length and the same value at every position |
| LabelArrays.GetHashCode | src/Hydrogen.Prometheus.Client/Internal/LabelArrayEqualityComparer.cs:45-57 | fails with a null reference exactly when some value is null; otherwise returns the fold from 17 of `result * 23 + h(value)`, wrapped to 32 bits |
| LabelArrays.ComparerContract | src/Hydrogen.Prometheus.Client/Internal/LabelArrayEqualityComparer.cs:23-57 | the comparer's equality is reflexive, symmetric and transitive; arrays of different lengths are never equal (lines 27-30); arrays it calls equal have equal hashes, as the dictionary requires |
| LabelArrays.HashOfShortArrays | src/Hydrogen.Prometheus.Client/Internal/LabelArrayEqualityComparer.cs:48-56 | the empty array hashes to 17; a one-element array hashes to 17 * 23 + h(s), wrapped |
| LabelArrays.HashAppend | src/Hydrogen.Prometheus.Client/Internal/LabelArrayEqualityComparer.cs:49-55 | appending a value multiplies the hash of the prefix by 23 and adds the value's hash, wrapped |
| Samples.NewSample | src/Hydrogen.Prometheus.Client/MetricFamilySamples.cs:68-79 | succeeds exactly for a non-blank name and non-null label lists, and stores all four fields; otherwise reports a blank name, then null label names, then null label values, in that order |
| Samples.NewFamily | src/Hydrogen.Prometheus.Client/MetricFamilySamples.cs:18-34 | succeeds exactly for a non-blank name and help and a non-null sample list, and stores the fields; otherwise reports a blank name, then a blank help, then null samples |
| Samples.GoStringSpellings | src/Hydrogen.Prometheus.Client/Internal/StringExtensions.cs:12-27 | the infinities and NaN are spelled `+Inf`, `-Inf` and `NaN`; with a one-to-one formatter that never produces those spellings, different doubles are spelled differently |
| Collectors.TrailingNewlineAccepted | src/Hydrogen.Prometheus.Client/Collector.cs:22-23 | as written, both name patterns accept `"a\n"`, which is not a valid name |
| Collectors.CheckedNamesAreNewlineFree | src/Hydrogen.Prometheus.Client/Collector.cs:85-107 | with the corrected patterns, a metric name or label name that passes its check contains no newline |
| Collectors.CheckMetricName | src/Hydrogen.Prometheus.Client/Collector.cs:85-91 | passes exactly for names matching `[a-zA-Z_:][a-zA-Z0-9_:]*`, and otherwise fails naming the name |
| Collectors.CheckMetricLabelName | src/Hydrogen.Prometheus.Client/Collector.cs:97-107 | passes exactly for names matching `[a-zA-Z_][a-zA-Z0-9_]*` that do not start with `__`; the pattern error comes before the reserved-prefix error |
| Collectors.CheckLabelNamesReportsFirst | src/Hydrogen.Prometheus.Client/Collector.cs:69-73 | checking the label names in order passes exactly when every name is valid, and otherwise reports the first invalid one's error |
| Collectors.CheckLabelNames | src/Hydrogen.Prometheus.Client/Collector.cs:70-73 | the constructor's loop over the label names reports what the in-order check specifies |
| Collectors.FullNameShape | src/Hydrogen.Prometheus.Client/Collector.cs:51-60 | the full name is the non-blank ones of namespace and subsystem, then the name, joined by underscores; so it ends with the name and starts with the first non-blank prefix and its underscore |
| Collectors.ValidMetricNameNotBlank | src/Hydrogen.Prometheus.Client/Collector.cs:61 | a name that passed the metric-name check, and any name extending it, passes the non-blank checks of samples and families |
| Collectors.Configure | src/Hydrogen.Prometheus.Client/Collector.cs:40-74 | construction succeeds exactly when the name is set, the full name is valid, the help is set and every label name is valid, and keeps those values; otherwise the first failing check's error is reported, in the constructor's order, and for label names it is the first invalid name's error |
| Collectors.Validate | src/Hydrogen.Prometheus.Client/Collector.cs:40-74 | the constructor's checks, with the label-name loop, give what `Configure` specifies |
| Collectors.Builder.constructor | src/Hydrogen.Prometheus.Client/Collector.cs:117-137 | a new builder holds empty name, namespace, subsystem and help, and no label names |
| Collectors.Builder.WithName | src/Hydrogen.Prometheus.Client/Collector.cs:226-235 | a blank name is rejected and nothing changes; otherwise the trimmed name is stored, which is not blank, and nothing else changes |
| Collectors.Builder.WithNamespace | src/Hydrogen.Prometheus.Client/Collector.cs:240-244 | stores the trimmed namespace and changes nothing else |
| Collectors.Builder.WithSubsystem | src/Hydrogen.Prometheus.Client/Collector.cs:249-253 | stores the trimmed subsystem and changes nothing else |
| Collectors.Builder.WithHelp | src/Hydrogen.Prometheus.Client/Collector.cs:258-267 | a blank help text is rejected and nothing changes; otherwise the trimmed text is stored, which is not blank |
| Collectors.Builder.WithLabels | src/Hydrogen.Prometheus.Client/Collector.cs:272-276 | stores the label names and changes nothing else |
| Collectors.RemoveKey | src/Hydrogen.Prometheus.Client/Collector.cs:182 | after a removal the enumeration order holds exactly the other keys, still without repeats |
| Collectors.Collector.constructor | src/Hydrogen.Prometheus.Client/Collector.cs:147-152 | a new collector keeps its validated name, help and label names, and has no children and no default child |
| Counters.LabelsReturnsSameInstance | src/Hydrogen.Prometheus.Client/Collector.cs:160-171 | asking a counter twice for the same label values gives back the same child; other values give a different child |
| Collectors.Collector.Labels | src/Hydrogen.Prometheus.Client/Collector.cs:160-171 | the wrong number of values is rejected, and so is a null value; for a known key the existing child is returned and nothing changes; a new key gets the new child, which is appended to the enumeration order; the container invariant is kept |
| Collectors.Collector.FamilySamplesList | src/Hydrogen.Prometheus.Client/Collector.cs:197-201 | exactly one family, valid, with the collector's full name and help and the given kind and samples |
| Collectors.Collector.InitializeNoLabelsChild | src/Hydrogen.Prometheus.Client/Collector.cs:203-210 | a collector without label names gets the empty key back, and its default child is that key's child; otherwise nothing changes |
| Collectors.Collector.Remove | src/Hydrogen.Prometheus.Client/Collector.cs:176-184 | a null value fails and changes nothing; otherwise that key's child is removed, the others are kept, and the no-labels child is re-created |
| Collectors.Collector.Clear | src/Hydrogen.Prometheus.Client/Collector.cs:189-193 | every child is removed; then a collector without label names gets a fresh default child under the empty key |
| Collectors.ReseededHasDefault | src/Hydrogen.Prometheus.Client/Collector.cs:203-210 | without label names, the empty key is always present after re-seeding, and an existing default child is kept |
| Collectors.ReseededWithLabels | src/Hydrogen.Prometheus.Client/Collector.cs:176-193 | with label names, `Remove` deletes exactly one entry and keeps every other one; `Clear` leaves nothing |
| Collectors.OrderEnumeratesChildren | src/Hydrogen.Prometheus.Client/Counter.cs:29-32 | the enumeration order lists each child's key exactly once |
| Counters.ReplayNeverDecreases | src/Hydrogen.Prometheus.Client/Counter.cs:72-85 | no run of `Increment` calls, rejected ones included, makes a counter go down |
| Counters.ReplayAppend | src/Hydrogen.Prometheus.Client/Counter.cs:72-85 | a run of calls is its first part followed by the rest |
| Counters.ReplayMonotone | src/Hydrogen.Prometheus.Client/Counter.cs:11 | every value a counter passes through is at most every later one |
| Counters.ReplayAddsSum | src/Hydrogen.Prometheus.Client/Counter.cs:72-85 | with no negative amounts, a counter grows by exactly their sum |
| Counters.Child.constructor | src/Hydrogen.Prometheus.Client/Counter.cs:55-57 | a new child is at 0 |
| Counters.Child.IncrementBy | src/Hydrogen.Prometheus.Client/Counter.cs:72-85 | a negative amount is rejected and changes nothing; zero changes nothing; a positive amount is added |
| Counters.Child.Increment | src/Hydrogen.Prometheus.Client/Counter.cs:67 | adds one |
| Counters.Counter.constructor | src/Hydrogen.Prometheus.Client/Counter.cs:21 | a counter over a new container with the validated configuration and no children |
| Counters.Counter.NewChild | src/Hydrogen.Prometheus.Client/Counter.cs:36 | a fresh child at 0 |
| Counters.Counter.SamplesOf | src/Hydrogen.Prometheus.Client/Counter.cs:29-32 | one sample per key: the full name, the label names, the key as label values, and that child's value |
| Counters.Counter.Families | src/Hydrogen.Prometheus.Client/Counter.cs:26-34 | one valid Counter family under the collector's name and help, with one sample per child |
| Counters.Counter.Collect | src/Hydrogen.Prometheus.Client/Counter.cs:26-34 | the loop over the children returns what `Families` specifies, in insertion order, standing for the dictionary's unspecified order |
| Counters.Build | src/Hydrogen.Prometheus.Client/Counter.cs:93 | fails with the constructor's first failing check; otherwise returns a fresh, valid counter with the configured full name, help and label names, and no children |
| Gauges.ApplyAllAppend | src/Hydrogen.Prometheus.Client/Gauge.cs:71-94 | a run of calls is its first part followed by the rest |
| Gauges.ApplyAllIsNet | src/Hydrogen.Prometheus.Client/Gauge.cs:71-89 | without `Set`, the final value is the start plus the increments minus the decrements |
| Gauges.SetOverridesHistory | src/Hydrogen.Prometheus.Client/Gauge.cs:94 | after `Set(x)` the value depends only on `x` and the later calls |
| Gauges.DecrementIsNegatedIncrement | src/Hydrogen.Prometheus.Client/Gauge.cs:84-89 | `Decrement(x)` is `Increment(-x)`, and it undoes `Increment(x)` |
| Gauges.Child.constructor | src/Hydrogen.Prometheus.Client/Gauge.cs:54-56 | a new child is at 0 |
| Gauges.Child.IncrementBy | src/Hydrogen.Prometheus.Client/Gauge.cs:71-79 | the amount is added; zero leaves the value as it was |
| Gauges.Child.Increment | src/Hydrogen.Prometheus.Client/Gauge.cs:66 | adds one |
| Gauges.Child.DecrementBy | src/Hydrogen.Prometheus.Client/Gauge.cs:89 | subtracts the amount |
| Gauges.Child.Decrement | src/Hydrogen.Prometheus.Client/Gauge.cs:84 | subtracts one |
| Gauges.Child.SetTo | src/Hydrogen.Prometheus.Client/Gauge.cs:94 | the value becomes the given one |
| Gauges.Child.SetToCurrentTime | src/Hydrogen.Prometheus.Client/Gauge.cs:99 | the value becomes the given Unix time in seconds |
| Gauges.Child.Perform | src/Hydrogen.Prometheus.Client/Gauge.cs:71-94 | one call of a run has the effect `Apply` specifies |
| Gauges.Gauge.constructor | src/Hydrogen.Prometheus.Client/Gauge.cs:20 | a gauge over a new container with the validated configuration and no children |
| Gauges.Gauge.NewChild | src/Hydrogen.Prometheus.Client/Gauge.cs:35 | a fresh child at 0 |
| Gauges.Gauge.SamplesOf | src/Hydrogen.Prometheus.Client/Gauge.cs:28-31 | one sample per key: the full name, the label names, the key as label values, and that child's value |
| Gauges.Gauge.Families | src/Hydrogen.Prometheus.Client/Gauge.cs:25-33 | one valid Gauge family under the collector's name and help, with one sample per child |
| Gauges.Gauge.Collect | src/Hydrogen.Prometheus.Client/Gauge.cs:25-33 | the loop over the children returns what `Families` specifies, in insertion order, standing for the dictionary's unspecified order |
| Gauges.Build | src/Hydrogen.Prometheus.Client/Gauge.cs:107 | fails with the constructor's first failing check; otherwise returns a fresh, valid gauge with the configured full name, help and label names, and no children |
| Histograms.IncreasingIsOrdered | src/Hydrogen.Prometheus.Client/Histogram.cs:186-193 | bounds checked pair by pair are ordered between any two positions |
| Histograms.FirstDescent | src/Hydrogen.Prometheus.Client/Histogram.cs:186-193 | finds nothing exactly when every adjacent pair increases; otherwise finds the first pair that does not |
| Histograms.CheckedBuckets | src/Hydrogen.Prometheus.Client/Histogram.cs:181-202 | succeeds exactly for non-empty, strictly increasing bounds; otherwise reports no buckets, or the first offending pair; on success returns the bounds with `+Inf` appended unless it is already last, and the result is valid |
| Histograms.AppendInfinity | src/Hydrogen.Prometheus.Client/Histogram.cs:195-202 | appending `+Inf` to increasing finite bounds keeps them increasing and ending in `+Inf` |
| Histograms.LinearBucketsChecked | src/Hydrogen.Prometheus.Client/Histogram.cs:153-161 | linear bounds with a positive width pass the checks and get `+Inf` appended; with a width of at most 0, the first pair fails |
| Histograms.FirstAtLeast | src/Hydrogen.Prometheus.Client/Histogram.cs:99-107 | the first bucket whose bound is at least the value; every earlier bound is below it |
| Histograms.FirstAtLeastSplits | src/Hydrogen.Prometheus.Client/Histogram.cs:101 | with valid bounds every value has a bucket, and bound `j` is at least the value exactly from that bucket on |
| Histograms.PrefixSums | src/Hydrogen.Prometheus.Client/Histogram.cs:111-121 | element `i` is the total of the counts up to and including `i` |
| Histograms.TotalUpdate | src/Hydrogen.Prometheus.Client/Histogram.cs:115-119 | adding `d` to count `k` adds `d` to the total of every prefix that contains `k` |
| Histograms.TotalMonotone | src/Hydrogen.Prometheus.Client/Histogram.cs:115-119 | with non-negative counts, the running totals never go down |
| Histograms.PrefixSumsProperties | src/Hydrogen.Prometheus.Client/Histogram.cs:111-121 | the cumulative counts are as many as the buckets, end at the total, and do not decrease when the counts are non-negative |
| Histograms.ObservedCumulative | src/Hydrogen.Prometheus.Client/Histogram.cs:97-121 | after observing `v`, cumulative bucket `j` grows by one exactly when `v` is at most bound `j`, and the total grows by one |
| Histograms.ObserveAsWrittenExample | src/Hydrogen.Prometheus.Client/Histogram.cs:104 | with bounds `1, +Inf` and an observation of 0.5, the code as written moves the first bound to 1.5 and reports counts `0, 0`; corrected, it reports `1, 1` |
| Histograms.PrefixSumsOfTwo | src/Hydrogen.Prometheus.Client/Histogram.cs:111-121 | two counts `a, b` have running totals `a, a + b` |
| Histograms.Child.constructor | src/Hydrogen.Prometheus.Client/Histogram.cs:87-91 | a new child holds the bounds, one zero count per bound, and a zero sum |
| Histograms.Child.Observe | src/Hydrogen.Prometheus.Client/Histogram.cs:97-109 | corrected: counts the value in its bucket, keeps the bounds, and adds the value to the sum |
| Histograms.Child.ObserveAsWritten | src/Hydrogen.Prometheus.Client/Histogram.cs:97-109 | as written: the value is added to the bound of its bucket, no count changes, and the sum grows by the value |
| Histograms.Child.GetValue | src/Hydrogen.Prometheus.Client/Histogram.cs:111-121 | returns a new array of the running totals of the counts, and the sum |
| Histograms.Histogram.constructor | src/Hydrogen.Prometheus.Client/Histogram.cs:29-33 | a histogram with the validated configuration, the checked bounds, and no children |
| Histograms.Histogram.NewChild | src/Hydrogen.Prometheus.Client/Histogram.cs:63 | corrected: a fresh child over this histogram's bounds, with zero counts and sum |
| Histograms.Histogram.NewChildAsWritten | src/Hydrogen.Prometheus.Client/Histogram.cs:63 | as written: always throws NotImplementedException |
| Histograms.Histogram.Labels | src/Hydrogen.Prometheus.Client/Collector.cs:160-171 | with the corrected `NewChild`: rejects a wrong value count or a null value and changes nothing; a known key returns its child; a new key gets a fresh child over the histogram's bounds, with zero counts and a zero sum, appended to the enumeration order; the no-labels child is never changed |
| Histograms.Histogram.LabelsAsWritten | src/Hydrogen.Prometheus.Client/Histogram.cs:63 | as written: a known key returns its child, but every new key fails with NotImplementedException, so no child is ever created |
| Histograms.Histogram.BucketSamples | src/Hydrogen.Prometheus.Client/Histogram.cs:43-55 | corrected: bucket sample `i` is named `_bucket`, adds the `le` label whose value is bound `i`, and reports cumulative count `i` |
| Histograms.Histogram.BucketSamplesAsWritten | src/Hydrogen.Prometheus.Client/Histogram.cs:48-55 | as written: bucket sample `i` has cumulative count `i` as its `le` value |
| Histograms.Histogram.AsWrittenLeRepeats | src/Hydrogen.Prometheus.Client/Histogram.cs:52 | as written, two buckets with equal cumulative counts are reported with identical names and labels |
| Histograms.Histogram.BucketLabelsDistinct | src/Hydrogen.Prometheus.Client/Histogram.cs:48-55 | corrected, the buckets of one child have pairwise different `le` values |
| Histograms.Histogram.ChildSamples | src/Hydrogen.Prometheus.Client/Histogram.cs:47-58 | one child reports one sample per bound, then `_count`, then `_sum` |
| Histograms.Histogram.ChildSamplesShape | src/Hydrogen.Prometheus.Client/Histogram.cs:47-58 | for raw counts `c`: bucket `i` reports the total of `c[0..i]`, labelled with bound `i`; `_count` reports the total of all counts, under the plain label names; `_sum` reports the sum |
| Histograms.Histogram.Readings | src/Hydrogen.Prometheus.Client/Histogram.cs:47 | one reading per key: that child's running totals and sum |
| Histograms.Histogram.SamplesOfReadingsLength | src/Hydrogen.Prometheus.Client/Histogram.cs:41-59 | the children together report `|bounds| + 2` samples each |
| Histograms.Histogram.FamiliesShape | src/Hydrogen.Prometheus.Client/Histogram.cs:38-61 | `Collect` reports one family with `|bounds| + 2` samples per child |
| Histograms.Histogram.CollectChild | src/Hydrogen.Prometheus.Client/Histogram.cs:43-58 | the loop body for one child returns that child's samples from its current running totals and sum |
| Histograms.Histogram.CollectAll | src/Hydrogen.Prometheus.Client/Histogram.cs:41-59 | the loop over the children returns every child's samples, in insertion order, standing for the dictionary's unspecified order |
| Histograms.Histogram.Collect | src/Hydrogen.Prometheus.Client/Histogram.cs:38-61 | one valid Histogram family under the collector's name and help, holding every child's samples |
| Histograms.HistogramBuilder.constructor | src/Hydrogen.Prometheus.Client/Histogram.cs:129-135 | a new builder holds empty settings and the default bounds |
| Histograms.HistogramBuilder.WithBuckets | src/Hydrogen.Prometheus.Client/Histogram.cs:141-145 | stores the given bounds; null restores the defaults |
| Histograms.HistogramBuilder.LinearBuckets | src/Hydrogen.Prometheus.Client/Histogram.cs:153-161 | a negative count fails and changes nothing; otherwise bound `i` is `start + i * width`, `count` of them |
| Histograms.HistogramBuilder.Create | src/Hydrogen.Prometheus.Client/Histogram.cs:179-210 | in the source's order: the bucket checks, with the extended bounds stored back in the builder; then the `le` label check; then the collector constructor's checks; on success, a fresh, valid histogram over the checked bounds, with the configured full name, help and label names, and no children |
| Registry.CollectorNames | src/Hydrogen.Prometheus.Client/CollectorRegistry.cs:75-85 | a non-empty list that ends with the collector's name |
| Registry.CollectorNamesSpec | src/Hydrogen.Prometheus.Client/CollectorRegistry.cs:75-85 | a histogram claims four names, any other collector one; the last is the collector's name and the others extend it after an underscore; a histogram claims each series it reports (`_bucket`, `_count`, `_sum`); no two claimed names share a case-insensitive key |
| Registry.FirstClaimed | src/Hydrogen.Prometheus.Client/CollectorRegistry.cs:36-42 | finds nothing exactly when no name's key is taken; otherwise finds the first name, in list order, whose key is taken |
| Registry.Claim | src/Hydrogen.Prometheus.Client/CollectorRegistry.cs:43-46 | every claimed key maps to the collector; every other key keeps its entry |
| Registry.Release | src/Hydrogen.Prometheus.Client/CollectorRegistry.cs:62-65 | exactly the released keys are gone; every other key keeps its entry |
| Registry.TakenNameFails | src/Hydrogen.Prometheus.Client/CollectorRegistry.cs:36-42 | one name of the collector whose key is already taken is enough for `Register` to fail |
| Registry.Registered | src/Hydrogen.Prometheus.Client/CollectorRegistry.cs:31-49 | fails exactly when some name of the collector is taken, ignoring case, naming the first such name in list order and changing nothing; otherwise records the collector's names, maps every one of their keys to it, keeps every other key's collector, and appends the collector to the order unless it was already registered |
| Registry.Unregistered | src/Hydrogen.Prometheus.Client/CollectorRegistry.cs:55-68 | an unregistered collector changes nothing; otherwise the collector and exactly its recorded names are dropped |
| Registry.RegisteredTwiceFails | src/Hydrogen.Prometheus.Client/CollectorRegistry.cs:36-42 | registering a collector that is already registered fails |
| Registry.RegisteredFresh | src/Hydrogen.Prometheus.Client/CollectorRegistry.cs:31-49 | a registration that succeeds was for an unregistered collector whose names were all free, and appends it |
| Registry.RegisterKeepsConsistent | src/Hydrogen.Prometheus.Client/CollectorRegistry.cs:31-49 | `Register` keeps the two dictionaries consistent: a name maps to a collector exactly when it is among that collector's recorded names |
| Registry.AddedOrder | src/Hydrogen.Prometheus.Client/CollectorRegistry.cs:47 | after `Register`, the order still lists each collector once, with its own names |
| Registry.AddedNamesBelong | src/Hydrogen.Prometheus.Client/CollectorRegistry.cs:43-47 | after `Register`, every indexed name belongs to the collector it maps to |
| Registry.AddedNamesIndexed | src/Hydrogen.Prometheus.Client/CollectorRegistry.cs:43-47 | after `Register`, every name of every collector maps to that collector |
| Registry.UnregisterKeepsConsistent | src/Hydrogen.Prometheus.Client/CollectorRegistry.cs:55-68 | `Unregister` keeps the two dictionaries consistent |
| Registry.UnregisteredOrder | src/Hydrogen.Prometheus.Client/CollectorRegistry.cs:61 | after `Unregister`, the order lists each remaining collector once, with its own names |
| Registry.ReleasedNamesBelong | src/Hydrogen.Prometheus.Client/CollectorRegistry.cs:61-65 | after `Unregister`, every remaining name belongs to a remaining collector |
| Registry.RemainingNamesIndexed | src/Hydrogen.Prometheus.Client/CollectorRegistry.cs:61-65 | after `Unregister`, every name of a remaining collector still maps to it |
| Registry.RemoveAppended | src/Hydrogen.Prometheus.Client/CollectorRegistry.cs:47 | removing the collector just appended gives the order back |
| Registry.ReleaseClaimed | src/Hydrogen.Prometheus.Client/CollectorRegistry.cs:43-65 | releasing keys that were free before they were claimed gives the dictionary back |
| Registry.RegisterThenUnregister | src/Hydrogen.Prometheus.Client/CollectorRegistry.cs:31-68 | a successful `Register` followed by `Unregister` of the same collector restores the registry exactly |
| Registry.AddedThenRemoved | src/Hydrogen.Prometheus.Client/CollectorRegistry.cs:43-65 | adding a collector whose names are free, then removing it, restores the registry |
| Registry.NamesIgnoreCase | src/Hydrogen.Prometheus.Client/CollectorRegistry.cs:25 | once a collector is registered, another whose name differs only in case cannot register |
| Registry.FamiliesOf | src/Hydrogen.Prometheus.Client/CollectorRegistry.cs:73 | each collector's `Collect` reports one family, under its name, of its kind and with its help |
| Registry.NamesDistinct | src/Hydrogen.Prometheus.Client/CollectorRegistry.cs:25 | in a consistent registry, no two collectors share a name, even ignoring case |
| Registry.NamesAllDistinct | src/Hydrogen.Prometheus.Client/CollectorRegistry.cs:25 | the same, for every pair of positions in the order |
| Registry.NameIsIndexed | src/Hydrogen.Prometheus.Client/CollectorRegistry.cs:43-47 | a registered collector's own name maps to it |
| Registry.Gathered | src/Hydrogen.Prometheus.Client/CollectorRegistry.cs:73 | `SelectMany` over the collectors gives one family per collector |
| Registry.GatheredElements | src/Hydrogen.Prometheus.Client/CollectorRegistry.cs:73 | family `i` of the gathered list is what collector `i` reports |
| Registry.CollectorRegistry.constructor | src/Hydrogen.Prometheus.Client/CollectorRegistry.cs:24-25 | a new registry is empty and consistent |
| Registry.CollectorRegistry.FirstTaken | src/Hydrogen.Prometheus.Client/CollectorRegistry.cs:36-42 | the first loop of `Register` finds the first name, in list order, whose key is taken |
| Registry.CollectorRegistry.ClaimAll | src/Hydrogen.Prometheus.Client/CollectorRegistry.cs:43-46 | the second loop maps every name's key to the collector and leaves the other dictionary alone |
| Registry.CollectorRegistry.Register | src/Hydrogen.Prometheus.Client/CollectorRegistry.cs:31-49 | throws for the first taken name and changes nothing, or claims every name and records the list; the registry stays consistent |
| Registry.CollectorRegistry.Record | src/Hydrogen.Prometheus.Client/CollectorRegistry.cs:43-47 | the commit step of `Register`: the registry after adding the collector |
| Registry.CollectorRegistry.ReleaseAll | src/Hydrogen.Prometheus.Client/CollectorRegistry.cs:62-65 | the loop of `Unregister` removes each recorded name's key |
| Registry.CollectorRegistry.Unregister | src/Hydrogen.Prometheus.Client/CollectorRegistry.cs:55-68 | drops a registered collector and exactly its names, and changes nothing otherwise; the registry stays consistent |
| Registry.CollectorRegistry.Drop | src/Hydrogen.Prometheus.Client/CollectorRegistry.cs:59-66 | for a registered collector: removes it, then each of its names |
| Registry.CollectorRegistry.MetricFamilySamples | src/Hydrogen.Prometheus.Client/CollectorRegistry.cs:73 | one family per registered collector, in insertion order, standing for the dictionary's unspecified order, each being what that collector reports; no two families share a name, even ignoring case |
| TextFormat.Writer.constructor | src/Hydrogen.Prometheus.Client/Exporters/TextFormat.cs:42-44 | a new writer has written nothing |
| TextFormat.Writer.Write | src/Hydrogen.Prometheus.Client/Exporters/TextFormat.cs:54 | a write appends its text |
| TextFormat.Escaped | src/Hydrogen.Prometheus.Client/Exporters/TextFormat.cs:85-126 | escaping each character with escapes that hold no newline leaves no newline; characters that escape to themselves are kept |
| TextFormat.EscapeLabelValue | src/Hydrogen.Prometheus.Client/Exporters/TextFormat.cs:85-106 | the escaped label value holds no raw newline, and is the value itself when it contains no `\`, `"` or newline |
| TextFormat.EscapeHelp | src/Hydrogen.Prometheus.Client/Exporters/TextFormat.cs:108-126 | the escaped help holds no raw newline, and is the help itself, quotes included, when it contains no `\` or newline |
| TextFormat.EscapedConcat | src/Hydrogen.Prometheus.Client/Exporters/TextFormat.cs:87-105 | escaping works character by character: the escape of a concatenation is the concatenation of the escapes |
| TextFormat.LabelValueCharReversible | src/Hydrogen.Prometheus.Client/Exporters/TextFormat.cs:90-104 | each character's label-value escape reads back as that character, whatever follows |
| TextFormat.HelpCharReversible | src/Hydrogen.Prometheus.Client/Exporters/TextFormat.cs:113-124 | each character's help escape reads back as that character, whatever follows |
| TextFormat.EscapedRoundTrip | src/Hydrogen.Prometheus.Client/Exporters/TextFormat.cs:85-126 | with reversible escapes, unescaping the escaped text gives the input back |
| TextFormat.LabelValueRoundTrip | src/Hydrogen.Prometheus.Client/Exporters/TextFormat.cs:85-106 | unescaping an escaped label value gives the value back, so different values are written differently |
| TextFormat.HelpRoundTrip | src/Hydrogen.Prometheus.Client/Exporters/TextFormat.cs:108-126 | unescaping an escaped help text gives the text back |
| TextFormat.WriteEscapedLabelValue | src/Hydrogen.Prometheus.Client/Exporters/TextFormat.cs:85-106 | the character loop appends exactly the escaped label value |
| TextFormat.WriteEscapedHelp | src/Hydrogen.Prometheus.Client/Exporters/TextFormat.cs:108-126 | the character loop appends exactly the escaped help |
| TextFormat.TypeWordRoundTrip | src/Hydrogen.Prometheus.Client/Exporters/TextFormat.cs:128-143 | each kind's TYPE word reads back as that kind, so the four words differ; `untyped` names no kind |
| TextFormat.ChainStops | src/Hydrogen.Prometheus.Client/Exporters/TextFormat.cs:45-48 | once a write throws, nothing after it is written |
| TextFormat.ChainPasses | src/Hydrogen.Prometheus.Client/Exporters/TextFormat.cs:45-48 | a run of writes ends well exactly when every write in it does |
| TextFormat.ChainConcat | src/Hydrogen.Prometheus.Client/Exporters/TextFormat.cs:45-48 | after a run that ends well, the text of a second run follows the first's |
| TextFormat.LabelBlock | src/Hydrogen.Prometheus.Client/Exporters/TextFormat.cs:67-78 | the label block is written in full exactly when there is a value for every label name; otherwise it stops at the first missing value with an index-out-of-range error |
| TextFormat.SampleOutput | src/Hydrogen.Prometheus.Client/Exporters/TextFormat.cs:66-81 | a sample is written in full exactly when it has a value for every label name; otherwise it fails with an index-out-of-range error |
| TextFormat.LabelPairsNewlineFree | src/Hydrogen.Prometheus.Client/Exporters/TextFormat.cs:70-76 | label pairs with newline-free names hold no newline |
| TextFormat.SampleIsOneLine | src/Hydrogen.Prometheus.Client/Exporters/TextFormat.cs:66-81 | with newline-free names and formatted values, a writable sample is exactly one line ending in a newline |
| TextFormat.WriteLabelBlock | src/Hydrogen.Prometheus.Client/Exporters/TextFormat.cs:67-78 | the label loop writes exactly the label block, and stops as it specifies |
| TextFormat.WriteSample | src/Hydrogen.Prometheus.Client/Exporters/TextFormat.cs:66-81 | writing one sample appends exactly the sample's output and ends as it specifies |
| TextFormat.HeaderAsWrittenIsOneLine | src/Hydrogen.Prometheus.Client/Exporters/TextFormat.cs:54-62 | as written, the HELP and TYPE lines of a family with a newline-free name come out as a single line: `# HELP a h# TYPE a counter` |
| TextFormat.HeaderLinesNewlineFree | src/Hydrogen.Prometheus.Client/Exporters/TextFormat.cs:54-62 | with a newline-free name, the HELP text and the TYPE text hold no newline |
| TextFormat.HeaderIsTwoLines | src/Hydrogen.Prometheus.Client/Exporters/TextFormat.cs:54-62 | corrected, the header is two newline-ended lines, one starting `# HELP ` and one starting `# TYPE ` |
| TextFormat.WriteHeader | src/Hydrogen.Prometheus.Client/Exporters/TextFormat.cs:54-62 | writes exactly the corrected two-line header |
| TextFormat.WriteFamily | src/Hydrogen.Prometheus.Client/Exporters/TextFormat.cs:52-83 | writes the header, then the samples in order up to the first that fails, and ends as that sample does |
| TextFormat.FamilyOutputPasses | src/Hydrogen.Prometheus.Client/Exporters/TextFormat.cs:64-82 | a family is written in full exactly when each of its samples is writable |
| TextFormat.ExpositionPasses | src/Hydrogen.Prometheus.Client/Exporters/TextFormat.cs:45-48 | all the families are written in full exactly when every sample of every family is writable |
| TextFormat.ExpositionConcat | src/Hydrogen.Prometheus.Client/Exporters/TextFormat.cs:45-48 | when the first families are written in full, the text of the rest follows theirs |
| TextFormat.WriteAll | src/Hydrogen.Prometheus.Client/Exporters/TextFormat.cs:30-50 | a null stream, then a null family list, is rejected before anything is written; otherwise the families are written in order until the first failure |
| TextFormat.WriteFamilies | src/Hydrogen.Prometheus.Client/Exporters/TextFormat.cs:45-48 | the family loop appends exactly the exposition of the families and ends as it does |

## Left out

- Concurrency: the locks, the lock-free compare-and-swap adds, `Volatile.Read`
  and `ConcurrentDictionary`'s atomic `GetOrAdd` are modelled by their
  sequential effect. Interleavings are not modelled.
- IEEE arithmetic: finite values are exact reals. Rounding, overflow to
  infinity, and `-0` are not modelled. NaN appears only where a value is
  formatted.
- `HistogramBuilder.ExponentialBuckets` is not modelled, because
  `Math.Pow` is floating-point.
- `double.ToString()` is the parameter `fmt`. `DateTimeOffset.UtcNow` is the
  `now` parameter of `Gauges.Child.SetToCurrentTime`. `string.GetHashCode`
  is the parameter `h`.
- The streams are left out: `Stream`, `StreamWriter`, UTF-8 encoding,
  `async`, flushing and disposal. The `Writer` keeps the characters written.
- `CollectorRegistry.DefaultRegistry` and `Builder.Register()` /
  `Register(registry)` are not modelled. They are `Create` followed by
  `Registry.CollectorRegistry.Register`.
- Null arguments are not modelled where the code only throws
  `ArgumentNullException`: a null builder, null label arrays passed to
  `Labels` or `Remove`, null label names passed to `WithLabels`, and a null
  label name. A null label value is modelled where the code hashes it. A
  null label value in a sample written by the text format is not modelled.
- `Collectors.Collector.Labels`: the new child is passed in by the caller.
  The abstract `NewChild` is not called from inside the container.
- `Collectors.Collector.Remove`: a `ConcurrentDictionary` enumerates in an
  unspecified, hash-dependent order. The model uses insertion order: a
  removed key leaves the order and a new key is appended.
- `Collectors.Collector.Labels`: `GetOrAdd` keeps the caller's own
  `labelValues` array as the key (`Collector.cs:170`). The model copies it
  as a value, so a caller who later changes that array does not change the
  stored key.
- `Collectors.Configure`: the constructor keeps the builder's label-name
  array (`Collector.cs:69`), which is the array the caller passed to
  `WithLabels` (`Collector.cs:274`). The model copies it as a value, so a
  later change to that array through the builder or the caller is not
  seen by the collector.
- `Registry.NamesIgnoreCase`: `StringComparer.OrdinalIgnoreCase` is
  modelled as ASCII upper-casing. Case folding outside ASCII is not
  modelled.
- `Registry.CollectorRegistry.MetricFamilySamples`: modelled as a ghost
  function over each collector's specification of `Collect`, rather than
  as a method calling `Collect`. It relies on each `Collect` having been
  proved equal to its `Families`.
- `Registry.CollectorRegistry.MetricFamilySamples`: the families come in
  insertion order. `_collectorToNames` is a `Dictionary`, which reuses a
  freed slot, so the source can differ: register A, register B, unregister
  A, register C, and the source lists C's family before B's, while the
  model lists B's first.
- `Histograms.Child.Observe`: the as-written method keeps `_upperBounds`
  shared with the histogram and the builder. That aliasing, where one
  child's observation moves every child's bounds, is not modelled; each
  child holds its bounds as a value.
- `TextFormat.TypeWord`: the `untyped` default branch cannot be reached,
  because the kind is one of the four constructors.
- `Collectors.CheckMetricName` and `Collectors.CheckMetricLabelName` use
  the corrected patterns, which reject a trailing newline. The as-written
  reading is kept separately, in `Collectors.TrailingNewlineAccepted`.

## Findings

| source | as written | input that shows it | evidently intended | confidence | as-written member | corrected member |
|---|---|---|---|---|---|---|
| src/Hydrogen.Prometheus.Client/Histogram.cs:104 | `Observe` adds the value to the bucket's upper bound; no count ever changes | bounds `1, +Inf`, observe 0.5: the first bound becomes 1.5 and the cumulative counts stay `0, 0` | add one to the bucket's count (`_cumulativeCounts[i]`), giving counts `1, 1` | not executed | Histograms.Child.ObserveAsWritten, Histograms.ObserveAsWrittenExample | Histograms.Child.Observe, Histograms.ObservedCumulative |
| src/Hydrogen.Prometheus.Client/Histogram.cs:63 | `NewChild` throws `NotImplementedException`, so `Labels` fails for every new key | `Labels()` on any histogram without label names | build `new Child(_buckets)` | not executed | Histograms.Histogram.NewChildAsWritten, Histograms.Histogram.LabelsAsWritten | Histograms.Histogram.NewChild, Histograms.Histogram.Labels |
| src/Hydrogen.Prometheus.Client/Histogram.cs:52 | the `le` label is formatted from the cumulative count `buckets[i]`, not from the bound | a child that has seen nothing: every bucket has `le="0"`, so they are one repeated series | format the upper bound `_buckets[i]` | not executed | Histograms.Histogram.BucketSamplesAsWritten, Histograms.Histogram.AsWrittenLeRepeats | Histograms.Histogram.BucketSamples, Histograms.Histogram.BucketLabelsDistinct |
| src/Hydrogen.Prometheus.Client/Exporters/TextFormat.cs:57 | the help text is not followed by a newline, so the TYPE line continues the HELP line | family `a`, counter, help `h`: `# HELP a h# TYPE a counter` | end the HELP line with a newline | not executed | TextFormat.HeaderAsWrittenIsOneLine | TextFormat.HeaderIsTwoLines, TextFormat.WriteHeader |
| src/Hydrogen.Prometheus.Client/Collector.cs:22-23 | in .NET, `$` matches at the end and also just before a final newline, so both name patterns accept one trailing newline | metric name or label name `"a\n"` | accept names matching the pattern exactly (`\z`) | not executed | Collectors.TrailingNewlineAccepted | Collectors.CheckMetricName, Collectors.CheckMetricLabelName, Collectors.CheckedNamesAreNewlineFree |
