/**
 * MetricFamilySamples.cs and CollectorType.cs: the immutable snapshot a
 * collector's `Collect` returns, with the checks its constructors make.
 */
module Samples {
  import opened Common

  /** CollectorType: the four metric kinds. */
  datatype CollectorType = Counter | Gauge | Histogram | Summary

  /**
   * A .NET `double` as the exposition sees it: a finite value, one of the two
   * infinities, or not-a-number. Finite values are exact reals here.
   */
  datatype Double = Num(r: real) | PositiveInfinity | NegativeInfinity | NaN

  /** MetricFamilySamples.Sample. */
  datatype Sample = Sample(name: string, labelNames: seq<string>, labelValues: seq<string>, value: Double)

  /** MetricFamilySamples; the C# property `Type` is `kind` here (`type` is a Dafny keyword). */
  datatype MetricFamilySamples = MetricFamilySamples(name: string, kind: CollectorType, help: string, samples: seq<Sample>)

  predicate ValidSample(s: Sample)
  {
    !IsBlank(s.name)
  }

  predicate ValidFamily(f: MetricFamilySamples)
  {
    !IsBlank(f.name) && !IsBlank(f.help)
  }

  /**
   * The Sample constructor: a blank name, then a null label-name list, then a
   * null label-value list are rejected; otherwise the four fields are stored.
   */
  function NewSample(name: string, labelNames: Option<seq<string>>, labelValues: Option<seq<string>>, value: Double): (r: Result<Sample>)
    ensures r.Ok? <==> !IsBlank(name) && labelNames.Some? && labelValues.Some?
    ensures IsBlank(name) ==> r == Err(BlankSampleName)
    ensures !IsBlank(name) && labelNames.None? ==> r == Err(NullLabelNames)
    ensures !IsBlank(name) && labelNames.Some? && labelValues.None? ==> r == Err(NullLabelValues)
    ensures r.Ok? ==>
      && ValidSample(r.value)
      && r.value.name == name && r.value.labelNames == labelNames.value
      && r.value.labelValues == labelValues.value && r.value.value == value
  {
    if IsBlank(name) then Err(BlankSampleName)
    else if labelNames.None? then Err(NullLabelNames)
    else if labelValues.None? then Err(NullLabelValues)
    else Ok(Sample(name, labelNames.value, labelValues.value, value))
  }

  /**
   * The MetricFamilySamples constructor: a blank name, then a blank help,
   * then a null sample list are rejected; otherwise the fields are stored.
   */
  function NewFamily(name: string, kind: CollectorType, help: string, samples: Option<seq<Sample>>): (r: Result<MetricFamilySamples>)
    ensures r.Ok? <==> !IsBlank(name) && !IsBlank(help) && samples.Some?
    ensures IsBlank(name) ==> r == Err(BlankFamilyName)
    ensures !IsBlank(name) && IsBlank(help) ==> r == Err(BlankFamilyHelp)
    ensures !IsBlank(name) && !IsBlank(help) && samples.None? ==> r == Err(NullSamples)
    ensures r.Ok? ==>
      && ValidFamily(r.value)
      && r.value.name == name && r.value.kind == kind && r.value.help == help && r.value.samples == samples.value
  {
    if IsBlank(name) then Err(BlankFamilyName)
    else if IsBlank(help) then Err(BlankFamilyHelp)
    else if samples.None? then Err(NullSamples)
    else Ok(MetricFamilySamples(name, kind, help, samples.value))
  }

  /**
   * DoubleToGoString (and its duplicate ConvertToGoString): the three special
   * values get Go's spellings; a finite value goes through `fmt`, which stands
   * for the culture-dependent `double.ToString()`.
   */
  function GoString(d: Double, fmt: real -> string): string
  {
    match d
    case PositiveInfinity => "+Inf"
    case NegativeInfinity => "-Inf"
    case NaN => "NaN"
    case Num(r) => fmt(r)
  }

  /** `fmt` never spells a finite value like one of the special values. */
  ghost predicate PlainFormatter(fmt: real -> string)
  {
    forall r :: fmt(r) != "+Inf" && fmt(r) != "-Inf" && fmt(r) != "NaN"
  }

  /**
   * The special spellings, and: with a formatter that is one-to-one on finite
   * values and never yields a special spelling, different values are written
   * differently.
   */
  lemma GoStringSpellings(d1: Double, d2: Double, fmt: real -> string)
    ensures GoString(PositiveInfinity, fmt) == "+Inf" && GoString(NegativeInfinity, fmt) == "-Inf"
    ensures GoString(NaN, fmt) == "NaN"
    ensures PlainFormatter(fmt) && (forall x, y :: fmt(x) == fmt(y) ==> x == y) && d1 != d2 ==>
      GoString(d1, fmt) != GoString(d2, fmt)
  {
    if PlainFormatter(fmt) && (forall x, y :: fmt(x) == fmt(y) ==> x == y) && d1 != d2 {
      if d1.Num? && d2.Num? {
        assert d1.r != d2.r;
      } else if d1.Num? {
        assert GoString(d1, fmt) == fmt(d1.r);
      } else if d2.Num? {
        assert GoString(d2, fmt) == fmt(d2.r);
      }
    }
  }
}
