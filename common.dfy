/**
 * Shared vocabulary of the model: optional values, results, the error kinds
 * the library signals with exceptions, and the whitespace rules of .NET
 * strings (`char.IsWhiteSpace`, `string.IsNullOrWhiteSpace`, `string.Trim`).
 */
module Common {

  datatype Option<+T> = None | Some(value: T)

  /** The outcome of an operation that returns a value or throws. */
  datatype Result<+T> = Ok(value: T) | Err(error: Error)

  /** The outcome of an operation that returns nothing or throws. */
  datatype Outcome = Pass | Fail(error: Error)

  /**
   * One constructor per exception the core throws; the comment names the
   * .NET exception type.
   */
  datatype Error =
    | NameNotSet                      // ArgumentNullException("Name") from the Collector constructor
    | HelpNotSet                      // ArgumentNullException("Help") from the Collector constructor
    | NameRequired                    // ArgumentException from WithName
    | HelpRequired                    // ArgumentException from WithHelp
    | InvalidMetricName(name: string) // ArgumentException from CheckMetricName
    | InvalidLabelName(name: string)  // ArgumentException from CheckMetricLabelName
    | ReservedLabelName(name: string) // ArgumentException from CheckMetricLabelName
    | IncorrectLabelCount             // ArgumentException from Labels
    | NullLabelValue                  // NullReferenceException while hashing a label array
    | NegativeIncrement               // ArgumentOutOfRangeException from Counter.Child.Increment
    | NoBuckets                       // InvalidOperationException from HistogramBuilder.Create
    | BucketsNotIncreasing(index: nat)// InvalidOperationException naming bounds index and index + 1
    | LeLabelNotAllowed               // InvalidOperationException from HistogramBuilder.Create
    | NegativeBucketCount             // OverflowException from `new double[count]`
    | NotImplemented                  // NotImplementedException
    | DuplicateName(series: string)   // ArgumentException from CollectorRegistry.Register
    | BlankFamilyName                 // ArgumentException from the MetricFamilySamples constructor
    | BlankFamilyHelp
    | NullSamples                     // ArgumentNullException
    | BlankSampleName                 // ArgumentException from the Sample constructor
    | NullLabelNames                  // ArgumentNullException
    | NullLabelValues                 // ArgumentNullException
    | LabelValueMissing               // IndexOutOfRangeException in the text writer
    | NullStream                      // ArgumentNullException("stream") from TextFormat.WriteAsync
    | NullFamilies                    // ArgumentNullException("metricFamilies") from TextFormat.WriteAsync

  /** `char.IsWhiteSpace`: the Unicode separators plus U+0009..U+000D and U+0085. */
  predicate IsWhiteSpace(c: char)
  {
    || ('\U{9}' <= c <= '\U{D}')
    || c == '\U{20}' || c == '\U{85}' || c == '\U{A0}' || c == '\U{1680}'
    || ('\U{2000}' <= c <= '\U{200A}')
    || c == '\U{2028}' || c == '\U{2029}' || c == '\U{202F}' || c == '\U{205F}' || c == '\U{3000}'
  }

  /** `string.IsNullOrWhiteSpace` on a non-null string. */
  predicate IsBlank(s: string)
  {
    forall i :: 0 <= i < |s| ==> IsWhiteSpace(s[i])
  }

  /** The position of the first character at or after `i` that is not whitespace, or `|s|`. */
  function SkipWhiteSpace(s: string, i: nat): (k: nat)
    requires i <= |s|
    ensures i <= k <= |s| && (k == |s| || !IsWhiteSpace(s[k]))
    ensures forall j :: i <= j < k ==> IsWhiteSpace(s[j])
    decreases |s| - i
  {
    if i < |s| && IsWhiteSpace(s[i]) then SkipWhiteSpace(s, i + 1) else i
  }

  /** The position just after the last character before `j` that is not whitespace, or 0. */
  function SkipWhiteSpaceBack(s: string, j: nat): (k: nat)
    requires j <= |s|
    ensures k <= j && (k == 0 || !IsWhiteSpace(s[k - 1]))
    ensures forall i :: k <= i < j ==> IsWhiteSpace(s[i])
  {
    if j > 0 && IsWhiteSpace(s[j - 1]) then SkipWhiteSpaceBack(s, j - 1) else j
  }

  /** Drops leading whitespace: the result is the suffix left after it. */
  function TrimStart(s: string): (r: string)
    ensures |r| <= |s| && r == s[|s| - |r|..]
    ensures forall i :: 0 <= i < |s| - |r| ==> IsWhiteSpace(s[i])
    ensures r == [] || !IsWhiteSpace(r[0])
  {
    s[SkipWhiteSpace(s, 0)..]
  }

  /** Drops trailing whitespace: the result is the prefix left before it. */
  function TrimEnd(s: string): (r: string)
    ensures |r| <= |s| && r == s[..|r|]
    ensures forall i :: |r| <= i < |s| ==> IsWhiteSpace(s[i])
    ensures r == [] || !IsWhiteSpace(r[|r| - 1])
  {
    s[..SkipWhiteSpaceBack(s, |s|)]
  }

  /** `string.Trim()`. */
  function Trim(s: string): string
  {
    TrimEnd(TrimStart(s))
  }

  /**
   * What `Trim` returns: a contiguous piece of `s` with only whitespace
   * before and after it, neither end of which is whitespace; it is empty exactly
   * when `s` is blank.
   */
  lemma TrimSpec(s: string)
    ensures var r := Trim(s);
      && (exists i, j :: 0 <= i <= j <= |s| && r == s[i..j] &&
            (forall k :: 0 <= k < i ==> IsWhiteSpace(s[k])) &&
            (forall k :: j <= k < |s| ==> IsWhiteSpace(s[k])))
      && (r == [] || (!IsWhiteSpace(r[0]) && !IsWhiteSpace(r[|r| - 1])))
      && (r == [] <==> IsBlank(s))
  {
    var a := TrimStart(s);
    var r := TrimEnd(a);
    var i := |s| - |a|;
    assert r == s[i..i + |r|];
    forall k | i + |r| <= k < |s|
      ensures IsWhiteSpace(s[k])
    {
      assert s[k] == a[k - i];
    }
    if r != [] {
      assert r[0] == a[0];
      assert !IsBlank(s) by { assert s[i] == r[0]; }
    }
  }

  /** Trimming twice is trimming once. */
  lemma TrimIdempotent(s: string)
    ensures Trim(Trim(s)) == Trim(s)
  {
    var r := Trim(s);
    TrimSpec(s);
    if r != [] {
      assert SkipWhiteSpace(r, 0) == 0 && TrimStart(r) == r[0..] == r;
      assert SkipWhiteSpaceBack(r, |r|) == |r| && TrimEnd(r) == r[..|r|] == r;
    }
  }
}
