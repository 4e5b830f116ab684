/**
 * Histogram.cs: bucket bounds and their validation in the builder, the
 * per-label-set child that counts observations per bucket, and the samples a
 * histogram reports. An upper bound is a finite value or `+Inf`.
 *
 * Three places where the code as written departs from its evident intent are
 * modelled twice, as written and corrected (the corrected form is the one the
 * rest of the model uses): `Observe` adds the value to the bound instead of
 * counting it, `NewChild` throws, and `Collect` formats the `le` label from the
 * cumulative count instead of the bound.
 */
module Histograms {
  import opened Common
  import opened Samples
  import opened Collectors
  import LabelArrays

  // ---------------------------------------------------------------------------
  // Bounds
  // ---------------------------------------------------------------------------

  datatype Bound = Finite(r: real) | PosInf

  /** `a < b` between two bounds. */
  predicate Below(a: Bound, b: Bound)
  {
    a.Finite? && (b.PosInf? || a.r < b.r)
  }

  /** `v <= b` for an observed value. */
  predicate AtMost(v: real, b: Bound)
  {
    b.PosInf? || v <= b.r
  }

  /** A bound as the double it is. */
  function BoundValue(b: Bound): Double
  {
    if b.PosInf? then PositiveInfinity else Num(b.r)
  }

  predicate StrictlyIncreasing(b: seq<Bound>)
  {
    forall i :: 0 <= i < |b| - 1 ==> Below(b[i], b[i + 1])
  }

  /** What the bounds of a built histogram satisfy. */
  predicate ValidBounds(b: seq<Bound>)
  {
    |b| > 0 && StrictlyIncreasing(b) && b[|b| - 1] == PosInf
  }

  /** Adjacent order implies order between any two positions. */
  lemma {:induction false} IncreasingIsOrdered(b: seq<Bound>, i: nat, j: nat)
    requires StrictlyIncreasing(b) && i < j < |b|
    ensures Below(b[i], b[j])
    decreases j - i
  {
    if j > i + 1 {
      IncreasingIsOrdered(b, i + 1, j);
    }
  }

  /** The default bounds of HistogramBuilder (without the `+Inf` that Create appends). */
  const DefaultBuckets: seq<Bound> := [
    Finite(0.005), Finite(0.01), Finite(0.025), Finite(0.05), Finite(0.075), Finite(0.1), Finite(0.25),
    Finite(0.5), Finite(0.75), Finite(1.0), Finite(2.5), Finite(5.0), Finite(7.5), Finite(10.0)]

  /** The index of the first adjacent pair from `i` on that is not increasing. */
  function FirstDescent(b: seq<Bound>, i: nat): (r: Option<nat>)
    decreases |b| - i
    ensures r.None? <==> forall j :: i <= j < |b| - 1 ==> Below(b[j], b[j + 1])
    ensures r.Some? ==>
      && i <= r.value < |b| - 1 && !Below(b[r.value], b[r.value + 1])
      && forall j :: i <= j < r.value ==> Below(b[j], b[j + 1])
  {
    if i + 1 >= |b| then None
    else if !Below(b[i], b[i + 1]) then Some(i)
    else FirstDescent(b, i + 1)
  }

  /**
   * The bucket checks of HistogramBuilder.Create: at least one bound, each
   * bound below the next (the first offending pair is reported), then `+Inf`
   * appended when it is not already last.
   */
  function CheckedBuckets(b: seq<Bound>): (r: Result<seq<Bound>>)
    ensures r.Ok? <==> b != [] && StrictlyIncreasing(b)
    ensures b == [] ==> r == Err(NoBuckets)
    ensures b != [] && r.Err? ==>
      && r.error.BucketsNotIncreasing?
      && r.error.index < |b| - 1 && !Below(b[r.error.index], b[r.error.index + 1])
      && forall j :: 0 <= j < r.error.index ==> Below(b[j], b[j + 1])
    ensures r.Ok? ==>
      && ValidBounds(r.value)
      && |r.value| == |b| + (if b[|b| - 1] == PosInf then 0 else 1)
      && r.value[..|b|] == b
  {
    if b == [] then Err(NoBuckets)
    else
      var descent := FirstDescent(b, 0);
      if descent.Some? then Err(BucketsNotIncreasing(descent.value))
      else if b[|b| - 1] == PosInf then Ok(b)
      else
        AppendInfinity(b);
        Ok(b + [PosInf])
  }

  /** Appending `+Inf` after increasing finite bounds keeps them increasing. */
  lemma AppendInfinity(b: seq<Bound>)
    requires b != [] && StrictlyIncreasing(b) && b[|b| - 1] != PosInf
    ensures ValidBounds(b + [PosInf])
  {
    var r := b + [PosInf];
    forall i | 0 <= i < |r| - 1 ensures Below(r[i], r[i + 1]) {
      if i < |b| - 1 {
        assert r[i] == b[i] && r[i + 1] == b[i + 1];
      } else {
        assert r[i] == b[|b| - 1] && r[i + 1] == PosInf;
      }
    }
  }

  /** LinearBuckets' bounds: `count` bounds, bound `i` being `start + i * width`. */
  function Linear(start: real, width: real, count: nat): (r: seq<Bound>)
  {
    seq(count, i => Finite(start + i as real * width))
  }

  /** Linear bounds with a positive width pass the bucket checks; with a width of at most zero the first pair fails. */
  lemma LinearBucketsChecked(start: real, width: real, count: nat)
    requires count > 0
    ensures width > 0.0 ==> CheckedBuckets(Linear(start, width, count)) == Ok(Linear(start, width, count) + [PosInf])
    ensures width <= 0.0 && count >= 2 ==> CheckedBuckets(Linear(start, width, count)) == Err(BucketsNotIncreasing(0))
  {
    var b := Linear(start, width, count);
    if width > 0.0 {
      forall i | 0 <= i < |b| - 1 ensures Below(b[i], b[i + 1]) {
        assert (i + 1) as real * width == i as real * width + width;
      }
    }
    if width <= 0.0 && count >= 2 {
      assert !Below(b[0], b[1]);
    }
  }

  // ---------------------------------------------------------------------------
  // Counting observations
  // ---------------------------------------------------------------------------

  /** The first bucket whose bound is at least `v` (`|b|` when there is none). */
  function FirstAtLeast(b: seq<Bound>, v: real): (k: nat)
    ensures k <= |b|
    ensures forall j :: 0 <= j < k ==> !AtMost(v, b[j])
    ensures k < |b| ==> AtMost(v, b[k])
  {
    if b == [] then 0
    else if AtMost(v, b[0]) then 0
    else 1 + FirstAtLeast(b[1..], v)
  }

  /** With increasing bounds ending in `+Inf`, every value has a bucket, and bound `j` is at least `v` exactly from that bucket on. */
  lemma FirstAtLeastSplits(b: seq<Bound>, v: real)
    requires ValidBounds(b)
    ensures FirstAtLeast(b, v) < |b|
    ensures forall j :: 0 <= j < |b| ==> (FirstAtLeast(b, v) <= j <==> AtMost(v, b[j]))
  {
    var k := FirstAtLeast(b, v);
    assert AtMost(v, b[|b| - 1]);
    forall j | k < j < |b| ensures AtMost(v, b[j]) {
      IncreasingIsOrdered(b, k, j);
    }
  }

  /** The raw counts after one observation: one more in the value's bucket. */
  function Observed(counts: seq<real>, bounds: seq<Bound>, v: real): (r: seq<real>)
    requires |counts| == |bounds|
    ensures |r| == |counts|
  {
    var k := FirstAtLeast(bounds, v);
    if k < |counts| then counts[k := counts[k] + 1.0] else counts
  }

  /** The sum of all counts. */
  function Total(c: seq<real>): real
  {
    if c == [] then 0.0 else Total(c[..|c| - 1]) + c[|c| - 1]
  }

  /** Running totals: element `i` is the sum of counts `0..i`. */
  function PrefixSums(c: seq<real>): (r: seq<real>)
    ensures |r| == |c|
    ensures forall i :: 0 <= i < |c| ==> r[i] == Total(c[..i + 1])
  {
    if c == [] then []
    else
      var front := c[..|c| - 1];
      assert forall i :: 0 <= i < |front| ==> PrefixSums(front)[i] == Total(c[..i + 1]) by {
        forall i | 0 <= i < |front| ensures PrefixSums(front)[i] == Total(c[..i + 1]) {
          assert front[..i + 1] == c[..i + 1];
        }
      }
      assert c[..|c|] == c;
      PrefixSums(c[..|c| - 1]) + [Total(c)]
  }

  /** Adding `d` to count `k` adds `d` to the total of every prefix that contains position `k`. */
  lemma {:induction false} TotalUpdate(c: seq<real>, k: nat, d: real, n: nat)
    requires k < |c| && n <= |c|
    ensures Total(c[k := c[k] + d][..n]) == Total(c[..n]) + (if k < n then d else 0.0)
  {
    var u := c[k := c[k] + d];
    if n > 0 {
      TotalUpdate(c, k, d, n - 1);
      assert u[..n][..n - 1] == u[..n - 1];
      assert c[..n][..n - 1] == c[..n - 1];
    }
  }

  /** With non-negative counts the running totals never go down. */
  lemma {:induction false} TotalMonotone(c: seq<real>, i: nat, j: nat)
    requires i <= j <= |c|
    requires forall k :: 0 <= k < |c| ==> c[k] >= 0.0
    ensures Total(c[..i]) <= Total(c[..j])
    decreases j - i
  {
    if i < j {
      TotalMonotone(c, i, j - 1);
      assert c[..j][..j - 1] == c[..j - 1];
    }
  }

  /** GetValue's result: as long as the counts, non-decreasing when they are non-negative, ending at their total. */
  lemma {:induction false} PrefixSumsProperties(c: seq<real>)
    ensures |PrefixSums(c)| == |c|
    ensures |c| > 0 ==> PrefixSums(c)[|c| - 1] == Total(c)
    ensures (forall k :: 0 <= k < |c| ==> c[k] >= 0.0) ==>
      forall i, j :: 0 <= i <= j < |c| ==> PrefixSums(c)[i] <= PrefixSums(c)[j]
  {
    var p := PrefixSums(c);
    if |c| > 0 {
      assert c[..|c|] == c;
      assert p[|c| - 1] == Total(c[..|c|]);
    }
    if forall k :: 0 <= k < |c| ==> c[k] >= 0.0 {
      forall i, j | 0 <= i <= j < |c| ensures p[i] <= p[j] {
        TotalMonotone(c, i + 1, j + 1);
        assert p[i] == Total(c[..i + 1]) && p[j] == Total(c[..j + 1]);
      }
    }
  }

  /**
   * What one observation does to the reported cumulative counts: the bucket
   * of bound `j` grows by one exactly when `v <= bound j`, so `_count` grows
   * by one.
   */
  lemma {:induction false} ObservedCumulative(c: seq<real>, b: seq<Bound>, v: real)
    requires |c| == |b| && ValidBounds(b)
    ensures forall j :: 0 <= j < |c| ==>
      PrefixSums(Observed(c, b, v))[j] == PrefixSums(c)[j] + (if AtMost(v, b[j]) then 1.0 else 0.0)
    ensures Total(Observed(c, b, v)) == Total(c) + 1.0
  {
    FirstAtLeastSplits(b, v);
    var k := FirstAtLeast(b, v);
    var o := Observed(c, b, v);
    assert o == c[k := c[k] + 1.0];
    var po, pc := PrefixSums(o), PrefixSums(c);
    forall j | 0 <= j < |c|
      ensures po[j] == pc[j] + (if AtMost(v, b[j]) then 1.0 else 0.0)
    {
      TotalUpdate(c, k, 1.0, j + 1);
      assert po[j] == Total(o[..j + 1]) && pc[j] == Total(c[..j + 1]);
    }
    TotalUpdate(c, k, 1.0, |c|);
    assert c[..|c|] == c;
    assert o[..|c|] == o;
  }

  /** The bounds after the code as written observes `v`: the bound of the value's bucket is moved up by `v`. */
  function ShiftedAsWritten(bounds: seq<Bound>, v: real): (r: seq<Bound>)
    ensures |r| == |bounds|
  {
    var k := FirstAtLeast(bounds, v);
    if k < |bounds| && bounds[k].Finite? then bounds[k := Finite(bounds[k].r + v)] else bounds
  }

  /**
   * A child with bounds `1, +Inf` observing 0.5: as written, the first bound
   * becomes 1.5 and the reported cumulative counts stay `0, 0`; corrected,
   * they become `1, 1`.
   */
  lemma ObserveAsWrittenExample()
    ensures ShiftedAsWritten([Finite(1.0), PosInf], 0.5) == [Finite(1.5), PosInf]
    ensures PrefixSums([0.0, 0.0]) == [0.0, 0.0]
    ensures PrefixSums(Observed([0.0, 0.0], [Finite(1.0), PosInf], 0.5)) == [1.0, 1.0]
  {
    PrefixSumsOfTwo(0.0, 0.0);
    assert Observed([0.0, 0.0], [Finite(1.0), PosInf], 0.5) == [1.0, 0.0];
    PrefixSumsOfTwo(1.0, 0.0);
  }

  /** The running totals of two counts. */
  lemma PrefixSumsOfTwo(a: real, b: real)
    ensures PrefixSums([a, b]) == [a, a + b]
  {
    assert [a, b][..1] == [a] && [a][..0] == [];
    assert Total([a]) == a && Total([a, b]) == a + b;
    assert PrefixSums([a]) == [a];
  }

  /** Histogram.Child: the bounds, one raw count per bound, and the sum of observed values. */
  class Child {
    var upperBounds: seq<Bound>
    const counts: array<real>
    var sum: real

    constructor(buckets: seq<Bound>)
      ensures upperBounds == buckets && sum == 0.0
      ensures fresh(counts) && counts.Length == |buckets|
      ensures forall i :: 0 <= i < counts.Length ==> counts[i] == 0.0
    {
      upperBounds := buckets;
      counts := new real[|buckets|](j => 0.0);
      sum := 0.0;
    }

    /** Observe, corrected: counts the value in the first bucket whose bound is at least the value, and adds it to the sum. */
    method Observe(v: real)
      requires counts.Length == |upperBounds|
      modifies this, counts
      ensures upperBounds == old(upperBounds)
      ensures counts[..] == Observed(old(counts[..]), upperBounds, v)
      ensures sum == old(sum) + v
    {
      var i := 0;
      while i < |upperBounds|
        invariant 0 <= i <= |upperBounds|
        invariant forall j :: 0 <= j < i ==> !AtMost(v, upperBounds[j])
        invariant counts[..] == old(counts[..])
      {
        if AtMost(v, upperBounds[i]) {
          counts[i] := counts[i] + 1.0;
          break;
        }
        i := i + 1;
      }
      sum := sum + v;
    }

    /** Observe as written: the value is added to the bucket's bound, and no count changes. */
    method ObserveAsWritten(v: real)
      modifies this
      ensures upperBounds == ShiftedAsWritten(old(upperBounds), v)
      ensures counts[..] == old(counts[..])
      ensures sum == old(sum) + v
    {
      var i := 0;
      while i < |upperBounds|
        invariant 0 <= i <= |upperBounds|
        invariant forall j :: 0 <= j < i ==> !AtMost(v, upperBounds[j])
        invariant upperBounds == old(upperBounds)
      {
        if AtMost(v, upperBounds[i]) {
          if upperBounds[i].Finite? {
            upperBounds := upperBounds[i := Finite(upperBounds[i].r + v)];
          }
          break;
        }
        i := i + 1;
      }
      sum := sum + v;
    }

    /** What GetValue reports: the running totals of the counts, and the sum. */
    ghost function Reading(): (seq<real>, real)
      reads this, counts
    {
      (PrefixSums(counts[..]), sum)
    }

    /** GetValue: the running totals of the counts, in a new array, and the sum. */
    method GetValue() returns (buckets: array<real>, s: real)
      ensures fresh(buckets)
      ensures buckets[..] == PrefixSums(counts[..])
      ensures s == sum
    {
      buckets := new real[counts.Length];
      var accum := 0.0;
      for i := 0 to counts.Length
        invariant accum == Total(counts[..i])
        invariant buckets[..i] == PrefixSums(counts[..i])
      {
        assert counts[..i + 1][..i] == counts[..i];
        accum := accum + counts[i];
        buckets[i] := accum;
        assert buckets[..i + 1] == buckets[..i] + [accum];
      }
      assert counts[..counts.Length] == counts[..];
      assert buckets[..counts.Length] == buckets[..];
      s := sum;
    }
  }

  /** `n + 1` children of `m` samples each give `m` more samples than `n` children: the step of `SamplesOfReadingsLength`. */
  lemma MultiplySuccessor(a: nat, m: nat)
    ensures a * m + m == (a + 1) * m
  {
  }

  // ---------------------------------------------------------------------------
  // The collector
  // ---------------------------------------------------------------------------

  /** Histogram: a collector whose children count observations into the same bounds. */
  class Histogram {
    const base: Collector<Child>
    const bounds: seq<Bound>

    ghost predicate Valid()
      reads this, base, base.children.Values
    {
      && base.Valid()
      && Shaped()
      && ValidBounds(bounds)
      && "le" !in base.labelNames
      && forall c :: c in base.children.Values ==> c.upperBounds == bounds
    }

    /** The part of `Valid` that reporting needs: a valid name and one count per bound in every child. */
    ghost predicate Shaped()
      reads this, base, base.children.Values
    {
      && ValidConfig(Config(base.fullName, base.help, base.labelNames))
      && |bounds| > 0
      && forall c :: c in base.children.Values ==> c.counts.Length == |bounds|
    }

    constructor(config: Config, buckets: seq<Bound>)
      requires ValidConfig(config) && ValidBounds(buckets) && "le" !in config.labelNames
      ensures Valid() && fresh(base)
      ensures base.fullName == config.fullName && base.help == config.help && base.labelNames == config.labelNames
      ensures bounds == buckets && base.children == map[]
    {
      base := new Collector(config);
      bounds := buckets;
    }

    /** NewChild, corrected: a child over this histogram's bounds, as the Child constructor builds it. */
    method NewChild() returns (c: Child)
      ensures fresh(c) && fresh(c.counts)
      ensures c.upperBounds == bounds && c.counts.Length == |bounds| && c.sum == 0.0
      ensures forall i :: 0 <= i < c.counts.Length ==> c.counts[i] == 0.0
    {
      c := new Child(bounds);
    }

    /** NewChild as written: throws NotImplementedException. */
    method NewChildAsWritten() returns (r: Result<Child>)
      ensures r == Err(NotImplemented)
    {
      return Err(NotImplemented);
    }

    /** Labels with the corrected NewChild: get-or-create. */
    method Labels(values: seq<Option<string>>) returns (r: Result<Child>)
      requires Valid()
      modifies base
      ensures Valid()
      ensures |values| != |base.labelNames| ==> r == Err(IncorrectLabelCount) && base.children == old(base.children)
      ensures |values| == |base.labelNames| && None in values ==> r == Err(NullLabelValue) && base.children == old(base.children)
      ensures |values| == |base.labelNames| && None !in values ==>
        var key := LabelArrays.Strings(values);
        && r.Ok? && key in base.children && base.children[key] == r.value
        && (key in old(base.children) ==> r.value == old(base.children)[key] && base.children == old(base.children))
        && (key !in old(base.children) ==>
              && fresh(r.value) && base.children == old(base.children)[key := r.value]
              && forall i :: 0 <= i < r.value.counts.Length ==> r.value.counts[i] == 0.0)
      ensures r.Ok? && LabelArrays.Strings(values) !in old(base.children) ==> r.value.sum == 0.0
      ensures base.order ==
        if r.Ok? && LabelArrays.Strings(values) !in old(base.children) then old(base.order) + [LabelArrays.Strings(values)]
        else old(base.order)
      ensures base.noLabelsChild == old(base.noLabelsChild)
    {
      var candidate := NewChild();
      r := base.Labels(values, candidate);
    }

    /**
     * Labels as written: a known key gives its child back, but a new key
     * reaches NewChild, which throws, so no child is ever created.
     */
    method LabelsAsWritten(values: seq<Option<string>>) returns (r: Result<Child>)
      requires Valid()
      ensures |values| != |base.labelNames| ==> r == Err(IncorrectLabelCount)
      ensures |values| == |base.labelNames| && None in values ==> r == Err(NullLabelValue)
      ensures |values| == |base.labelNames| && None !in values ==>
        var key := LabelArrays.Strings(values);
        && (key in base.children ==> r == Ok(base.children[key]))
        && (key !in base.children ==> r == Err(NotImplemented))
    {
      if |values| != |base.labelNames| {
        return Err(IncorrectLabelCount);
      }
      if None in values {
        return Err(NullLabelValue);
      }
      var key := LabelArrays.Strings(values);
      if key in base.children {
        return Ok(base.children[key]);
      }
      r := NewChildAsWritten();
    }

    /** The `_bucket` samples for the first `n` bounds of one child, `le` being the bound. */
    function BucketSamples(key: LabelKey, cumulative: seq<real>, fmt: real -> string, n: nat): (r: seq<Sample>)
      requires ValidConfig(Config(base.fullName, base.help, base.labelNames))
      requires n <= |bounds| == |cumulative|
      ensures |r| == n
      ensures forall i :: 0 <= i < n ==>
        r[i] == Sample(base.fullName + "_bucket", base.labelNames + ["le"],
                       key + [GoString(BoundValue(bounds[i]), fmt)], Num(cumulative[i]))
    {
      if n == 0 then []
      else
        BucketSamples(key, cumulative, fmt, n - 1) +
        [Sample(base.fullName + "_bucket", base.labelNames + ["le"],
                key + [GoString(BoundValue(bounds[n - 1]), fmt)], Num(cumulative[n - 1]))]
    }

    /** The `_bucket` samples as written: `le` is the cumulative count, not the bound. */
    function BucketSamplesAsWritten(key: LabelKey, cumulative: seq<real>, fmt: real -> string, n: nat): (r: seq<Sample>)
      requires ValidConfig(Config(base.fullName, base.help, base.labelNames))
      requires n <= |cumulative|
      ensures |r| == n
      ensures forall i :: 0 <= i < n ==>
        r[i] == Sample(base.fullName + "_bucket", base.labelNames + ["le"],
                       key + [GoString(Num(cumulative[i]), fmt)], Num(cumulative[i]))
    {
      if n == 0 then []
      else
        BucketSamplesAsWritten(key, cumulative, fmt, n - 1) +
        [Sample(base.fullName + "_bucket", base.labelNames + ["le"],
                key + [GoString(Num(cumulative[n - 1]), fmt)], Num(cumulative[n - 1]))]
    }

    /**
     * As written, two buckets with the same cumulative count (any two buckets
     * of a child that has seen nothing) are reported as the same series.
     */
    lemma AsWrittenLeRepeats(key: LabelKey, cumulative: seq<real>, fmt: real -> string, i: nat, j: nat)
      requires ValidConfig(Config(base.fullName, base.help, base.labelNames))
      requires i < j < |cumulative| && cumulative[i] == cumulative[j]
      ensures var s := BucketSamplesAsWritten(key, cumulative, fmt, |cumulative|);
        s[i].name == s[j].name && s[i].labelNames == s[j].labelNames && s[i].labelValues == s[j].labelValues
    {
    }

    /**
     * Corrected, the `le` values of one child's buckets are pairwise different
     * when the formatter is one-to-one and never spells a special value.
     */
    lemma BucketLabelsDistinct(key: LabelKey, cumulative: seq<real>, fmt: real -> string, i: nat, j: nat)
      requires ValidConfig(Config(base.fullName, base.help, base.labelNames))
      requires StrictlyIncreasing(bounds) && |bounds| == |cumulative| && i < j < |bounds|
      requires PlainFormatter(fmt) && forall x, y :: fmt(x) == fmt(y) ==> x == y
      ensures var s := BucketSamples(key, cumulative, fmt, |bounds|);
        s[i].labelValues != s[j].labelValues
    {
      var s := BucketSamples(key, cumulative, fmt, |bounds|);
      IncreasingIsOrdered(bounds, i, j);
      assert BoundValue(bounds[i]) != BoundValue(bounds[j]);
      GoStringSpellings(BoundValue(bounds[i]), BoundValue(bounds[j]), fmt);
      assert s[i].labelValues[|key|] != s[j].labelValues[|key|];
    }

    /** One child's samples: a `_bucket` per bound, then `_count` (the last running total), then `_sum`. */
    function ChildSamples(key: LabelKey, cumulative: seq<real>, sum: real, fmt: real -> string): (r: seq<Sample>)
      requires ValidConfig(Config(base.fullName, base.help, base.labelNames))
      requires 0 < |bounds| == |cumulative|
      ensures |r| == |bounds| + 2
    {
      BucketSamples(key, cumulative, fmt, |bounds|) +
      [Sample(base.fullName + "_count", base.labelNames, key, Num(cumulative[|cumulative| - 1])),
       Sample(base.fullName + "_sum", base.labelNames, key, Num(sum))]
    }

    /**
     * The samples of one child that has seen `observed` (raw counts per bucket)
     * and whose values sum to `sum`: bucket `i` reports the number of
     * observations in buckets `0..i` and is labelled with bound `i`; `_count`
     * reports all observations; `_sum` the sum.
     */
    lemma ChildSamplesShape(key: LabelKey, observed: seq<real>, sum: real, fmt: real -> string)
      requires ValidConfig(Config(base.fullName, base.help, base.labelNames))
      requires 0 < |bounds| == |observed|
      ensures var r := ChildSamples(key, PrefixSums(observed), sum, fmt);
        && (forall i :: 0 <= i < |bounds| ==>
              r[i] == Sample(base.fullName + "_bucket", base.labelNames + ["le"],
                             key + [GoString(BoundValue(bounds[i]), fmt)], Num(Total(observed[..i + 1]))))
        && r[|bounds|] == Sample(base.fullName + "_count", base.labelNames, key, Num(Total(observed)))
        && r[|bounds| + 1] == Sample(base.fullName + "_sum", base.labelNames, key, Num(sum))
    {
      var r := ChildSamples(key, PrefixSums(observed), sum, fmt);
      PrefixSumsProperties(observed);
      assert r[..|bounds|] == BucketSamples(key, PrefixSums(observed), fmt, |bounds|);
    }

    /** What GetValue reports for one child: its running totals and its sum. */
    ghost function Readings(keys: seq<LabelKey>): (r: seq<(seq<real>, real)>)
      reads this, base, base.children.Values, set c | c in base.children.Values :: c.counts
      requires Shaped() && forall k :: k in keys ==> k in base.children
      ensures |r| == |keys|
      ensures forall i :: 0 <= i < |keys| ==>
        r[i] == base.children[keys[i]].Reading()
    {
      seq(|keys|, i requires 0 <= i < |keys| && keys[i] in base.children reads this, base, base.children.Values, set c | c in base.children.Values :: c.counts =>
        base.children[keys[i]].Reading())
    }

    /** Every reading has one running total per bound. */
    ghost predicate ReadingsShaped(readings: seq<(seq<real>, real)>)
    {
      forall i :: 0 <= i < |readings| ==> |readings[i].0| == |bounds|
    }

    /** The samples of the children under `keys`, in that order, given what each reported. */
    function SamplesOfReadings(keys: seq<LabelKey>, readings: seq<(seq<real>, real)>, fmt: real -> string): (r: seq<Sample>)
      requires ValidConfig(Config(base.fullName, base.help, base.labelNames)) && 0 < |bounds|
      requires |keys| == |readings| && ReadingsShaped(readings)
    {
      if keys == [] then []
      else
        var n := |keys| - 1;
        SamplesOfReadings(keys[..n], readings[..n], fmt) + ChildSamples(keys[n], readings[n].0, readings[n].1, fmt)
    }

    /** Every child contributes `|bounds| + 2` samples. */
    lemma {:induction false} SamplesOfReadingsLength(keys: seq<LabelKey>, readings: seq<(seq<real>, real)>, fmt: real -> string)
      requires ValidConfig(Config(base.fullName, base.help, base.labelNames)) && 0 < |bounds|
      requires |keys| == |readings| && ReadingsShaped(readings)
      ensures |SamplesOfReadings(keys, readings, fmt)| == |keys| * (|bounds| + 2)
    {
      if keys != [] {
        var n := |keys| - 1;
        SamplesOfReadingsLength(keys[..n], readings[..n], fmt);
        MultiplySuccessor(n, |bounds| + 2);
      }
    }

    /** One more child appends that child's samples. */
    lemma SamplesOfReadingsStep(keys: seq<LabelKey>, readings: seq<(seq<real>, real)>, n: nat, fmt: real -> string)
      requires ValidConfig(Config(base.fullName, base.help, base.labelNames)) && 0 < |bounds|
      requires |keys| == |readings| && ReadingsShaped(readings) && n < |keys|
      ensures SamplesOfReadings(keys[..n + 1], readings[..n + 1], fmt) ==
        SamplesOfReadings(keys[..n], readings[..n], fmt) + ChildSamples(keys[n], readings[n].0, readings[n].1, fmt)
    {
      assert keys[..n + 1][..n] == keys[..n] && readings[..n + 1][..n] == readings[..n];
    }

    /** The samples of the children under `keys`, in that order. */
    ghost function AllSamples(keys: seq<LabelKey>, fmt: real -> string): seq<Sample>
      reads this, base, base.children.Values, set c | c in base.children.Values :: c.counts
      requires Shaped() && forall k :: k in keys ==> k in base.children
    {
      SamplesOfReadings(keys, Readings(keys), fmt)
    }

    /** What `Collect` returns. */
    ghost function Families(fmt: real -> string): seq<MetricFamilySamples>
      reads this, base, base.children.Values, set c | c in base.children.Values :: c.counts
      requires Valid()
    {
      OrderEnumeratesChildren(base);
      base.FamilySamplesList(CollectorType.Histogram, AllSamples(base.order, fmt))
    }

    /** Collect reports one family, with `|bounds| + 2` samples per child. */
    lemma FamiliesShape(fmt: real -> string)
      requires Valid()
      ensures |Families(fmt)| == 1 && |Families(fmt)[0].samples| == |base.children| * (|bounds| + 2)
    {
      OrderEnumeratesChildren(base);
      SamplesOfReadingsLength(base.order, Readings(base.order), fmt);
    }

    /** The body of Collect's loop for one child: its running totals, a `_bucket` per bound, `_count`, `_sum`. */
    method CollectChild(key: LabelKey, child: Child, fmt: real -> string) returns (s: seq<Sample>)
      requires ValidConfig(Config(base.fullName, base.help, base.labelNames))
      requires 0 < |bounds| == child.counts.Length
      ensures s == ChildSamples(key, child.Reading().0, child.Reading().1, fmt)
    {
      ValidMetricNameNotBlank(base.fullName, "_bucket");
      ValidMetricNameNotBlank(base.fullName, "_count");
      ValidMetricNameNotBlank(base.fullName, "_sum");
      var labelNamesWithLe := base.labelNames + ["le"];
      var buckets, sum := child.GetValue();
      s := [];
      var i := 0;
      while i < buckets.Length
        invariant 0 <= i <= buckets.Length
        invariant s == BucketSamples(key, buckets[..], fmt, i)
      {
        var labelValuesWithLe := key + [GoString(BoundValue(bounds[i]), fmt)];
        var sample := NewSample(base.fullName + "_bucket", Some(labelNamesWithLe), Some(labelValuesWithLe), Num(buckets[i]));
        s := s + [sample.value];
        i := i + 1;
      }
      var count := NewSample(base.fullName + "_count", Some(base.labelNames), Some(key), Num(buckets[buckets.Length - 1]));
      var total := NewSample(base.fullName + "_sum", Some(base.labelNames), Some(key), Num(sum));
      s := s + [count.value, total.value];
    }

    /** Collect's loop over the children, in the dictionary's order. */
    method CollectAll(keys: seq<LabelKey>, fmt: real -> string) returns (samples: seq<Sample>)
      requires Shaped() && forall k :: k in keys ==> k in base.children
      ensures samples == AllSamples(keys, fmt)
    {
      ghost var readings := Readings(keys);
      samples := [];
      var n := 0;
      while n < |keys|
        invariant 0 <= n <= |keys|
        invariant samples == SamplesOfReadings(keys[..n], readings[..n], fmt)
      {
        var key := keys[n];
        var child := base.children[key];
        var more := CollectChild(key, child, fmt);
        SamplesOfReadingsStep(keys, readings, n, fmt);
        samples := samples + more;
        n := n + 1;
      }
      assert keys[..n] == keys && readings[..n] == readings;
    }

    /** Collect: one Histogram family holding every child's samples, children in the dictionary's order. */
    method Collect(fmt: real -> string) returns (r: seq<MetricFamilySamples>)
      requires Valid()
      ensures r == Families(fmt)
      ensures |r| == 1 && r[0].kind == CollectorType.Histogram && ValidFamily(r[0])
      ensures r[0].name == base.fullName && r[0].help == base.help
    {
      OrderEnumeratesChildren(base);
      var samples := CollectAll(base.order, fmt);
      r := base.FamilySamplesList(CollectorType.Histogram, samples);
    }
  }

  // ---------------------------------------------------------------------------
  // The builder
  // ---------------------------------------------------------------------------

  /** HistogramBuilder: the common builder settings plus the bounds. */
  class HistogramBuilder {
    const settings: Builder
    var buckets: seq<Bound>

    constructor()
      ensures fresh(settings) && settings.State() == Settings.Settings("", "", "", "", [])
      ensures buckets == DefaultBuckets
    {
      settings := new Builder();
      buckets := DefaultBuckets;
    }

    /** WithBuckets: a null list restores the defaults. */
    method WithBuckets(b: Option<seq<Bound>>)
      modifies this
      ensures buckets == if b.None? then DefaultBuckets else b.value
    {
      buckets := if b.None? then DefaultBuckets else b.value;
    }

    /** LinearBuckets: a new array of `count` bounds filled in a loop; a negative count cannot be allocated. */
    method LinearBuckets(start: real, width: real, count: int) returns (o: Outcome)
      modifies this
      ensures count < 0 ==> o == Fail(NegativeBucketCount) && buckets == old(buckets)
      ensures count >= 0 ==> o == Pass && buckets == Linear(start, width, count)
    {
      if count < 0 {
        return Fail(NegativeBucketCount);
      }
      var a := new Bound[count](j => PosInf);
      for i := 0 to count
        invariant forall j :: 0 <= j < i ==> a[j] == Finite(start + j as real * width)
      {
        a[i] := Finite(start + i as real * width);
      }
      forall j | 0 <= j < count ensures a[..][j] == Linear(start, width, count)[j] {
      }
      assert a[..] == Linear(start, width, count);
      buckets := a[..];
      return Pass;
    }

    /**
     * Create: the bucket checks (the extended bounds are stored back in the
     * builder), then the `le` check, then the Collector constructor's checks.
     */
    method Create() returns (r: Result<Histogram>)
      modifies this
      ensures var checked := CheckedBuckets(old(buckets));
        && (checked.Err? ==> r == Err(checked.error) && buckets == old(buckets))
        && (checked.Ok? ==> buckets == checked.value)
        && (checked.Ok? && "le" in settings.labelNames ==> r == Err(LeLabelNotAllowed))
        && (checked.Ok? && "le" !in settings.labelNames && Configure(settings.State()).Err? ==>
              r == Err(Configure(settings.State()).error))
        && (checked.Ok? && "le" !in settings.labelNames && Configure(settings.State()).Ok? ==>
              && r.Ok? && fresh(r.value) && fresh(r.value.base) && r.value.Valid()
              && r.value.bounds == checked.value && r.value.base.children == map[]
              && r.value.base.fullName == Configure(settings.State()).value.fullName
              && r.value.base.help == Configure(settings.State()).value.help
              && r.value.base.labelNames == settings.labelNames)
    {
      if |buckets| == 0 {
        return Err(NoBuckets);
      }
      var i := 0;
      while i < |buckets| - 1
        invariant 0 <= i <= |buckets| - 1
        invariant FirstDescent(buckets, 0) == FirstDescent(buckets, i)
      {
        if !Below(buckets[i], buckets[i + 1]) {
          return Err(BucketsNotIncreasing(i));
        }
        i := i + 1;
      }
      if buckets[|buckets| - 1] != PosInf {
        buckets := buckets + [PosInf];
      }
      if "le" in settings.labelNames {
        return Err(LeLabelNotAllowed);
      }
      var config := Validate(settings.State());
      if config.Err? {
        return Err(config.error);
      }
      var h := new Histogram(config.value, buckets);
      return Ok(h);
    }
  }
}
