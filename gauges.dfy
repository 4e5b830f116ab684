/**
 * Gauge.cs: a gauge collector and its per-label-set child, whose value may go
 * up, down, or be set outright. The child's compare-and-swap add and its
 * interlocked exchange are modelled by their sequential effects.
 */
module Gauges {
  import opened Common
  import opened Samples
  import opened Collectors

  /** One call on a gauge child: `Increment(x)`, `Decrement(x)` or `Set(x)`. */
  datatype GaugeOp = Inc(amount: real) | Dec(amount: real) | Set(to: real)

  /** What one call does to the value. */
  function Apply(value: real, op: GaugeOp): real
  {
    match op
    case Inc(x) => value + x
    case Dec(x) => value - x
    case Set(x) => x
  }

  /** The value after a run of calls, first to last. */
  function ApplyAll(value: real, ops: seq<GaugeOp>): real
    decreases |ops|
  {
    if ops == [] then value else ApplyAll(Apply(value, ops[0]), ops[1..])
  }

  /** The net change of a run without `Set`: increments minus decrements. */
  function Net(ops: seq<GaugeOp>): real
  {
    if ops == [] then 0.0
    else (match ops[0] case Inc(x) => x case Dec(x) => -x case Set(_) => 0.0) + Net(ops[1..])
  }

  /** A run of calls is its first part followed by the rest. */
  lemma {:induction false} ApplyAllAppend(value: real, a: seq<GaugeOp>, b: seq<GaugeOp>)
    ensures ApplyAll(value, a + b) == ApplyAll(ApplyAll(value, a), b)
    decreases |a|
  {
    if a != [] {
      assert (a + b)[0] == a[0] && (a + b)[1..] == a[1..] + b;
      ApplyAllAppend(Apply(value, a[0]), a[1..], b);
    } else {
      assert a + b == b;
    }
  }

  /** Without `Set`, the final value is the start plus the net change. */
  lemma {:induction false} ApplyAllIsNet(value: real, ops: seq<GaugeOp>)
    requires forall i :: 0 <= i < |ops| ==> !ops[i].Set?
    ensures ApplyAll(value, ops) == value + Net(ops)
    decreases |ops|
  {
    if ops != [] {
      ApplyAllIsNet(Apply(value, ops[0]), ops[1..]);
    }
  }

  /** A `Set` forgets everything before it. */
  lemma SetOverridesHistory(value: real, before: seq<GaugeOp>, x: real, after: seq<GaugeOp>)
    ensures ApplyAll(value, before + [Set(x)] + after) == ApplyAll(x, after)
  {
    ApplyAllAppend(value, before + [Set(x)], after);
    ApplyAllAppend(value, before, [Set(x)]);
  }

  /** `Decrement(x)` is `Increment(-x)`, and they undo an `Increment(x)`. */
  lemma DecrementIsNegatedIncrement(value: real, x: real)
    ensures Apply(value, Dec(x)) == Apply(value, Inc(-x))
    ensures ApplyAll(value, [Inc(x), Dec(x)]) == value
  {
    var ops := [Inc(x), Dec(x)];
    assert ops[1..] == [Dec(x)] && ops[1..][1..] == [];
    assert ApplyAll(value, ops) == ApplyAll(value + x, [Dec(x)]) == ApplyAll(value + x - x, []);
  }

  /** Gauge.Child: one value, starting at 0. */
  class Child {
    var value: real

    constructor()
      ensures value == 0.0
    {
      value := 0.0;
    }

    /** Increment(double value): zero is a no-op, anything else is added. */
    method IncrementBy(x: real)
      modifies this
      ensures value == Apply(old(value), Inc(x))
    {
      if x == 0.0 {
        return;
      }
      value := value + x;
    }

    method Increment()
      modifies this
      ensures value == old(value) + 1.0
    {
      IncrementBy(1.0);
    }

    /** Decrement(double value): `Increment(-value)`. */
    method DecrementBy(x: real)
      modifies this
      ensures value == Apply(old(value), Dec(x))
    {
      IncrementBy(-x);
    }

    method Decrement()
      modifies this
      ensures value == old(value) - 1.0
    {
      IncrementBy(-1.0);
    }

    method SetTo(x: real)
      modifies this
      ensures value == Apply(old(value), Set(x))
    {
      value := x;
    }

    /** SetToCurrentTime: `now` stands for the clock's Unix time in whole seconds. */
    method SetToCurrentTime(now: int)
      modifies this
      ensures value == now as real
    {
      SetTo(now as real);
    }

    /** Performs one call of a run. */
    method Perform(op: GaugeOp)
      modifies this
      ensures value == Apply(old(value), op)
    {
      match op
      case Inc(x) => IncrementBy(x);
      case Dec(x) => DecrementBy(x);
      case Set(x) => SetTo(x);
    }
  }

  /** Gauge: a collector whose children are gauges. */
  class Gauge {
    const base: Collector<Child>

    ghost predicate Valid()
      reads this, base
    {
      base.Valid()
    }

    constructor(config: Config)
      requires ValidConfig(config)
      ensures Valid() && fresh(base)
      ensures base.fullName == config.fullName && base.help == config.help && base.labelNames == config.labelNames
      ensures base.children == map[]
    {
      base := new Collector(config);
    }

    /** NewChild: a fresh child at 0, to hand to `base.Labels`. */
    method NewChild() returns (c: Child)
      ensures fresh(c) && c.value == 0.0
    {
      c := new Child();
    }

    /**
     * The samples for `keys`, one per key: full name, label names, the key,
     * the child's value. Gauge.cs repeats Counter.cs's `Collect` loop, and
     * the two child classes share no type to abstract over here, so this
     * mirrors `Counters.Counter.SamplesOf` over a gauge's children.
     */
    function SamplesOf(keys: seq<LabelKey>): (r: seq<Sample>)
      reads this, base, base.children.Values
      requires Valid() && forall k :: k in keys ==> k in base.children
      ensures |r| == |keys|
      ensures forall i :: 0 <= i < |keys| ==>
        r[i] == Sample(base.fullName, base.labelNames, keys[i], Num(base.children[keys[i]].value))
    {
      if keys == [] then []
      else
        var k := keys[|keys| - 1];
        SamplesOf(keys[..|keys| - 1]) + [Sample(base.fullName, base.labelNames, k, Num(base.children[k].value))]
    }

    /**
     * What `Collect` returns: one Gauge family under the collector's name and
     * help, with one sample per child.
     */
    function Families(): (r: seq<MetricFamilySamples>)
      reads this, base, base.children.Values
      requires Valid()
      ensures |r| == 1 && r[0].kind == CollectorType.Gauge && ValidFamily(r[0])
      ensures r[0].name == base.fullName && r[0].help == base.help && |r[0].samples| == |base.children|
    {
      OrderEnumeratesChildren(base);
      base.FamilySamplesList(CollectorType.Gauge, SamplesOf(base.order))
    }

    /** Collect: one Gauge family with one sample per child, in the dictionary's order. */
    method Collect() returns (r: seq<MetricFamilySamples>)
      requires Valid()
      ensures r == Families()
    {
      OrderEnumeratesChildren(base);
      ValidMetricNameNotBlank(base.fullName, "");
      var keys, children := base.order, base.children;
      var samples: seq<Sample> := [];
      var i := 0;
      while i < |keys|
        invariant 0 <= i <= |keys| && |samples| == i
        invariant forall j :: 0 <= j < i ==>
          samples[j] == Sample(base.fullName, base.labelNames, keys[j], Num(children[keys[j]].value))
      {
        var sample := NewSample(base.fullName, Some(base.labelNames), Some(keys[i]), Num(children[keys[i]].value));
        samples := samples + [sample.value];
        i := i + 1;
      }
      assert samples == SamplesOf(base.order);
      r := base.FamilySamplesList(CollectorType.Gauge, samples);
    }
  }

  /** GaugeBuilder.Build: runs the Collector constructor's checks, then constructs the gauge. */
  method Build(b: Builder) returns (r: Result<Gauge>)
    ensures Configure(b.State()).Err? ==> r == Err(Configure(b.State()).error)
    ensures Configure(b.State()).Ok? ==>
      && r.Ok? && fresh(r.value) && fresh(r.value.base) && r.value.Valid()
      && r.value.base.fullName == Configure(b.State()).value.fullName
      && r.value.base.help == Configure(b.State()).value.help
      && r.value.base.labelNames == b.labelNames && r.value.base.children == map[]
  {
    var config := Validate(b.State());
    if config.Err? {
      return Err(config.error);
    }
    var gauge := new Gauge(config.value);
    return Ok(gauge);
  }
}
