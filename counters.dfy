/**
 * Counter.cs: a counter collector and its per-label-set child. The child's
 * compare-and-swap add is modelled by its sequential effect,
 * `value := value + inc`.
 */
module Counters {
  import opened Common
  import opened Samples
  import opened Collectors

  /** What one `Increment(inc)` does to a counter value: negative amounts are rejected and change nothing. */
  function Step(value: real, inc: real): real
  {
    if inc < 0.0 then value else value + inc
  }

  /** The value after a run of `Increment(inc)` calls, rejected ones included. */
  function Replay(value: real, incs: seq<real>): real
    decreases |incs|
  {
    if incs == [] then value else Replay(Step(value, incs[0]), incs[1..])
  }

  function Sum(incs: seq<real>): real
  {
    if incs == [] then 0.0 else incs[0] + Sum(incs[1..])
  }

  /** A counter never goes down, whatever amounts it is asked to add. */
  lemma {:induction false} ReplayNeverDecreases(value: real, incs: seq<real>)
    ensures Replay(value, incs) >= value
    decreases |incs|
  {
    if incs != [] {
      ReplayNeverDecreases(Step(value, incs[0]), incs[1..]);
    }
  }

  /** A run of calls is its first part followed by the rest. */
  lemma {:induction false} ReplayAppend(value: real, a: seq<real>, b: seq<real>)
    ensures Replay(value, a + b) == Replay(Replay(value, a), b)
    decreases |a|
  {
    if a != [] {
      assert (a + b)[0] == a[0] && (a + b)[1..] == a[1..] + b;
      ReplayAppend(Step(value, a[0]), a[1..], b);
    } else {
      assert a + b == b;
    }
  }

  /** Every intermediate value of a run is at most every later one. */
  lemma ReplayMonotone(value: real, incs: seq<real>, i: nat, j: nat)
    requires i <= j <= |incs|
    ensures Replay(value, incs[..i]) <= Replay(value, incs[..j])
  {
    assert incs[..j] == incs[..i] + incs[i..j];
    ReplayAppend(value, incs[..i], incs[i..j]);
    ReplayNeverDecreases(Replay(value, incs[..i]), incs[i..j]);
  }

  /** With no negative amount, the counter grows by exactly the sum of the amounts. */
  lemma {:induction false} ReplayAddsSum(value: real, incs: seq<real>)
    requires forall i :: 0 <= i < |incs| ==> incs[i] >= 0.0
    ensures Replay(value, incs) == value + Sum(incs)
    decreases |incs|
  {
    if incs != [] {
      ReplayAddsSum(Step(value, incs[0]), incs[1..]);
    }
  }

  /** Counter.Child: one value, starting at 0. */
  class Child {
    var value: real

    constructor()
      ensures value == 0.0
    {
      value := 0.0;
    }

    /** Increment(double inc). */
    method IncrementBy(inc: real) returns (o: Outcome)
      modifies this
      ensures o == if inc < 0.0 then Fail(NegativeIncrement) else Pass
      ensures value == Step(old(value), inc)
      ensures inc <= 0.0 ==> value == old(value)
      ensures inc > 0.0 ==> value == old(value) + inc
    {
      if inc < 0.0 {
        return Fail(NegativeIncrement);
      }
      if inc == 0.0 {
        return Pass;
      }
      value := value + inc;
      return Pass;
    }

    /** Increment(): adds one. */
    method Increment()
      modifies this
      ensures value == old(value) + 1.0
    {
      var _ := IncrementBy(1.0);
    }
  }

  /** Counter: a collector whose children are counters. */
  class Counter {
    const base: Collector<Child>

    ghost predicate Valid()
      reads this, base
    {
      base.Valid()
    }

    constructor(config: Config)
      requires ValidConfig(config)
      ensures Valid() && fresh(base)
      ensures base.fullName == config.fullName && base.help == config.help && base.labelNames == config.labelNames
      ensures base.children == map[]
    {
      base := new Collector(config);
    }

    /** NewChild: a fresh child at 0, to hand to `base.Labels`. */
    method NewChild() returns (c: Child)
      ensures fresh(c) && c.value == 0.0
    {
      c := new Child();
    }

    /** The samples for `keys`, one per key: full name, label names, the key, the child's value. */
    function SamplesOf(keys: seq<LabelKey>): (r: seq<Sample>)
      reads this, base, base.children.Values
      requires Valid() && forall k :: k in keys ==> k in base.children
      ensures |r| == |keys|
      ensures forall i :: 0 <= i < |keys| ==>
        r[i] == Sample(base.fullName, base.labelNames, keys[i], Num(base.children[keys[i]].value))
    {
      if keys == [] then []
      else
        var k := keys[|keys| - 1];
        SamplesOf(keys[..|keys| - 1]) + [Sample(base.fullName, base.labelNames, k, Num(base.children[k].value))]
    }

    /**
     * What `Collect` returns: one Counter family under the collector's name and
     * help, with one sample per child.
     */
    function Families(): (r: seq<MetricFamilySamples>)
      reads this, base, base.children.Values
      requires Valid()
      ensures |r| == 1 && r[0].kind == CollectorType.Counter && ValidFamily(r[0])
      ensures r[0].name == base.fullName && r[0].help == base.help && |r[0].samples| == |base.children|
    {
      OrderEnumeratesChildren(base);
      base.FamilySamplesList(CollectorType.Counter, SamplesOf(base.order))
    }

    /** Collect: one Counter family with one sample per child, in the dictionary's order. */
    method Collect() returns (r: seq<MetricFamilySamples>)
      requires Valid()
      ensures r == Families()
    {
      OrderEnumeratesChildren(base);
      ValidMetricNameNotBlank(base.fullName, "");
      var keys, children := base.order, base.children;
      var samples: seq<Sample> := [];
      var i := 0;
      while i < |keys|
        invariant 0 <= i <= |keys| && |samples| == i
        invariant forall j :: 0 <= j < i ==>
          samples[j] == Sample(base.fullName, base.labelNames, keys[j], Num(children[keys[j]].value))
      {
        var sample := NewSample(base.fullName, Some(base.labelNames), Some(keys[i]), Num(children[keys[i]].value));
        samples := samples + [sample.value];
        i := i + 1;
      }
      assert samples == SamplesOf(base.order);
      r := base.FamilySamplesList(CollectorType.Counter, samples);
    }
  }

  /** CounterBuilder.Build: runs the Collector constructor's checks, then constructs the counter. */
  method Build(b: Builder) returns (r: Result<Counter>)
    ensures Configure(b.State()).Err? ==> r == Err(Configure(b.State()).error)
    ensures Configure(b.State()).Ok? ==>
      && r.Ok? && fresh(r.value) && fresh(r.value.base) && r.value.Valid()
      && r.value.base.fullName == Configure(b.State()).value.fullName
      && r.value.base.help == Configure(b.State()).value.help
      && r.value.base.labelNames == b.labelNames && r.value.base.children == map[]
  {
    var config := Validate(b.State());
    if config.Err? {
      return Err(config.error);
    }
    var counter := new Counter(config.value);
    return Ok(counter);
  }

  /** One collector, two keys: the same key gives back the same child, a new key a different one. */
  method LabelsReturnsSameInstance(c: Counter, a: string, b: string) returns (first: Child, again: Child, other: Child)
    requires c.Valid() && |c.base.labelNames| == 1 && a != b
    modifies c.base
    ensures again == first && other != first
  {
    var n1 := c.NewChild();
    var r1 := c.base.Labels([Some(a)], n1);
    var n2 := c.NewChild();
    var r2 := c.base.Labels([Some(a)], n2);
    assert r2 == r1;
    var n3 := c.NewChild();
    var r3 := c.base.Labels([Some(b)], n3);
    assert [b] != [a];
    first, again, other := r1.value, r2.value, r3.value;
  }
}
