/**
 * CollectorRegistry.cs: two dictionaries, collector to the series names it
 * claims and (case-insensitive) series name to collector, kept consistent by
 * an all-or-nothing `Register` and an `Unregister`.
 */
module Registry {
  import opened Common
  import opened Samples
  import opened Collectors
  import Counters
  import Gauges
  import Histograms

  /** A collector as the registry holds it: a reference to one of the three kinds. */
  datatype AnyCollector =
    | CounterOf(counter: Counters.Counter)
    | GaugeOf(gauge: Gauges.Gauge)
    | HistogramOf(histogram: Histograms.Histogram)

  /** Collector.Name: the full name fixed at construction. */
  function Name(c: AnyCollector): string
  {
    match c
    case CounterOf(x) => x.base.fullName
    case GaugeOf(x) => x.base.fullName
    case HistogramOf(x) => x.base.fullName
  }

  /** CollectorNames: a histogram claims its three series and its own name; any other collector its name. */
  function CollectorNames(c: AnyCollector): (r: seq<string>)
    ensures |r| > 0 && r[|r| - 1] == Name(c)
  {
    var name := Name(c);
    match c
    case HistogramOf(_) => [name + "_count", name + "_sum", name + "_bucket", name]
    case _ => [name]
  }

  /**
   * The names claimed: four for a histogram, one otherwise; the collector's
   * own name last, every other one being that name and a suffix after an
   * underscore; a histogram claims each series it reports; and no two
   * claimed names share a key, so a collector never collides with itself.
   */
  lemma CollectorNamesSpec(c: AnyCollector)
    ensures var r := CollectorNames(c);
      && |r| == (if c.HistogramOf? then 4 else 1)
      && r[|r| - 1] == Name(c)
      && (forall i :: 0 <= i < |r| - 1 ==> |r[i]| > |Name(c)| + 1 && r[i][..|Name(c)| + 1] == Name(c) + "_")
      && (c.HistogramOf? ==> forall suffix :: suffix in ["_bucket", "_count", "_sum"] ==> Name(c) + suffix in r)
      && (forall i, j :: 0 <= i < j < |r| ==> Fold(r[i]) != Fold(r[j]))
  {
    var name := Name(c);
    var r := CollectorNames(c);
    forall i | 0 <= i < |r| - 1
      ensures |r[i]| > |name| + 1 && r[i][..|name| + 1] == name + "_"
    {
      var suffix := r[i][|name|..];
      assert r[i] == name + suffix;
      assert suffix[0] == '_';
    }
    forall i, j | 0 <= i < j < |r|
      ensures Fold(r[i]) != Fold(r[j])
    {
      assert |Fold(r[i])| == |r[i]| && |Fold(r[j])| == |r[j]|;
    }
  }

  // ---------------------------------------------------------------------------
  // Case-insensitive names
  // ---------------------------------------------------------------------------

  /** The ordinal upper-case of an ASCII character; other characters are kept. */
  function UpperChar(ch: char): char
  {
    if 'a' <= ch <= 'z' then (ch as int - 32) as char else ch
  }

  /** The key `StringComparer.OrdinalIgnoreCase` compares by: each character upper-cased in place. */
  function Fold(s: string): string
  {
    seq(|s|, i requires 0 <= i < |s| => UpperChar(s[i]))
  }

  /** The keys of a list of names, in the list's order. */
  function Folds(names: seq<string>): seq<string>
  {
    seq(|names|, i requires 0 <= i < |names| => Fold(names[i]))
  }

  // ---------------------------------------------------------------------------
  // The two dictionaries as values
  // ---------------------------------------------------------------------------

  /**
   * The registry's state: `_collectorToNames`, `_namesToCollectors` keyed by
   * folded name, and the enumeration order of `_collectorToNames` (insertion
   * order).
   */
  datatype Index = Index(
    collectorToNames: map<AnyCollector, seq<string>>,
    namesToCollectors: map<string, AnyCollector>,
    order: seq<AnyCollector>)

  /** The order lists each registered collector exactly once. */
  ghost predicate OrderMatches(ix: Index)
  {
    && (forall c :: c in ix.collectorToNames ==> c in ix.order)
    && (forall i :: 0 <= i < |ix.order| ==> ix.order[i] in ix.collectorToNames)
    && Distinct(ix.order)
  }

  /** Each recorded name list is the collector's own. */
  ghost predicate RecordsNames(ix: Index)
  {
    forall c :: c in ix.collectorToNames ==> ix.collectorToNames[c] == CollectorNames(c)
  }

  /** Every indexed name is among the recorded names of the collector it maps to. */
  ghost predicate NamesBelong(ix: Index)
  {
    forall k :: k in ix.namesToCollectors ==>
      ix.namesToCollectors[k] in ix.collectorToNames && k in Folds(ix.collectorToNames[ix.namesToCollectors[k]])
  }

  /** Every recorded name of a registered collector is indexed, and maps to that collector. */
  ghost predicate NamesIndexed(ix: Index)
  {
    forall c, k :: c in ix.collectorToNames && k in Folds(ix.collectorToNames[c]) ==>
      k in ix.namesToCollectors && ix.namesToCollectors[k] == c
  }

  /**
   * The registry's invariant: together, `NamesBelong` and `NamesIndexed` say
   * a name maps to `c` exactly when it is among `c`'s recorded names.
   */
  ghost predicate Consistent(ix: Index)
  {
    OrderMatches(ix) && RecordsNames(ix) && NamesBelong(ix) && NamesIndexed(ix)
  }

  /** The first name, in list order, whose key is already taken: what Register's first loop throws for. */
  function FirstClaimed(names: seq<string>, taken: map<string, AnyCollector>): (r: Option<string>)
    ensures r.None? <==> forall i :: 0 <= i < |names| ==> Fold(names[i]) !in taken
    ensures r.Some? ==> r.value in names
    ensures r.Some? ==>
      exists i :: 0 <= i < |names| && names[i] == r.value && Fold(names[i]) in taken &&
        (forall j :: 0 <= j < i ==> Fold(names[j]) !in taken)
  {
    if names == [] then None
    else if Fold(names[0]) in taken then Some(names[0])
    else
      var rest := FirstClaimed(names[1..], taken);
      assert forall i :: 1 <= i < |names| ==> names[i] == names[1..][i - 1];
      rest
  }

  /** The dictionary after `m[k] = c` for every `k` of `keys`, first to last. */
  function Claim(m: map<string, AnyCollector>, keys: seq<string>, c: AnyCollector): (r: map<string, AnyCollector>)
    ensures forall k :: k in r <==> k in m || k in keys
    ensures forall k :: k in keys ==> r[k] == c
    ensures forall k :: k in m && k !in keys ==> r[k] == m[k]
  {
    if keys == [] then m
    else Claim(m, keys[..|keys| - 1], c)[keys[|keys| - 1] := c]
  }

  /** The dictionary after `Remove(k)` for every `k` of `keys`. */
  function Release(m: map<string, AnyCollector>, keys: seq<string>): (r: map<string, AnyCollector>)
    ensures forall k :: k in r <==> k in m && k !in keys
    ensures forall k :: k in r ==> r[k] == m[k]
  {
    if keys == [] then m
    else Release(m, keys[..|keys| - 1]) - {keys[|keys| - 1]}
  }

  /** Register: fails naming the first taken name and changes nothing, or claims every name and records the list. */
  function Registered(ix: Index, c: AnyCollector): (r: Result<Index>)
    ensures r.Err? <==> exists n :: n in CollectorNames(c) && Fold(n) in ix.namesToCollectors
    ensures r.Err? ==>
      r.error.DuplicateName? && r.error.series in CollectorNames(c) && Fold(r.error.series) in ix.namesToCollectors
    ensures r.Err? ==> FirstClaimed(CollectorNames(c), ix.namesToCollectors) == Some(r.error.series)
    ensures r.Ok? ==> r.value.collectorToNames == ix.collectorToNames[c := CollectorNames(c)]
    ensures r.Ok? ==> forall k :: k in r.value.namesToCollectors <==>
      k in ix.namesToCollectors || k in Folds(CollectorNames(c))
    ensures r.Ok? ==> forall k :: k in Folds(CollectorNames(c)) ==> r.value.namesToCollectors[k] == c
    ensures r.Ok? ==> forall k :: k in ix.namesToCollectors ==> r.value.namesToCollectors[k] == ix.namesToCollectors[k]
    ensures r.Ok? ==> r.value.order == (if c in ix.collectorToNames then ix.order else ix.order + [c])
  {
    var names := CollectorNames(c);
    match FirstClaimed(names, ix.namesToCollectors)
    case Some(n) => Err(DuplicateName(n))
    case None =>
      Ok(Index(ix.collectorToNames[c := names],
               Claim(ix.namesToCollectors, Folds(names), c),
               if c in ix.collectorToNames then ix.order else ix.order + [c]))
  }

  /** Unregister: drops the collector and exactly its recorded names; a collector not registered changes nothing. */
  function Unregistered(ix: Index, c: AnyCollector): (r: Index)
    ensures c !in ix.collectorToNames ==> r == ix
    ensures c in ix.collectorToNames ==> r.collectorToNames == ix.collectorToNames - {c}
    ensures c in ix.collectorToNames ==> forall k :: k in r.namesToCollectors <==>
      k in ix.namesToCollectors && k !in Folds(ix.collectorToNames[c])
  {
    if c !in ix.collectorToNames then ix
    else
      Index(ix.collectorToNames - {c},
            Release(ix.namesToCollectors, Folds(ix.collectorToNames[c])),
            RemoveKey(ix.order, c))
  }

  /** A registry already holding `c` holds every name of `c`, so registering `c` again fails. */
  lemma RegisteredTwiceFails(ix: Index, c: AnyCollector)
    requires RecordsNames(ix) && NamesIndexed(ix) && c in ix.collectorToNames
    ensures Registered(ix, c).Err?
  {
    var names := CollectorNames(c);
    assert Folds(names)[0] == Fold(names[0]);
  }

  /** The registry after a Register of a collector not yet registered. */
  function Added(ix: Index, c: AnyCollector): Index
  {
    Index(ix.collectorToNames[c := CollectorNames(c)],
          Claim(ix.namesToCollectors, Folds(CollectorNames(c)), c),
          ix.order + [c])
  }

  /** None of `c`'s keys is taken. */
  ghost predicate NamesFree(ix: Index, c: AnyCollector)
  {
    forall k :: k in Folds(CollectorNames(c)) ==> k !in ix.namesToCollectors
  }

  /** A Register that succeeds was for a collector not yet registered, whose names are all free. */
  lemma RegisteredFresh(ix: Index, c: AnyCollector)
    requires Consistent(ix) && Registered(ix, c).Ok?
    ensures c !in ix.collectorToNames && c !in ix.order && NamesFree(ix, c)
    ensures Registered(ix, c) == Ok(Added(ix, c))
  {
    if c in ix.collectorToNames {
      RegisteredTwiceFails(ix, c);
    }
    var names := CollectorNames(c);
    var keys := Folds(names);
    forall k | k in keys ensures k !in ix.namesToCollectors {
      var i :| 0 <= i < |keys| && keys[i] == k;
      assert Fold(names[i]) == k;
    }
  }

  /** Register keeps the two dictionaries consistent. */
  lemma RegisterKeepsConsistent(ix: Index, c: AnyCollector)
    requires Consistent(ix) && Registered(ix, c).Ok?
    ensures Consistent(Registered(ix, c).value)
  {
    RegisteredFresh(ix, c);
    AddedOrder(ix, c);
    AddedNamesBelong(ix, c);
    AddedNamesIndexed(ix, c);
  }

  /** After Register the order still lists each collector once, and each keeps its list. */
  lemma AddedOrder(ix: Index, c: AnyCollector)
    requires OrderMatches(ix) && RecordsNames(ix) && c !in ix.collectorToNames && c !in ix.order
    ensures OrderMatches(Added(ix, c)) && RecordsNames(Added(ix, c))
  {
    var r := Added(ix, c);
    forall i, j | 0 <= i < j < |r.order| ensures r.order[i] != r.order[j] {
      assert r.order[i] == ix.order[i];
      if j < |ix.order| {
        assert r.order[j] == ix.order[j];
      }
    }
  }

  /** After Register every indexed name belongs to the collector it maps to. */
  lemma AddedNamesBelong(ix: Index, c: AnyCollector)
    requires NamesBelong(ix) && c !in ix.collectorToNames
    ensures NamesBelong(Added(ix, c))
  {
    var r := Added(ix, c);
    forall k | k in r.namesToCollectors
      ensures r.namesToCollectors[k] in r.collectorToNames && k in Folds(r.collectorToNames[r.namesToCollectors[k]])
    {
      if k !in Folds(CollectorNames(c)) {
        var d := ix.namesToCollectors[k];
        assert r.namesToCollectors[k] == d && d != c;
        assert r.collectorToNames[d] == ix.collectorToNames[d];
      }
    }
  }

  /** After Register every name of every collector maps to it. */
  lemma AddedNamesIndexed(ix: Index, c: AnyCollector)
    requires NamesIndexed(ix) && NamesFree(ix, c) && c !in ix.collectorToNames
    ensures NamesIndexed(Added(ix, c))
  {
    var r := Added(ix, c);
    var keys := Folds(CollectorNames(c));
    forall d, k | d in r.collectorToNames && k in Folds(r.collectorToNames[d])
      ensures k in r.namesToCollectors && r.namesToCollectors[k] == d
    {
      if d != c {
        assert r.collectorToNames[d] == ix.collectorToNames[d];
        assert k in ix.namesToCollectors && ix.namesToCollectors[k] == d;
        assert k !in keys;
      }
    }
  }

  /** Unregister keeps the two dictionaries consistent. */
  lemma UnregisterKeepsConsistent(ix: Index, c: AnyCollector)
    requires Consistent(ix)
    ensures Consistent(Unregistered(ix, c))
  {
    if c in ix.collectorToNames {
      UnregisteredOrder(ix, c);
      ReleasedNamesBelong(ix, c);
      RemainingNamesIndexed(ix, c);
    }
  }

  /** After Unregister the order still lists each remaining collector once, and each keeps its list. */
  lemma UnregisteredOrder(ix: Index, c: AnyCollector)
    requires OrderMatches(ix) && RecordsNames(ix) && c in ix.collectorToNames
    ensures OrderMatches(Unregistered(ix, c)) && RecordsNames(Unregistered(ix, c))
  {
    var r := Unregistered(ix, c);
    forall i | 0 <= i < |r.order| ensures r.order[i] in r.collectorToNames {
      assert r.order[i] in r.order;
    }
  }

  /** After Unregister every remaining name still belongs to a remaining collector. */
  lemma ReleasedNamesBelong(ix: Index, c: AnyCollector)
    requires NamesBelong(ix) && c in ix.collectorToNames
    ensures NamesBelong(Unregistered(ix, c))
  {
    var keys := Folds(ix.collectorToNames[c]);
    var ctn, ntc := ix.collectorToNames - {c}, Release(ix.namesToCollectors, keys);
    forall k | k in ntc
      ensures ntc[k] in ctn && k in Folds(ctn[ntc[k]])
    {
      assert ntc[k] == ix.namesToCollectors[k];
    }
  }

  /** After Unregister every name of a remaining collector still maps to it. */
  lemma RemainingNamesIndexed(ix: Index, c: AnyCollector)
    requires NamesIndexed(ix) && c in ix.collectorToNames
    ensures NamesIndexed(Unregistered(ix, c))
  {
    var keys := Folds(ix.collectorToNames[c]);
    var ctn, ntc := ix.collectorToNames - {c}, Release(ix.namesToCollectors, keys);
    forall d, k | d in ctn && k in Folds(ctn[d])
      ensures k in ntc && ntc[k] == d
    {
      assert ctn[d] == ix.collectorToNames[d];
      assert ix.namesToCollectors[k] == d;
    }
  }

  /** Dropping an element the order does not hold after appending it gives the order back. */
  lemma {:induction false} RemoveAppended<K>(order: seq<K>, x: K)
    requires x !in order
    ensures RemoveKey(order + [x], x) == order
  {
    if order != [] {
      assert (order + [x])[1..] == order[1..] + [x];
      assert (order + [x])[0] == order[0];
      RemoveAppended(order[1..], x);
      assert [order[0]] + order[1..] == order;
    } else {
      assert RemoveKey([x], x) == RemoveKey([x][1..], x);
    }
  }

  /** Removing keys that were all absent before they were claimed gives the dictionary back. */
  lemma ReleaseClaimed(m: map<string, AnyCollector>, keys: seq<string>, c: AnyCollector)
    requires forall k :: k in keys ==> k !in m
    ensures Release(Claim(m, keys, c), keys) == m
  {
  }

  /** A successful Register followed by Unregister of the same collector gives back the registry as it was. */
  lemma RegisterThenUnregister(ix: Index, c: AnyCollector)
    requires Consistent(ix) && Registered(ix, c).Ok?
    ensures Unregistered(Registered(ix, c).value, c) == ix
  {
    RegisteredFresh(ix, c);
    AddedThenRemoved(ix, c);
  }

  lemma AddedThenRemoved(ix: Index, c: AnyCollector)
    requires c !in ix.collectorToNames && c !in ix.order && NamesFree(ix, c)
    ensures Unregistered(Added(ix, c), c) == ix
  {
    var names := CollectorNames(c);
    ReleaseClaimed(ix.namesToCollectors, Folds(names), c);
    RemoveAppended(ix.order, c);
    assert ix.collectorToNames[c := names] - {c} == ix.collectorToNames;
  }

  /** Names compare without case: once a collector named `X` is in, one named `x` cannot register. */
  lemma NamesIgnoreCase(ix: Index, c: AnyCollector, d: AnyCollector)
    requires Consistent(ix) && c in ix.collectorToNames && Fold(Name(d)) == Fold(Name(c))
    ensures Registered(ix, d).Err?
  {
    NameIsIndexed(ix, c);
    TakenNameFails(ix, d, Name(d));
  }

  /** One taken name is enough for `Register` to fail. */
  lemma TakenNameFails(ix: Index, c: AnyCollector, n: string)
    requires n in CollectorNames(c) && Fold(n) in ix.namesToCollectors
    ensures Registered(ix, c).Err?
  {
  }

  // ---------------------------------------------------------------------------
  // Gathering the samples
  // ---------------------------------------------------------------------------

  /** The collector's child dictionary, whose values decide what else `Collect` reads. */
  function BaseOf(c: AnyCollector): object
  {
    match c
    case CounterOf(x) => x.base as object
    case GaugeOf(x) => x.base as object
    case HistogramOf(x) => x.base as object
  }

  /** The objects a collector's `Collect` reads: the collector, its base, its children and, for a histogram, their bucket counts. */
  ghost function Footprint(c: AnyCollector): set<object>
    reads BaseOf(c)
  {
    match c
    case CounterOf(x) => {x as object, x.base} + x.base.children.Values
    case GaugeOf(x) => {x as object, x.base} + x.base.children.Values
    case HistogramOf(x) =>
      {x as object, x.base} + x.base.children.Values + set ch | ch in x.base.children.Values :: ch.counts
  }

  /** The collector's own invariant holds, so its `Collect` may be called. */
  ghost predicate Ready(c: AnyCollector)
    reads BaseOf(c)
    reads Footprint(c)
  {
    match c
    case CounterOf(x) => x.Valid()
    case GaugeOf(x) => x.Valid()
    case HistogramOf(x) => x.Valid()
  }

  /** What the collector's `Collect` returns: one family, under its name, of its kind, with its help. */
  ghost function FamiliesOf(c: AnyCollector, fmt: real -> string): (r: seq<MetricFamilySamples>)
    reads BaseOf(c)
    reads Footprint(c)
    requires Ready(c)
    ensures |r| == 1 && Reports(r[0], c)
  {
    match c
    case CounterOf(x) => x.Families()
    case GaugeOf(x) => x.Families()
    case HistogramOf(x) => x.FamiliesShape(fmt); x.Families(fmt)
  }

  /** The kind of family a collector reports. */
  function Kind(c: AnyCollector): CollectorType
  {
    match c
    case CounterOf(_) => CollectorType.Counter
    case GaugeOf(_) => CollectorType.Gauge
    case HistogramOf(_) => CollectorType.Histogram
  }

  /** The help text a collector was configured with. */
  function Help(c: AnyCollector): string
  {
    match c
    case CounterOf(x) => x.base.help
    case GaugeOf(x) => x.base.help
    case HistogramOf(x) => x.base.help
  }

  /** In a consistent registry no two collectors share a name, even up to case. */
  lemma NamesDistinct(ix: Index, i: nat, j: nat)
    requires Consistent(ix) && i < j < |ix.order|
    ensures Fold(Name(ix.order[i])) != Fold(Name(ix.order[j]))
  {
    var c, d := ix.order[i], ix.order[j];
    if Fold(Name(c)) == Fold(Name(d)) {
      NameIsIndexed(ix, c);
      NameIsIndexed(ix, d);
      assert false;
    }
  }

  /** In a consistent registry no two collectors in the order share a name, even up to case. */
  lemma NamesAllDistinct(ix: Index)
    requires Consistent(ix)
    ensures forall i, j :: 0 <= i < j < |ix.order| ==> Fold(Name(ix.order[i])) != Fold(Name(ix.order[j]))
  {
    forall i, j | 0 <= i < j < |ix.order| ensures Fold(Name(ix.order[i])) != Fold(Name(ix.order[j])) {
      NamesDistinct(ix, i, j);
    }
  }

  /** A registered collector's own name is indexed, and maps to it. */
  lemma NameIsIndexed(ix: Index, c: AnyCollector)
    requires RecordsNames(ix) && NamesIndexed(ix) && c in ix.collectorToNames
    ensures Fold(Name(c)) in ix.namesToCollectors && ix.namesToCollectors[Fold(Name(c))] == c
  {
    var names := CollectorNames(c);
    assert Folds(names)[|names| - 1] == Fold(Name(c));
  }

  // ---------------------------------------------------------------------------
  // The registry object
  // ---------------------------------------------------------------------------

  class CollectorRegistry {
    var collectorToNames: map<AnyCollector, seq<string>>
    var namesToCollectors: map<string, AnyCollector>
    var order: seq<AnyCollector>

    function State(): Index
      reads this
    {
      Index(collectorToNames, namesToCollectors, order)
    }

    ghost predicate Valid()
      reads this
    {
      Consistent(State())
    }

    constructor()
      ensures Valid() && collectorToNames == map[] && namesToCollectors == map[] && order == []
    {
      collectorToNames, namesToCollectors, order := map[], map[], [];
    }

    /** Register's first loop: the first name whose key is taken, if any. */
    method FirstTaken(names: seq<string>) returns (r: Option<string>)
      ensures r == FirstClaimed(names, namesToCollectors)
    {
      for i := 0 to |names|
        invariant forall j :: 0 <= j < i ==> Fold(names[j]) !in namesToCollectors
      {
        if Fold(names[i]) in namesToCollectors {
          var first := FirstClaimed(names, namesToCollectors);
          var k :| 0 <= k < |names| && names[k] == first.value && Fold(names[k]) in namesToCollectors &&
            (forall j :: 0 <= j < k ==> Fold(names[j]) !in namesToCollectors);
          assert k == i;
          return Some(names[i]);
        }
      }
      return None;
    }

    /** Register's second loop: every name's key now maps to `c`. */
    method ClaimAll(names: seq<string>, c: AnyCollector)
      modifies this
      ensures namesToCollectors == Claim(old(namesToCollectors), Folds(names), c)
      ensures collectorToNames == old(collectorToNames) && order == old(order)
    {
      for i := 0 to |names|
        invariant namesToCollectors == Claim(old(namesToCollectors), Folds(names)[..i], c)
        invariant collectorToNames == old(collectorToNames) && order == old(order)
      {
        assert Folds(names)[..i + 1][..i] == Folds(names)[..i];
        namesToCollectors := namesToCollectors[Fold(names[i]) := c];
      }
      assert Folds(names)[..|names|] == Folds(names);
    }

    /** Register: throws for the first taken name and changes nothing, or claims them all and records the list. */
    method Register(c: AnyCollector) returns (o: Outcome)
      requires Valid()
      modifies this
      ensures Valid()
      ensures Registered(old(State()), c).Err? ==>
        o == Fail(Registered(old(State()), c).error) && State() == old(State())
      ensures Registered(old(State()), c).Ok? ==> o == Pass && State() == Registered(old(State()), c).value
    {
      ghost var before := State();
      var names := CollectorNames(c);
      var taken := FirstTaken(names);
      if taken.Some? {
        return Fail(DuplicateName(taken.value));
      }
      RegisteredFresh(before, c);
      RegisterKeepsConsistent(before, c);
      Record(c, names);
      return Pass;
    }

    /** Register's second loop and last step, for a collector not yet registered. */
    method Record(c: AnyCollector, names: seq<string>)
      requires c !in collectorToNames && names == CollectorNames(c)
      modifies this
      ensures State() == Added(old(State()), c)
    {
      ClaimAll(names, c);
      if c !in collectorToNames {
        order := order + [c];
      }
      collectorToNames := collectorToNames[c := names];
    }

    /** Unregister's loop: each of the recorded names' keys is removed. */
    method ReleaseAll(names: seq<string>)
      modifies this
      ensures namesToCollectors == Release(old(namesToCollectors), Folds(names))
      ensures collectorToNames == old(collectorToNames) && order == old(order)
    {
      for i := 0 to |names|
        invariant namesToCollectors == Release(old(namesToCollectors), Folds(names)[..i])
        invariant collectorToNames == old(collectorToNames) && order == old(order)
      {
        assert Folds(names)[..i + 1][..i] == Folds(names)[..i];
        namesToCollectors := namesToCollectors - {Fold(names[i])};
      }
      assert Folds(names)[..|names|] == Folds(names);
    }

    /** Unregister: when the collector is registered, drop it and then each of its recorded names. */
    method Unregister(c: AnyCollector)
      requires Valid()
      modifies this
      ensures Valid()
      ensures State() == Unregistered(old(State()), c)
    {
      UnregisterKeepsConsistent(State(), c);
      if c in collectorToNames {
        Drop(c);
      }
    }

    /** Unregister for a registered collector: drop it, then each of its recorded names. */
    method Drop(c: AnyCollector)
      requires c in collectorToNames
      modifies this
      ensures State() == Unregistered(old(State()), c)
    {
      var names := collectorToNames[c];
      collectorToNames := collectorToNames - {c};
      order := RemoveKey(order, c);
      ReleaseAll(names);
    }

    /**
     * MetricFamilySamples: `Collect` of each registered collector, in the
     * dictionary's order, concatenated. Each collector reports one family, so
     * the result holds one family per collector; and no two of them share a
     * name, even up to case.
     */
    ghost function MetricFamilySamples(fmt: real -> string): (r: seq<MetricFamilySamples>)
      reads *
      requires Valid() && forall i :: 0 <= i < |order| ==> Ready(order[i])
      ensures |r| == |order|
      ensures forall i :: 0 <= i < |order| ==> [r[i]] == FamiliesOf(order[i], fmt) && Reports(r[i], order[i])
      ensures forall i, j :: 0 <= i < j < |r| ==> Fold(r[i].name) != Fold(r[j].name)
    {
      NamesAllDistinct(State());
      GatheredElements(order, fmt);
      Gathered(order, fmt)
    }
  }

  /** `SelectMany(x => x.Collect())` over `cs`: each collector's families, in order, concatenated. */
  ghost function Gathered(cs: seq<AnyCollector>, fmt: real -> string): (r: seq<MetricFamilySamples>)
    reads *
    requires forall i :: 0 <= i < |cs| ==> Ready(cs[i])
    ensures |r| == |cs|
    decreases |cs|
  {
    if cs == [] then [] else FamiliesOf(cs[0], fmt) + Gathered(cs[1..], fmt)
  }

  /** Family `i` of the gathered list is what collector `i` reports. */
  lemma {:induction false} GatheredElements(cs: seq<AnyCollector>, fmt: real -> string)
    requires forall i :: 0 <= i < |cs| ==> Ready(cs[i])
    ensures forall i :: 0 <= i < |cs| ==> [Gathered(cs, fmt)[i]] == FamiliesOf(cs[i], fmt)
    decreases |cs|
  {
    if cs != [] {
      GatheredElements(cs[1..], fmt);
      var r := Gathered(cs, fmt);
      forall i | 0 < i < |cs| ensures [r[i]] == FamiliesOf(cs[i], fmt) {
        assert r[i] == Gathered(cs[1..], fmt)[i - 1];
        assert cs[1..][i - 1] == cs[i];
      }
    }
  }

  /** `f` is a family as the collector `c` reports it: under its name, of its kind, with its help. */
  predicate Reports(f: MetricFamilySamples, c: AnyCollector)
  {
    f.name == Name(c) && f.kind == Kind(c) && f.help == Help(c)
  }
}
