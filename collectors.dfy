/**
 * Collector.cs: the builder that gathers a metric's name parts, help and
 * label names; the validation the Collector constructor performs; and the
 * generic child container `Collector<TChild>` that maps a label-value key to
 * the child holding that label set's state.
 */
module Collectors {
  import opened Common
  import opened Samples
  import LabelArrays

  /** A key of the child dictionary: one label value per declared label name. */
  type LabelKey = seq<string>

  // ---------------------------------------------------------------------------
  // Name validation (the three regular expressions of Collector.cs)
  // ---------------------------------------------------------------------------

  predicate IsAsciiLetter(c: char) { 'a' <= c <= 'z' || 'A' <= c <= 'Z' }
  predicate IsAsciiDigit(c: char) { '0' <= c <= '9' }

  predicate IsMetricNameStart(c: char) { IsAsciiLetter(c) || c == '_' || c == ':' }
  predicate IsMetricNameChar(c: char) { IsMetricNameStart(c) || IsAsciiDigit(c) }
  predicate IsLabelNameStart(c: char) { IsAsciiLetter(c) || c == '_' }
  predicate IsLabelNameChar(c: char) { IsLabelNameStart(c) || IsAsciiDigit(c) }

  /** The whole string matches `[a-zA-Z_:][a-zA-Z0-9_:]*`. */
  predicate ValidMetricName(s: string)
  {
    |s| > 0 && IsMetricNameStart(s[0]) && forall i :: 1 <= i < |s| ==> IsMetricNameChar(s[i])
  }

  /** The whole string matches `[a-zA-Z_][a-zA-Z0-9_]*`. */
  predicate MatchesLabelNamePattern(s: string)
  {
    |s| > 0 && IsLabelNameStart(s[0]) && forall i :: 1 <= i < |s| ==> IsLabelNameChar(s[i])
  }

  /** `^__.*`: the name starts with two underscores. */
  predicate IsReservedLabelName(s: string)
  {
    |s| >= 2 && s[0] == '_' && s[1] == '_'
  }

  predicate ValidLabelName(s: string)
  {
    MatchesLabelNamePattern(s) && !IsReservedLabelName(s)
  }

  /**
   * How .NET's `Regex.IsMatch` evaluates `^[a-zA-Z_][a-zA-Z0-9_]*$`: without
   * RegexOptions.Multiline, `$` also matches just before a final newline.
   */
  predicate MatchesLabelNamePatternAsWritten(s: string)
  {
    MatchesLabelNamePattern(s) || (|s| > 0 && s[|s| - 1] == '\n' && MatchesLabelNamePattern(s[..|s| - 1]))
  }

  /** The same reading of `$` in `^[a-zA-Z_:][a-zA-Z0-9_:]*$`. */
  predicate MatchesMetricNamePatternAsWritten(s: string)
  {
    ValidMetricName(s) || (|s| > 0 && s[|s| - 1] == '\n' && ValidMetricName(s[..|s| - 1]))
  }

  /**
   * Both name patterns, as the regular expressions evaluate them, let a
   * name with one trailing newline through.
   */
  lemma TrailingNewlineAccepted()
    ensures MatchesMetricNamePatternAsWritten("a\n") && !ValidMetricName("a\n")
    ensures MatchesLabelNamePatternAsWritten("a\n") && !ValidLabelName("a\n")
  {
    assert "a\n"[..1] == "a";
  }

  /** A name that passes either check holds no newline, so it fits on one exposition line. */
  lemma CheckedNamesAreNewlineFree(name: string)
    ensures CheckMetricName(name).Pass? ==> forall i :: 0 <= i < |name| ==> name[i] != '\n'
    ensures CheckMetricLabelName(name).Pass? ==> forall i :: 0 <= i < |name| ==> name[i] != '\n'
  {
  }

  /** CheckMetricName: fails on a name outside the metric-name pattern. */
  function CheckMetricName(name: string): (o: Outcome)
    ensures o.Pass? <==> ValidMetricName(name)
    ensures o.Fail? ==> o.error == InvalidMetricName(name)
  {
    if ValidMetricName(name) then Pass else Fail(InvalidMetricName(name))
  }

  /**
   * CheckMetricLabelName: the pattern test comes first, then the reserved
   * prefix test.
   */
  function CheckMetricLabelName(name: string): (o: Outcome)
    ensures o.Pass? <==> ValidLabelName(name)
    ensures !MatchesLabelNamePattern(name) ==> o == Fail(InvalidLabelName(name))
    ensures MatchesLabelNamePattern(name) && IsReservedLabelName(name) ==> o == Fail(ReservedLabelName(name))
  {
    if !MatchesLabelNamePattern(name) then Fail(InvalidLabelName(name))
    else if IsReservedLabelName(name) then Fail(ReservedLabelName(name))
    else Pass
  }

  /** The label names are checked in declaration order; the first failure is reported. */
  function CheckLabelNamesSpec(names: seq<string>): Outcome
  {
    if names == [] then Pass
    else if CheckMetricLabelName(names[0]).Fail? then CheckMetricLabelName(names[0])
    else CheckLabelNamesSpec(names[1..])
  }

  /** What the label-name check reports: failure exactly when some name is invalid, and then the first one's error. */
  lemma {:induction false} CheckLabelNamesReportsFirst(names: seq<string>)
    ensures CheckLabelNamesSpec(names).Pass? <==> forall i :: 0 <= i < |names| ==> ValidLabelName(names[i])
    ensures CheckLabelNamesSpec(names).Fail? ==>
      exists i :: 0 <= i < |names| && !ValidLabelName(names[i]) &&
        (forall j :: 0 <= j < i ==> ValidLabelName(names[j])) &&
        CheckLabelNamesSpec(names) == CheckMetricLabelName(names[i])
  {
    if names != [] {
      CheckLabelNamesReportsFirst(names[1..]);
      if CheckMetricLabelName(names[0]).Pass? && CheckLabelNamesSpec(names).Fail? {
        var i :| 0 <= i < |names[1..]| && !ValidLabelName(names[1..][i]) &&
          (forall j :: 0 <= j < i ==> ValidLabelName(names[1..][j])) &&
          CheckLabelNamesSpec(names[1..]) == CheckMetricLabelName(names[1..][i]);
        assert names[i + 1] == names[1..][i];
        forall j | 0 <= j < i + 1 ensures ValidLabelName(names[j]) {
          if j > 0 { assert names[j] == names[1..][j - 1]; }
        }
      }
      if CheckLabelNamesSpec(names).Pass? {
        forall i | 0 <= i < |names| ensures ValidLabelName(names[i]) {
          if i > 0 { assert names[i] == names[1..][i - 1]; }
        }
      }
    }
  }

  /** The constructor's `foreach` over the label names. */
  method CheckLabelNames(names: seq<string>) returns (o: Outcome)
    ensures o == CheckLabelNamesSpec(names)
  {
    var i := 0;
    while i < |names|
      invariant 0 <= i <= |names|
      invariant CheckLabelNamesSpec(names) == CheckLabelNamesSpec(names[i..])
    {
      assert names[i..][1..] == names[i + 1..];
      var check := CheckMetricLabelName(names[i]);
      if check.Fail? {
        return check;
      }
      i := i + 1;
    }
    return Pass;
  }

  // ---------------------------------------------------------------------------
  // Full name and constructor validation
  // ---------------------------------------------------------------------------

  /** The values a builder has collected when `Build` is called. */
  datatype Settings = Settings(name: string, namespace: string, subsystem: string, help: string, labelNames: seq<string>)

  /** What a successfully constructed collector keeps. */
  datatype Config = Config(fullName: string, help: string, labelNames: seq<string>)

  /** `namespace_subsystem_name`, a blank segment dropped together with its underscore. */
  function FullName(namespace: string, subsystem: string, name: string): string
  {
    (if IsBlank(namespace) then "" else namespace + "_") +
    (if IsBlank(subsystem) then "" else subsystem + "_") +
    name
  }

  /** The parts of a name that are not blank, in order. */
  function NonBlank(parts: seq<string>): (r: seq<string>)
    ensures |r| <= |parts|
    ensures forall i :: 0 <= i < |r| ==> !IsBlank(r[i]) && r[i] in parts
  {
    if parts == [] then []
    else if IsBlank(parts[0]) then NonBlank(parts[1..])
    else [parts[0]] + NonBlank(parts[1..])
  }

  /** The parts joined, with one underscore between neighbours. */
  function JoinUnderscores(parts: seq<string>): string
  {
    if parts == [] then ""
    else if |parts| == 1 then parts[0]
    else parts[0] + "_" + JoinUnderscores(parts[1..])
  }

  /**
   * The composed name is the non-blank ones of namespace and subsystem,
   * followed by the name, joined by underscores: it ends with `name` and
   * starts with the first non-blank part and its underscore.
   */
  lemma FullNameShape(namespace: string, subsystem: string, name: string)
    ensures var f := FullName(namespace, subsystem, name);
      && f == JoinUnderscores(NonBlank([namespace, subsystem]) + [name])
      && |f| >= |name| && f[|f| - |name|..] == name
      && (!IsBlank(namespace) ==> |f| > |namespace| && f[..|namespace| + 1] == namespace + "_")
      && (IsBlank(namespace) && !IsBlank(subsystem) ==> |f| > |subsystem| && f[..|subsystem| + 1] == subsystem + "_")
  {
    var f := FullName(namespace, subsystem, name);
    var tail := (if IsBlank(subsystem) then "" else subsystem + "_") + name;
    assert [namespace, subsystem][1..] == [subsystem];
    assert [subsystem][1..] == [];
    assert NonBlank([subsystem]) == (if IsBlank(subsystem) then [] else [subsystem]);
    assert JoinUnderscores([name]) == name;
    if !IsBlank(subsystem) {
      assert [subsystem, name][1..] == [name];
      assert JoinUnderscores([subsystem, name]) == subsystem + "_" + name;
    }
    assert JoinUnderscores(NonBlank([subsystem]) + [name]) == tail;
    if !IsBlank(namespace) {
      var parts := NonBlank([namespace, subsystem]) + [name];
      assert parts == [namespace] + (NonBlank([subsystem]) + [name]);
      assert parts[1..] == NonBlank([subsystem]) + [name];
      assert f == namespace + "_" + tail;
      assert f[..|namespace| + 1] == namespace + "_";
    } else if !IsBlank(subsystem) {
      assert f == subsystem + "_" + name;
      assert f[..|subsystem| + 1] == subsystem + "_";
    }
    assert f == (if IsBlank(namespace) then "" else namespace + "_") + tail;
    assert f[|f| - |name|..] == name;
  }

  /** What every constructed collector satisfies. */
  predicate ValidConfig(c: Config)
  {
    ValidMetricName(c.fullName) && !IsBlank(c.help) &&
    forall i :: 0 <= i < |c.labelNames| ==> ValidLabelName(c.labelNames[i])
  }

  /** A valid metric name, and anything it starts, is not blank: sample and family names built from it pass their checks. */
  lemma ValidMetricNameNotBlank(name: string, suffix: string)
    requires ValidMetricName(name)
    ensures !IsBlank(name) && !IsBlank(name + suffix)
  {
    assert (name + suffix)[0] == name[0];
  }

  /**
   * The checks of the Collector constructor, in its order: name set, full
   * name valid, help set, every label name valid.
   */
  function Configure(s: Settings): (r: Result<Config>)
    ensures r.Ok? <==>
      !IsBlank(s.name) && ValidMetricName(FullName(s.namespace, s.subsystem, s.name)) &&
      !IsBlank(s.help) && forall i :: 0 <= i < |s.labelNames| ==> ValidLabelName(s.labelNames[i])
    ensures r.Ok? ==> r.value == Config(FullName(s.namespace, s.subsystem, s.name), s.help, s.labelNames) && ValidConfig(r.value)
    ensures IsBlank(s.name) ==> r == Err(NameNotSet)
    ensures !IsBlank(s.name) && !ValidMetricName(FullName(s.namespace, s.subsystem, s.name)) ==>
      r == Err(InvalidMetricName(FullName(s.namespace, s.subsystem, s.name)))
    ensures !IsBlank(s.name) && ValidMetricName(FullName(s.namespace, s.subsystem, s.name)) && IsBlank(s.help) ==>
      r == Err(HelpNotSet)
    ensures (!IsBlank(s.name) && ValidMetricName(FullName(s.namespace, s.subsystem, s.name)) && !IsBlank(s.help) &&
             CheckLabelNamesSpec(s.labelNames).Fail?) ==>
      r == Err(CheckLabelNamesSpec(s.labelNames).error)
    ensures (!IsBlank(s.name) && ValidMetricName(FullName(s.namespace, s.subsystem, s.name)) && !IsBlank(s.help) &&
             r.Err?) ==>
      exists i :: (0 <= i < |s.labelNames| && !ValidLabelName(s.labelNames[i]) &&
        (forall j :: 0 <= j < i ==> ValidLabelName(s.labelNames[j])) &&
        r == Err(CheckMetricLabelName(s.labelNames[i]).error))
  {
    CheckLabelNamesReportsFirst(s.labelNames);
    if IsBlank(s.name) then Err(NameNotSet)
    else
      var fullName := FullName(s.namespace, s.subsystem, s.name);
      if CheckMetricName(fullName).Fail? then Err(CheckMetricName(fullName).error)
      else if IsBlank(s.help) then Err(HelpNotSet)
      else if CheckLabelNamesSpec(s.labelNames).Fail? then Err(CheckLabelNamesSpec(s.labelNames).error)
      else Ok(Config(fullName, s.help, s.labelNames))
  }

  /** The Collector constructor's checks, run as the source runs them (label names in a loop). */
  method Validate(s: Settings) returns (r: Result<Config>)
    ensures r == Configure(s)
  {
    if IsBlank(s.name) {
      return Err(NameNotSet);
    }
    var fullName := FullName(s.namespace, s.subsystem, s.name);
    var nameCheck := CheckMetricName(fullName);
    if nameCheck.Fail? {
      return Err(nameCheck.error);
    }
    if IsBlank(s.help) {
      return Err(HelpNotSet);
    }
    var labelCheck := CheckLabelNames(s.labelNames);
    if labelCheck.Fail? {
      return Err(labelCheck.error);
    }
    return Ok(Config(fullName, s.help, s.labelNames));
  }

  // ---------------------------------------------------------------------------
  // Builder
  // ---------------------------------------------------------------------------

  /** Collector.Builder with the fluent setters of Builder<TCollector>. */
  class Builder {
    var name: string
    var namespace: string
    var subsystem: string
    var help: string
    var labelNames: seq<string>

    function State(): Settings
      reads this
    {
      Settings.Settings(name, namespace, subsystem, help, labelNames)
    }

    constructor()
      ensures State() == Settings.Settings("", "", "", "", [])
    {
      name, namespace, subsystem, help, labelNames := "", "", "", "", [];
    }

    /** Rejects a blank name, otherwise stores it trimmed. */
    method WithName(n: string) returns (o: Outcome)
      modifies this
      ensures IsBlank(n) ==> o == Fail(NameRequired) && State() == old(State())
      ensures !IsBlank(n) ==> o == Pass && State() == old(State()).(name := Trim(n))
      ensures !IsBlank(n) ==> !IsBlank(name)
    {
      if IsBlank(n) {
        return Fail(NameRequired);
      }
      TrimSpec(n);
      name := Trim(n);
      return Pass;
    }

    method WithNamespace(ns: string)
      modifies this
      ensures State() == old(State()).(namespace := Trim(ns))
    {
      namespace := Trim(ns);
    }

    method WithSubsystem(sub: string)
      modifies this
      ensures State() == old(State()).(subsystem := Trim(sub))
    {
      subsystem := Trim(sub);
    }

    /** Rejects a blank help text, otherwise stores it trimmed. */
    method WithHelp(h: string) returns (o: Outcome)
      modifies this
      ensures IsBlank(h) ==> o == Fail(HelpRequired) && State() == old(State())
      ensures !IsBlank(h) ==> o == Pass && State() == old(State()).(help := Trim(h))
      ensures !IsBlank(h) ==> !IsBlank(help)
    {
      if IsBlank(h) {
        return Fail(HelpRequired);
      }
      TrimSpec(h);
      help := Trim(h);
      return Pass;
    }

    method WithLabels(names: seq<string>)
      modifies this
      ensures State() == old(State()).(labelNames := names)
    {
      labelNames := names;
    }
  }

  // ---------------------------------------------------------------------------
  // The child container
  // ---------------------------------------------------------------------------

  predicate Distinct<T(==)>(s: seq<T>)
  {
    forall i, j :: 0 <= i < j < |s| ==> s[i] != s[j]
  }

  /** The enumeration order after `TryRemove(key)`: the key is dropped, the rest keep their order. */
  function RemoveKey<K(==)>(order: seq<K>, key: K): (r: seq<K>)
    ensures forall k :: k in r ==> k in order && k != key
    ensures forall i :: 0 <= i < |order| && order[i] != key ==> order[i] in r
    ensures Distinct(order) ==> Distinct(r)
    ensures |r| <= |order|
  {
    if order == [] then []
    else
      var rest := RemoveKey(order[1..], key);
      assert Distinct(order) ==> forall j :: 0 <= j < |order[1..]| ==> order[1..][j] != order[0];
      assert Distinct(order) ==> Distinct(order[1..]) by {
        if Distinct(order) {
          forall i, j | 0 <= i < j < |order[1..]| ensures order[1..][i] != order[1..][j] {
            assert order[1..][i] == order[i + 1] && order[1..][j] == order[j + 1];
          }
        }
      }
      assert Distinct(order) ==> order[0] !in rest;
      if order[0] == key then rest
      else
        assert forall j :: 1 <= j < |rest| + 1 ==> ([order[0]] + rest)[j] == rest[j - 1];
        [order[0]] + rest
  }

  /** No two keys share a child. */
  ghost predicate Injective<K, V>(m: map<K, V>)
  {
    forall k1, k2 :: k1 in m && k2 in m && k1 != k2 ==> m[k1] != m[k2]
  }

  /**
   * Collector<TChild>: name, help and label names fixed at construction, and a
   * dictionary from label-value key to child. The dictionary's enumeration
   * order, which Dafny maps lack, is kept in `order` (insertion order).
   */
  class Collector<TChild(==)> {
    const fullName: string
    const help: string
    const labelNames: seq<string>
    var children: map<LabelKey, TChild>
    var order: seq<LabelKey>
    var noLabelsChild: Option<TChild>

    ghost predicate Valid()
      reads this
    {
      && ValidConfig(Config(fullName, help, labelNames))
      && (forall k :: k in children ==> |k| == |labelNames|)
      && (forall k :: k in children <==> k in order)
      && Distinct(order)
      && Injective(children)
      && (noLabelsChild.Some? ==> [] in children && children[[]] == noLabelsChild.value)
    }

    constructor(config: Config)
      requires ValidConfig(config)
      ensures Valid()
      ensures fullName == config.fullName && help == config.help && labelNames == config.labelNames
      ensures children == map[] && order == [] && noLabelsChild == None
    {
      fullName, help, labelNames := config.fullName, config.help, config.labelNames;
      children, order, noLabelsChild := map[], [], None;
    }

    /**
     * Labels: get-or-create. `candidate` is the child `NewChild()` would
     * construct; it is installed only when the key is new.
     */
    method Labels(values: seq<Option<string>>, candidate: TChild) returns (r: Result<TChild>)
      requires Valid()
      requires candidate !in children.Values
      modifies this
      ensures Valid()
      ensures noLabelsChild == old(noLabelsChild)
      ensures |values| != |labelNames| ==>
        r == Err(IncorrectLabelCount) && children == old(children) && order == old(order)
      ensures |values| == |labelNames| && None in values ==>
        r == Err(NullLabelValue) && children == old(children) && order == old(order)
      ensures |values| == |labelNames| && None !in values ==>
        var key := LabelArrays.Strings(values);
        && r.Ok? && key in children && children[key] == r.value
        && (key in old(children) ==> r.value == old(children)[key] && children == old(children) && order == old(order))
        && (key !in old(children) ==>
              r.value == candidate && children == old(children)[key := candidate] && order == old(order) + [key])
    {
      if |values| != |labelNames| {
        return Err(IncorrectLabelCount);
      }
      if None in values {
        return Err(NullLabelValue);
      }
      var key := LabelArrays.Strings(values);
      if key in children {
        return Ok(children[key]);
      }
      children := children[key := candidate];
      order := order + [key];
      return Ok(candidate);
    }

    /** FamilySamplesList: the one family this collector reports, built by the validating constructor. */
    function FamilySamplesList(kind: CollectorType, samples: seq<Sample>): (r: seq<MetricFamilySamples>)
      requires ValidConfig(Config(fullName, help, labelNames))
      ensures |r| == 1 && ValidFamily(r[0])
      ensures r[0] == MetricFamilySamples(fullName, kind, help, samples)
    {
      ValidMetricNameNotBlank(fullName, "");
      [NewFamily(fullName, kind, help, Some(samples)).value]
    }

    /** The dictionary after InitializeNoLabelsChild: a collector without label names gets the empty key back. */
    function Reseeded(m: map<LabelKey, TChild>, candidate: TChild): map<LabelKey, TChild>
      reads this
    {
      if |labelNames| == 0 && [] !in m then m[[] := candidate] else m
    }

    method InitializeNoLabelsChild(candidate: TChild)
      requires Valid()
      requires candidate !in children.Values
      modifies this
      ensures Valid()
      ensures children == Reseeded(old(children), candidate)
      ensures |labelNames| == 0 ==> [] in children && noLabelsChild == Some(children[[]])
      ensures |labelNames| != 0 ==> noLabelsChild == old(noLabelsChild)
      ensures order == if [] in old(children) || |labelNames| != 0 then old(order) else old(order) + [[]]
    {
      if |labelNames| == 0 {
        var r := Labels([], candidate);
        noLabelsChild := Some(r.value);
      }
    }

    /**
     * Remove: drops the child of that key if present; a key of the wrong
     * length is simply absent. Hashing a null label value throws first.
     */
    method Remove(values: seq<Option<string>>, candidate: TChild) returns (o: Outcome)
      requires Valid()
      requires candidate !in children.Values
      modifies this
      ensures Valid()
      ensures None in values ==>
        o == Fail(NullLabelValue) && children == old(children) && order == old(order) && noLabelsChild == old(noLabelsChild)
      ensures None !in values ==>
        var key := LabelArrays.Strings(values);
        && o == Pass
        && children == Reseeded(old(children) - {key}, candidate)
        && order == RemoveKey(old(order), key) + (if |labelNames| == 0 && [] !in old(children) - {key} then [[]] else [])
      ensures None !in values && |labelNames| == 0 ==> noLabelsChild == Some(children[[]])
      ensures None !in values && |labelNames| != 0 ==> noLabelsChild == old(noLabelsChild)
    {
      if None in values {
        return Fail(NullLabelValue);
      }
      var key := LabelArrays.Strings(values);
      children := children - {key};
      order := RemoveKey(order, key);
      // The stale reference to a removed default child is dropped here; the
      // re-seeding below assigns the field again.
      if noLabelsChild.Some? && key == [] {
        noLabelsChild := None;
      }
      InitializeNoLabelsChild(candidate);
      return Pass;
    }

    /** Clear: empties the dictionary, then re-seeds the no-labels child. */
    method Clear(candidate: TChild)
      requires Valid()
      modifies this
      ensures Valid()
      ensures children == Reseeded(map[], candidate)
      ensures order == if |labelNames| == 0 then [[]] else []
      ensures noLabelsChild == if |labelNames| == 0 then Some(candidate) else None
    {
      children, order, noLabelsChild := map[], [], None;
      InitializeNoLabelsChild(candidate);
    }
  }

  // ---------------------------------------------------------------------------
  // Properties of the container's dictionary operations
  // ---------------------------------------------------------------------------

  /** After Remove on a collector without label names the empty key is present again. */
  lemma ReseededHasDefault<TChild>(c: Collector<TChild>, m: map<LabelKey, TChild>, candidate: TChild)
    requires |c.labelNames| == 0
    ensures [] in c.Reseeded(m, candidate)
    ensures [] in m ==> c.Reseeded(m, candidate) == m
  {
  }

  /** With label names declared, Remove deletes exactly the one entry and Clear leaves nothing. */
  lemma ReseededWithLabels<TChild>(c: Collector<TChild>, m: map<LabelKey, TChild>, key: LabelKey, candidate: TChild)
    requires |c.labelNames| > 0
    ensures c.Reseeded(m - {key}, candidate) == m - {key}
    ensures c.Reseeded(map[], candidate) == map[]
    ensures forall k :: k in m && k != key ==> k in c.Reseeded(m - {key}, candidate) && c.Reseeded(m - {key}, candidate)[k] == m[k]
  {
  }

  /** A sequence without repeats has as many distinct elements as positions. */
  lemma {:induction false} DistinctCardinality<T>(s: seq<T>)
    requires Distinct(s)
    ensures |set x | x in s| == |s|
  {
    if s != [] {
      var rest := s[1..];
      assert Distinct(rest) by {
        forall i, j | 0 <= i < j < |rest| ensures rest[i] != rest[j] {
          assert rest[i] == s[i + 1] && rest[j] == s[j + 1];
        }
      }
      DistinctCardinality(rest);
      assert forall j :: 0 <= j < |rest| ==> rest[j] != s[0];
      assert (set x | x in s) == (set x | x in rest) + {s[0]};
    }
  }

  /** The enumeration order lists every child exactly once. */
  lemma OrderEnumeratesChildren<TChild>(c: Collector<TChild>)
    requires c.Valid()
    ensures |c.order| == |c.children|
    ensures forall k :: k in c.children <==> k in c.order
    ensures forall i :: 0 <= i < |c.order| ==> c.order[i] in c.children
  {
    DistinctCardinality(c.order);
    assert c.children.Keys == set x | x in c.order;
  }
}
