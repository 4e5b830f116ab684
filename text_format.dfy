/**
 * Exporters/TextFormat.cs: version 0.0.4 of the Prometheus text exposition
 * format. A family is written as a HELP line, a TYPE line and one line per
 * sample; label values and help texts are escaped character by character.
 * The output stream is a `Writer` whose text grows with every write.
 */
module TextFormat {
  import opened Common
  import opened Samples

  /** The HTTP content type of the format. */
  const ContentType: string := "text/plain; version=0.0.4; charset=utf-8"

  /** The StreamWriter: everything written so far, in order. */
  class Writer {
    var text: string

    constructor()
      ensures text == []
    {
      text := [];
    }

    /** WriteAsync(string) and WriteAsync(char): appends to the text. */
    method Write(s: string)
      modifies this
      ensures text == old(text) + s
    {
      text := text + s;
    }
  }

  /** Appending in two steps is appending the two parts at once. */
  lemma Extend(t: string, a: string, b: string)
    ensures t + a + b == t + (a + b)
  {
  }

  predicate NewlineFree(s: string)
  {
    forall i :: 0 <= i < |s| ==> s[i] != '\n'
  }

  lemma NewlineFreeConcat(a: string, b: string)
    ensures NewlineFree(a + b) <==> NewlineFree(a) && NewlineFree(b)
  {
    if NewlineFree(a) && NewlineFree(b) {
      forall i | 0 <= i < |a + b|
        ensures (a + b)[i] != '\n'
      {
        if i >= |a| {
          assert (a + b)[i] == b[i - |a|];
        }
      }
    }
    if NewlineFree(a + b) {
      forall i | 0 <= i < |a|
        ensures a[i] != '\n'
      {
        assert (a + b)[i] == a[i];
      }
      forall i | 0 <= i < |b|
        ensures b[i] != '\n'
      {
        assert (a + b)[|a| + i] == b[i];
      }
    }
  }

  // ---------------------------------------------------------------------
  // Escaping

  /** What WriteEscapedLabelValueAsync writes for one character. */
  function LabelValueChar(c: char): string
  {
    match c
    case '\\' => "\\\\"
    case '\"' => "\\\""
    case '\n' => "\\n"
    case _ => [c]
  }

  /** What WriteEscapedHelpAsync writes for one character: `"` is not escaped. */
  function HelpChar(c: char): string
  {
    match c
    case '\\' => "\\\\"
    case '\n' => "\\n"
    case _ => [c]
  }

  /**
   * A string escaped character by character. When no character's escape
   * holds a newline, neither does the result; when every character of `s`
   * is its own escape, the result is `s`.
   */
  function Escaped(s: string, esc: char -> string): (r: string)
    ensures (forall c :: NewlineFree(esc(c))) ==> NewlineFree(r)
    ensures (forall i :: 0 <= i < |s| ==> esc(s[i]) == [s[i]]) ==> r == s
    decreases |s|
  {
    if s == [] then []
    else
      var r := esc(s[0]) + Escaped(s[1..], esc);
      NewlineFreeConcat(esc(s[0]), Escaped(s[1..], esc));
      assert (forall i :: 0 <= i < |s| ==> esc(s[i]) == [s[i]]) ==> r == [s[0]] + s[1..] == s;
      r
  }

  /** The escaped label value: no raw newline, and `s` itself when it needs no escape. */
  function EscapeLabelValue(s: string): (r: string)
    ensures NewlineFree(r)
    ensures (forall i :: 0 <= i < |s| ==> s[i] != '\\' && s[i] != '\"' && s[i] != '\n') ==> r == s
  {
    assert forall c :: NewlineFree(LabelValueChar(c));
    Escaped(s, LabelValueChar)
  }

  /** The escaped help text: no raw newline, and `s` itself, quotes included, when it has no `\` or newline. */
  function EscapeHelp(s: string): (r: string)
    ensures NewlineFree(r)
    ensures (forall i :: 0 <= i < |s| ==> s[i] != '\\' && s[i] != '\n') ==> r == s
  {
    assert forall c :: NewlineFree(HelpChar(c));
    Escaped(s, HelpChar)
  }

  lemma {:induction false} EscapedConcat(a: string, b: string, esc: char -> string)
    ensures Escaped(a + b, esc) == Escaped(a, esc) + Escaped(b, esc)
    decreases |a|
  {
    if a == [] {
      assert a + b == b;
    } else {
      assert (a + b)[0] == a[0] && (a + b)[1..] == a[1..] + b;
      EscapedConcat(a[1..], b, esc);
    }
  }

  /** One more character of input is one more escape at the end of the output. */
  lemma EscapedStep(s: string, i: nat, esc: char -> string)
    requires i < |s|
    ensures Escaped(s[..i + 1], esc) == Escaped(s[..i], esc) + esc(s[i])
  {
    assert s[..i + 1] == s[..i] + [s[i]];
    EscapedConcat(s[..i], [s[i]], esc);
    assert [s[i]][1..] == [];
  }

  function Prepend(c: char, o: Option<string>): Option<string>
  {
    if o.Some? then Some([c] + o.value) else None
  }

  /**
   * The reader's side of the format: `\\`, `\"` and `\n` stand for a
   * backslash, a quote and a newline; any other character stands for itself;
   * a backslash before anything else, or at the very end, is malformed.
   */
  function Unescape(t: string): Option<string>
    decreases |t|
  {
    if t == [] then Some([])
    else if t[0] != '\\' then Prepend(t[0], Unescape(t[1..]))
    else if |t| == 1 then None
    else if t[1] == '\\' then Prepend('\\', Unescape(t[2..]))
    else if t[1] == '\"' then Prepend('\"', Unescape(t[2..]))
    else if t[1] == 'n' then Prepend('\n', Unescape(t[2..]))
    else None
  }

  /** Each character's escape reads back as that character, whatever follows. */
  ghost predicate Reversible(esc: char -> string)
  {
    forall c, t :: Unescape(esc(c) + t) == Prepend(c, Unescape(t))
  }

  lemma UnescapePlain(c: char, t: string)
    requires c != '\\'
    ensures Unescape([c] + t) == Prepend(c, Unescape(t))
  {
    assert ([c] + t)[1..] == t;
  }

  lemma UnescapePair(d: char, t: string)
    requires d == '\\' || d == '\"' || d == 'n'
    ensures Unescape(['\\', d] + t) == Prepend(if d == 'n' then '\n' else d, Unescape(t))
  {
    assert (['\\', d] + t)[2..] == t;
  }

  lemma LabelValueCharReversible()
    ensures Reversible(LabelValueChar)
  {
    forall c, t
      ensures Unescape(LabelValueChar(c) + t) == Prepend(c, Unescape(t))
    {
      if c == '\\' {
        UnescapePair('\\', t);
      } else if c == '\"' {
        UnescapePair('\"', t);
      } else if c == '\n' {
        UnescapePair('n', t);
      } else {
        UnescapePlain(c, t);
      }
    }
  }

  lemma HelpCharReversible()
    ensures Reversible(HelpChar)
  {
    forall c, t
      ensures Unescape(HelpChar(c) + t) == Prepend(c, Unescape(t))
    {
      if c == '\\' {
        UnescapePair('\\', t);
      } else if c == '\n' {
        UnescapePair('n', t);
      } else {
        UnescapePlain(c, t);
      }
    }
  }

  lemma {:induction false} EscapedRoundTrip(s: string, esc: char -> string)
    requires Reversible(esc)
    ensures Unescape(Escaped(s, esc)) == Some(s)
    decreases |s|
  {
    if s != [] {
      EscapedRoundTrip(s[1..], esc);
      assert Unescape(esc(s[0]) + Escaped(s[1..], esc)) == Prepend(s[0], Unescape(Escaped(s[1..], esc)));
      assert [s[0]] + s[1..] == s;
    }
  }

  /** Label-value escaping is undone by unescaping, so different values are written differently. */
  lemma LabelValueRoundTrip(s: string)
    ensures Unescape(EscapeLabelValue(s)) == Some(s)
  {
    LabelValueCharReversible();
    EscapedRoundTrip(s, LabelValueChar);
  }

  /** Help escaping is undone by unescaping. */
  lemma HelpRoundTrip(s: string)
    ensures Unescape(EscapeHelp(s)) == Some(s)
  {
    HelpCharReversible();
    EscapedRoundTrip(s, HelpChar);
  }

  /** WriteEscapedLabelValueAsync. */
  method WriteEscapedLabelValue(w: Writer, s: string)
    modifies w
    ensures w.text == old(w.text) + EscapeLabelValue(s)
  {
    for i := 0 to |s|
      invariant w.text == old(w.text) + Escaped(s[..i], LabelValueChar)
    {
      var c := s[i];
      ghost var u := w.text;
      match c {
        case '\\' => w.Write("\\\\");
        case '\"' => w.Write("\\\"");
        case '\n' => w.Write("\\n");
        case _ => w.Write([c]);
      }
      assert w.text == u + LabelValueChar(c);
      EscapedStep(s, i, LabelValueChar);
      Extend(old(w.text), Escaped(s[..i], LabelValueChar), LabelValueChar(c));
    }
    assert s[..|s|] == s;
  }

  /** WriteEscapedHelpAsync. */
  method WriteEscapedHelp(w: Writer, s: string)
    modifies w
    ensures w.text == old(w.text) + EscapeHelp(s)
  {
    for i := 0 to |s|
      invariant w.text == old(w.text) + Escaped(s[..i], HelpChar)
    {
      var c := s[i];
      ghost var u := w.text;
      match c {
        case '\\' => w.Write("\\\\");
        case '\n' => w.Write("\\n");
        case _ => w.Write([c]);
      }
      assert w.text == u + HelpChar(c);
      EscapedStep(s, i, HelpChar);
      Extend(old(w.text), Escaped(s[..i], HelpChar), HelpChar(c));
    }
    assert s[..|s|] == s;
  }

  // ---------------------------------------------------------------------
  // Type words

  /** GetTypeString on the four kinds. */
  function TypeWord(kind: CollectorType): string
  {
    match kind
    case Counter => "counter"
    case Gauge => "gauge"
    case Histogram => "histogram"
    case Summary => "summary"
  }

  /** The reader's side: the kind a TYPE word names, if any. */
  function KindOfWord(word: string): Option<CollectorType>
  {
    if word == "counter" then Some(Counter)
    else if word == "gauge" then Some(Gauge)
    else if word == "histogram" then Some(Histogram)
    else if word == "summary" then Some(Summary)
    else None
  }

  /** Every kind's word reads back as that kind, so the four words differ; `untyped` names no kind. */
  lemma TypeWordRoundTrip(kind: CollectorType)
    ensures KindOfWord(TypeWord(kind)) == Some(kind)
    ensures KindOfWord("untyped") == None
  {
  }

  // ---------------------------------------------------------------------
  // Writes in sequence

  /** Text written and how the writing ended. */
  datatype Written = Written(text: string, outcome: Outcome)

  /**
   * Writes one after another: the texts are concatenated until the first
   * write that fails, and the outcome is that failure, or Pass.
   */
  function Chain(ws: seq<Written>): Written
  {
    if ws == [] then Written([], Pass)
    else
      var front := Chain(ws[..|ws| - 1]);
      if front.outcome.Fail? then front
      else Written(front.text + ws[|ws| - 1].text, ws[|ws| - 1].outcome)
  }

  /** Once a write fails, nothing after it is written. */
  lemma {:induction false} ChainStops(ws: seq<Written>, n: nat)
    requires n <= |ws| && Chain(ws[..n]).outcome.Fail?
    ensures Chain(ws) == Chain(ws[..n])
    decreases |ws|
  {
    if n < |ws| {
      assert ws[..|ws| - 1][..n] == ws[..n];
      ChainStops(ws[..|ws| - 1], n);
    } else {
      assert ws[..n] == ws;
    }
  }

  /** One more write after a chain that ended well. */
  lemma ChainStep(ws: seq<Written>, i: nat)
    requires i < |ws| && Chain(ws[..i]).outcome == Pass
    ensures Chain(ws[..i + 1]) == Written(Chain(ws[..i]).text + ws[i].text, ws[i].outcome)
  {
    assert ws[..i + 1][..i] == ws[..i];
  }

  /** A loop over the writes may stop at the end or right after a failure. */
  lemma ChainDone(ws: seq<Written>, i: nat)
    requires i <= |ws| && (i == |ws| || Chain(ws[..i]).outcome.Fail?)
    ensures Chain(ws) == Chain(ws[..i])
  {
    if i == |ws| {
      assert ws[..i] == ws;
    } else {
      ChainStops(ws, i);
    }
  }

  /** A chain ends well exactly when every write in it does. */
  lemma {:induction false} ChainPasses(ws: seq<Written>)
    ensures Chain(ws).outcome == Pass <==> forall i :: 0 <= i < |ws| ==> ws[i].outcome == Pass
    decreases |ws|
  {
    if ws != [] {
      var n := |ws| - 1;
      ChainPasses(ws[..n]);
      assert forall i :: 0 <= i < n ==> ws[..n][i] == ws[i];
    }
  }

  /** After a chain that ends well, a second chain's text follows the first's. */
  lemma {:induction false} ChainConcat(a: seq<Written>, b: seq<Written>)
    requires Chain(a).outcome == Pass
    ensures Chain(a + b) == Written(Chain(a).text + Chain(b).text, Chain(b).outcome)
    decreases |b|
  {
    if b == [] {
      assert a + b == a;
    } else {
      var n := |b| - 1;
      assert (a + b)[..|a + b| - 1] == a + b[..n];
      assert (a + b)[|a + b| - 1] == b[n];
      ChainConcat(a, b[..n]);
    }
  }

  /** Each item's output, in order. */
  function Outputs<T>(xs: seq<T>, out: T -> Written): (r: seq<Written>)
    ensures |r| == |xs| && forall i :: 0 <= i < |xs| ==> r[i] == out(xs[i])
  {
    seq(|xs|, i requires 0 <= i < |xs| => out(xs[i]))
  }

  lemma OutputsConcat<T>(a: seq<T>, b: seq<T>, out: T -> Written)
    ensures Outputs(a + b, out) == Outputs(a, out) + Outputs(b, out)
  {
    assert forall i :: 0 <= i < |a| ==> (a + b)[i] == a[i];
    assert forall i :: |a| <= i < |a + b| ==> (a + b)[i] == b[i - |a|];
  }

  // ---------------------------------------------------------------------
  // Sample lines

  /** The writer indexes the label values by label-name position. */
  predicate Writable(s: Sample)
  {
    |s.labelNames| <= |s.labelValues|
  }

  /** `name="escaped value",` for one label. */
  function Pair(name: string, value: string): string
  {
    name + "=\"" + EscapeLabelValue(value) + "\","
  }

  /** The pairs of the first |names| labels, in order. */
  function LabelPairs(names: seq<string>, values: seq<string>): string
    requires |names| <= |values|
  {
    if names == [] then []
    else LabelPairs(names[..|names| - 1], values) + Pair(names[|names| - 1], values[|names| - 1])
  }

  /**
   * The label block: `{`, the pairs, `}`. With fewer values than names the
   * writer stops at the first missing value, just after that label's `name="`.
   */
  function LabelBlock(names: seq<string>, values: seq<string>): (r: Written)
    ensures r.outcome == Pass <==> |names| <= |values|
    ensures r.outcome.Fail? ==> r.outcome.error == LabelValueMissing
  {
    if |names| <= |values| then Written("{" + LabelPairs(names, values) + "}", Pass)
    else
      var k := |values|;
      Written("{" + LabelPairs(names[..k], values) + names[k] + "=\"", Fail(LabelValueMissing))
  }

  /** What follows the name and labels: a space, the value, a newline. */
  function ValueText(s: Sample, fmt: real -> string): string
  {
    " " + GoString(s.value, fmt) + "\n"
  }

  /**
   * What writing one sample produces: the name, the label block when there
   * are labels, then the value text. It fails exactly on a sample that is
   * not writable.
   */
  function SampleOutput(s: Sample, fmt: real -> string): (r: Written)
    ensures r.outcome == Pass <==> Writable(s)
    ensures r.outcome.Fail? ==> r.outcome.error == LabelValueMissing
  {
    if s.labelNames == [] then Written(s.name + ValueText(s, fmt), Pass)
    else
      var b := LabelBlock(s.labelNames, s.labelValues);
      if b.outcome.Fail? then Written(s.name + b.text, b.outcome)
      else Written(s.name + b.text + ValueText(s, fmt), Pass)
  }

  lemma {:induction false} LabelPairsNewlineFree(names: seq<string>, values: seq<string>)
    requires |names| <= |values|
    requires forall i :: 0 <= i < |names| ==> NewlineFree(names[i])
    ensures NewlineFree(LabelPairs(names, values))
    decreases |names|
  {
    if names != [] {
      var n := |names| - 1;
      LabelPairsNewlineFree(names[..n], values);
      var v := EscapeLabelValue(values[n]);
      NewlineFreeConcat(names[n], "=\"");
      NewlineFreeConcat(names[n] + "=\"", v);
      NewlineFreeConcat(names[n] + "=\"" + v, "\",");
      NewlineFreeConcat(LabelPairs(names[..n], values), Pair(names[n], values[n]));
    }
  }

  /**
   * With newline-free names and a formatter that never writes a newline,
   * a writable sample is exactly one line: its only newline is its last
   * character.
   */
  lemma SampleIsOneLine(s: Sample, fmt: real -> string)
    requires Writable(s) && NewlineFree(s.name)
    requires forall i :: 0 <= i < |s.labelNames| ==> NewlineFree(s.labelNames[i])
    requires forall r :: NewlineFree(fmt(r))
    ensures var t := SampleOutput(s, fmt).text; |t| > 0 && t[|t| - 1] == '\n' && NewlineFree(t[..|t| - 1])
  {
    var p := s.name;
    if s.labelNames != [] {
      var pairs := LabelPairs(s.labelNames, s.labelValues);
      LabelPairsNewlineFree(s.labelNames, s.labelValues);
      NewlineFreeConcat("{", pairs);
      NewlineFreeConcat("{" + pairs, "}");
      NewlineFreeConcat(s.name, "{" + pairs + "}");
      p := s.name + LabelBlock(s.labelNames, s.labelValues).text;
    }
    var v := GoString(s.value, fmt);
    assert NewlineFree(v);
    var q := " " + v;
    NewlineFreeConcat(" ", v);
    NewlineFreeConcat(p, q);
    var t := SampleOutput(s, fmt).text;
    assert t == p + (q + "\n");
    Extend(p, q, "\n");
    assert (p + q + "\n")[..|p + q|] == p + q;
  }

  /** Writing the next label's pair piece by piece extends the block by that pair. */
  lemma PairStep(t: string, names: seq<string>, values: seq<string>, i: nat)
    requires i < |names| && i < |values|
    ensures t + "{" + LabelPairs(names[..i], values) + names[i] + "=\"" + EscapeLabelValue(values[i]) + "\","
         == t + "{" + LabelPairs(names[..i + 1], values)
  {
    var u := t + "{" + LabelPairs(names[..i], values);
    Extend(u, names[i], "=\"");
    Extend(u, names[i] + "=\"", EscapeLabelValue(values[i]));
    Extend(u, names[i] + "=\"" + EscapeLabelValue(values[i]), "\",");
    assert names[..i + 1][..i] == names[..i];
    Extend(t + "{", LabelPairs(names[..i], values), Pair(names[i], values[i]));
  }

  /** The text up to a missing value is the failing block's text. */
  lemma StoppedPieces(t: string, pairs: string, name: string)
    ensures t + "{" + pairs + name + "=\"" == t + ("{" + pairs + name + "=\"")
  {
    Extend(t, "{", pairs);
    Extend(t, "{" + pairs, name);
    Extend(t, "{" + pairs + name, "=\"");
  }

  /** The label loop of the sample writer. */
  method WriteLabelBlock(w: Writer, names: seq<string>, values: seq<string>) returns (o: Outcome)
    modifies w
    ensures o == LabelBlock(names, values).outcome
    ensures w.text == old(w.text) + LabelBlock(names, values).text
  {
    ghost var t0 := w.text;
    w.Write("{");
    var i := 0;
    while i < |names| && i < |values|
      invariant i <= |names| && i <= |values|
      invariant w.text == t0 + "{" + LabelPairs(names[..i], values)
    {
      w.Write(names[i]);
      w.Write("=\"");
      WriteEscapedLabelValue(w, values[i]);
      w.Write("\",");
      PairStep(t0, names, values, i);
      i := i + 1;
    }
    if i < |names| {
      // the value at index i is missing: the name and `="` are already out
      w.Write(names[i]);
      w.Write("=\"");
      StoppedPieces(t0, LabelPairs(names[..i], values), names[i]);
      return Fail(LabelValueMissing);
    }
    w.Write("}");
    assert names[..i] == names;
    Extend(t0, "{", LabelPairs(names, values));
    Extend(t0, "{" + LabelPairs(names, values), "}");
    o := Pass;
  }

  /** Writing one sample. */
  method WriteSample(w: Writer, s: Sample, fmt: real -> string) returns (o: Outcome)
    modifies w
    ensures o == SampleOutput(s, fmt).outcome
    ensures w.text == old(w.text) + SampleOutput(s, fmt).text
  {
    ghost var t0 := w.text;
    w.Write(s.name);
    ghost var t1 := w.text;
    if |s.labelNames| > 0 {
      o := WriteLabelBlock(w, s.labelNames, s.labelValues);
      Extend(t0, s.name, LabelBlock(s.labelNames, s.labelValues).text);
      if o.Fail? {
        return;
      }
    }
    ghost var t2 := w.text;
    w.Write(" ");
    w.Write(GoString(s.value, fmt));
    w.Write("\n");
    Extend(t2, " ", GoString(s.value, fmt));
    Extend(t2, " " + GoString(s.value, fmt), "\n");
    Extend(t0, t2[|t0|..], ValueText(s, fmt));
    assert t2 == t0 + t2[|t0|..];
    o := Pass;
  }

  /** The outputs of the samples, one per sample. */
  function SampleOutputs(ss: seq<Sample>, fmt: real -> string): seq<Written>
  {
    Outputs(ss, s => SampleOutput(s, fmt))
  }

  // ---------------------------------------------------------------------
  // Families

  function HelpLine(f: MetricFamilySamples): string
  {
    "# HELP " + f.name + " " + EscapeHelp(f.help)
  }

  function TypeLine(f: MetricFamilySamples): string
  {
    "# TYPE " + f.name + " " + TypeWord(f.kind)
  }

  /** The family header as the writer emits it: no newline after the help text. */
  function HeaderAsWritten(f: MetricFamilySamples): string
  {
    HelpLine(f) + TypeLine(f) + "\n"
  }

  /** The family header with the HELP and TYPE lines each ended by a newline. */
  function Header(f: MetricFamilySamples): string
  {
    HelpLine(f) + "\n" + TypeLine(f) + "\n"
  }

  /**
   * As written, the TYPE comment never starts a line of its own: the whole
   * header is a single line. For example, a counter `a` with help `h` gets
   * the header `# HELP a h# TYPE a counter`.
   */
  lemma HeaderAsWrittenIsOneLine(f: MetricFamilySamples)
    requires NewlineFree(f.name)
    ensures var t := HeaderAsWritten(f); t[|t| - 1] == '\n' && NewlineFree(t[..|t| - 1])
    ensures HeaderAsWritten(MetricFamilySamples("a", Counter, "h", [])) == "# HELP a h# TYPE a counter\n"
  {
    HeaderLinesNewlineFree(f);
    NewlineFreeConcat(HelpLine(f), TypeLine(f));
    var t := HeaderAsWritten(f);
    assert t[..|t| - 1] == HelpLine(f) + TypeLine(f);
    var g := MetricFamilySamples("a", Counter, "h", []);
    assert EscapeHelp("h") == "h";
  }

  lemma HeaderLinesNewlineFree(f: MetricFamilySamples)
    requires NewlineFree(f.name)
    ensures NewlineFree(HelpLine(f)) && NewlineFree(TypeLine(f))
  {
    NewlineFreeConcat("# HELP ", f.name);
    NewlineFreeConcat("# HELP " + f.name, " ");
    NewlineFreeConcat("# HELP " + f.name + " ", EscapeHelp(f.help));
    NewlineFreeConcat("# TYPE ", f.name);
    NewlineFreeConcat("# TYPE " + f.name, " ");
    NewlineFreeConcat("# TYPE " + f.name + " ", TypeWord(f.kind));
  }

  /**
   * The corrected header is two lines: the first starts `# HELP `, the
   * second starts `# TYPE `, and neither holds a newline of its own.
   */
  lemma HeaderIsTwoLines(f: MetricFamilySamples)
    requires NewlineFree(f.name)
    ensures exists a, b ::
      Header(f) == a + "\n" + b + "\n" && NewlineFree(a) && NewlineFree(b) && "# HELP " <= a && "# TYPE " <= b
  {
    HeaderLinesNewlineFree(f);
    var a, b := HelpLine(f), TypeLine(f);
    assert "# HELP " <= a && "# TYPE " <= b;
    assert Header(f) == a + "\n" + b + "\n";
  }

  /** What writing one family produces: the header, then its samples until the first failure. */
  function FamilyOutput(f: MetricFamilySamples, fmt: real -> string): Written
  {
    var s := Chain(SampleOutputs(f.samples, fmt));
    Written(Header(f) + s.text, s.outcome)
  }

  /** The header part of the family writer. */
  method WriteHeader(w: Writer, f: MetricFamilySamples)
    modifies w
    ensures w.text == old(w.text) + Header(f)
  {
    ghost var t0 := w.text;
    w.Write("# HELP ");
    w.Write(f.name);
    w.Write(" ");
    WriteEscapedHelp(w, f.help);
    Extend(t0, "# HELP ", f.name);
    Extend(t0, "# HELP " + f.name, " ");
    Extend(t0, "# HELP " + f.name + " ", EscapeHelp(f.help));
    w.Write("\n");
    ghost var t1 := w.text;
    w.Write("# TYPE ");
    w.Write(f.name);
    w.Write(" ");
    w.Write(TypeWord(f.kind));
    Extend(t1, "# TYPE ", f.name);
    Extend(t1, "# TYPE " + f.name, " ");
    Extend(t1, "# TYPE " + f.name + " ", TypeWord(f.kind));
    w.Write("\n");
    Extend(t0, HelpLine(f), "\n");
    Extend(t0, HelpLine(f) + "\n", TypeLine(f));
    Extend(t0, HelpLine(f) + "\n" + TypeLine(f), "\n");
  }

  /** The per-family writer. */
  method WriteFamily(w: Writer, f: MetricFamilySamples, fmt: real -> string) returns (o: Outcome)
    modifies w
    ensures o == FamilyOutput(f, fmt).outcome
    ensures w.text == old(w.text) + FamilyOutput(f, fmt).text
  {
    WriteHeader(w, f);
    ghost var outs := SampleOutputs(f.samples, fmt);
    ghost var start := w.text;
    o := Pass;
    var i := 0;
    while i < |f.samples| && o == Pass
      invariant i <= |f.samples|
      invariant o == Chain(outs[..i]).outcome
      invariant w.text == start + Chain(outs[..i]).text
    {
      o := WriteSample(w, f.samples[i], fmt);
      assert outs[i] == SampleOutput(f.samples[i], fmt);
      ChainStep(outs, i);
      Extend(start, Chain(outs[..i]).text, outs[i].text);
      i := i + 1;
    }
    ChainDone(outs, i);
    Extend(old(w.text), Header(f), Chain(outs).text);
  }

  // ---------------------------------------------------------------------
  // The whole exposition

  /** The outputs of the families, one per family. */
  function FamilyOutputs(fs: seq<MetricFamilySamples>, fmt: real -> string): seq<Written>
  {
    Outputs(fs, f => FamilyOutput(f, fmt))
  }

  /** What writing all families produces: each family's output in order, until the first failure. */
  function Exposition(fs: seq<MetricFamilySamples>, fmt: real -> string): Written
  {
    Chain(FamilyOutputs(fs, fmt))
  }

  /** A family is written in full exactly when each of its samples is writable. */
  lemma FamilyOutputPasses(f: MetricFamilySamples, fmt: real -> string)
    ensures FamilyOutput(f, fmt).outcome == Pass <==> forall j :: 0 <= j < |f.samples| ==> Writable(f.samples[j])
  {
    var outs := SampleOutputs(f.samples, fmt);
    ChainPasses(outs);
    assert forall j :: 0 <= j < |outs| ==> outs[j] == SampleOutput(f.samples[j], fmt);
  }

  /** Writing ends well exactly when every sample of every family is writable. */
  lemma ExpositionPasses(fs: seq<MetricFamilySamples>, fmt: real -> string)
    ensures Exposition(fs, fmt).outcome == Pass <==>
      forall i, j :: 0 <= i < |fs| && 0 <= j < |fs[i].samples| ==> Writable(fs[i].samples[j])
  {
    var outs := FamilyOutputs(fs, fmt);
    ChainPasses(outs);
    forall i | 0 <= i < |fs|
      ensures outs[i].outcome == Pass <==> forall j :: 0 <= j < |fs[i].samples| ==> Writable(fs[i].samples[j])
    {
      assert outs[i] == FamilyOutput(fs[i], fmt);
      FamilyOutputPasses(fs[i], fmt);
    }
  }

  /** When the first families are written in full, the rest follow them. */
  lemma ExpositionConcat(a: seq<MetricFamilySamples>, b: seq<MetricFamilySamples>, fmt: real -> string)
    requires Exposition(a, fmt).outcome == Pass
    ensures Exposition(a + b, fmt) == Written(Exposition(a, fmt).text + Exposition(b, fmt).text, Exposition(b, fmt).outcome)
  {
    OutputsConcat(a, b, f => FamilyOutput(f, fmt));
    ChainConcat(FamilyOutputs(a, fmt), FamilyOutputs(b, fmt));
  }

  /**
   * WriteAsync(stream, metricFamilies): a null stream, then a null family
   * list, is rejected before anything is written; otherwise every family is
   * written in order, stopping at the first failure.
   */
  method WriteAll(w: Writer?, families: Option<seq<MetricFamilySamples>>, fmt: real -> string) returns (o: Outcome)
    modifies w
    ensures w == null ==> o == Fail(NullStream)
    ensures w != null && families.None? ==> o == Fail(NullFamilies) && w.text == old(w.text)
    ensures w != null && families.Some? ==>
      o == Exposition(families.value, fmt).outcome && w.text == old(w.text) + Exposition(families.value, fmt).text
  {
    if w == null {
      return Fail(NullStream);
    }
    if families.None? {
      return Fail(NullFamilies);
    }
    o := WriteFamilies(w, families.value, fmt);
  }

  /** The loop of WriteAsync over the families. */
  method WriteFamilies(w: Writer, fs: seq<MetricFamilySamples>, fmt: real -> string) returns (o: Outcome)
    modifies w
    ensures o == Exposition(fs, fmt).outcome
    ensures w.text == old(w.text) + Exposition(fs, fmt).text
  {
    ghost var outs := FamilyOutputs(fs, fmt);
    o := Pass;
    var i := 0;
    while i < |fs| && o == Pass
      invariant i <= |fs|
      invariant o == Chain(outs[..i]).outcome
      invariant w.text == old(w.text) + Chain(outs[..i]).text
    {
      o := WriteFamily(w, fs[i], fmt);
      assert outs[i] == FamilyOutput(fs[i], fmt);
      ChainStep(outs, i);
      Extend(old(w.text), Chain(outs[..i]).text, outs[i].text);
      i := i + 1;
    }
    ChainDone(outs, i);
  }
}
