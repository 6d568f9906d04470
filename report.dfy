/**
 * The view records the HTML report is rendered from (src/output/report.rs, `render`).
 * The template text, the generation time and the file write are not modelled. A metric's
 * value is shown with one decimal (`{:.1}`); that formatting is the parameter `fmt`.
 */
module Report {
  import opened Wrappers
  import opened Types

  datatype NarrativeView = NarrativeView(
    title: string,
    summary: string,
    confidencePct: nat,
    trend: string,
    trendClass: string,
    signalCount: nat,
    metrics: seq<string>)

  datatype BuildIdeaView = BuildIdeaView(
    title: string,
    description: string,
    targetUser: string,
    mvpScope: string,
    competitiveLandscape: string,
    timingRationale: string,
    narrativeTitle: string)

  datatype SignalView = SignalView(
    source: string,
    category: string,
    title: string,
    description: string,
    metrics: seq<string>,
    url: string)

  /** The data handed to the template. */
  datatype ReportData = ReportData(
    totalSignals: nat,
    sourceCount: nat,
    narratives: seq<NarrativeView>,
    buildIdeas: seq<BuildIdeaView>,
    signals: seq<SignalView>)

  const U32Max: nat := 0xFFFF_FFFF

  /**
   * `x as u32` for a float: truncation toward zero, saturating at both ends of the
   * range (NaN is not modelled).
   */
  function SaturatingU32(x: real): (n: nat)
    ensures n <= U32Max
    ensures x <= 0.0 ==> n == 0
    ensures x >= U32Max as real ==> n == U32Max
    ensures 0.0 <= x < U32Max as real ==> n as real <= x < n as real + 1.0
  {
    if x <= 0.0 then 0 else if x >= U32Max as real then U32Max else x.Floor
  }

  /** `(confidence * 100.0) as u32` */
  function ConfidencePct(confidence: real): nat {
    SaturatingU32(confidence * 100.0)
  }

  /** The metric texts, in order. */
  function MetricTexts(ms: seq<Metric>, fmt: real -> string): (r: seq<string>)
    ensures |r| == |ms|
    ensures forall i :: 0 <= i < |ms| ==> r[i] == MetricText(ms[i], fmt(ms[i].value))
  {
    seq(|ms|, i requires 0 <= i < |ms| => MetricText(ms[i], fmt(ms[i].value)))
  }

  function ViewOfNarrative(n: Narrative, fmt: real -> string): NarrativeView {
    NarrativeView(n.title, n.summary, ConfidencePct(n.confidence), TrendName(n.trend), CssClass(n.trend),
      |n.supportingSignals|, MetricTexts(n.keyMetrics, fmt))
  }

  /** `narratives.get(index).map(|n| n.title).unwrap_or("Unknown")` */
  function NarrativeTitle(narratives: seq<Narrative>, index: nat): string {
    if index < |narratives| then narratives[index].title else "Unknown"
  }

  function ViewOfIdea(idea: BuildIdea, narratives: seq<Narrative>): BuildIdeaView {
    BuildIdeaView(idea.title, idea.description, idea.targetUser, idea.mvpScope,
      idea.competitiveLandscape, idea.timingRationale, NarrativeTitle(narratives, idea.narrativeIndex))
  }

  function ViewOfSignal(s: Signal, fmt: real -> string): SignalView {
    SignalView(SourceName(s.source), s.category, s.title, s.description, MetricTexts(s.metrics, fmt), s.url.GetOr(""))
  }

  /** The distinct sources among the signals (the `HashSet` collect). */
  function SourcesIn(signals: seq<Signal>): set<SignalSource> {
    set i | 0 <= i < |signals| :: signals[i].source
  }

  /** `render` up to the template: the counts and the three lists of views, each in input order. */
  function Render(signals: seq<Signal>, narratives: seq<Narrative>, ideas: seq<BuildIdea>, fmt: real -> string): ReportData {
    ReportData(
      |signals|,
      |SourcesIn(signals)|,
      seq(|narratives|, i requires 0 <= i < |narratives| => ViewOfNarrative(narratives[i], fmt)),
      seq(|ideas|, i requires 0 <= i < |ideas| => ViewOfIdea(ideas[i], narratives)),
      seq(|signals|, i requires 0 <= i < |signals| => ViewOfSignal(signals[i], fmt)))
  }

  /** A confidence in [0, 1] shows as a whole percentage from 0 to 100, rounded down. */
  lemma ConfidencePctBounds(confidence: real)
    requires 0.0 <= confidence <= 1.0
    ensures ConfidencePct(confidence) <= 100
    ensures ConfidencePct(confidence) as real <= confidence * 100.0 < ConfidencePct(confidence) as real + 1.0
  {
  }

  /** The examples 0.85 and 1.0 show as 85 and 100. */
  lemma ConfidencePctExamples()
    ensures ConfidencePct(0.85) == 85 && ConfidencePct(1.0) == 100 && ConfidencePct(0.0) == 0
  {
    assert (85.0 as real).Floor == 85;
  }

  /**
   * One narrative view per narrative, in order: title and summary copied, the count of its
   * supporting signals, one text per key metric, and a percentage from 0 to 100 for a clamped confidence.
   */
  lemma NarrativeViews(signals: seq<Signal>, narratives: seq<Narrative>, ideas: seq<BuildIdea>, fmt: real -> string)
    ensures var r := Render(signals, narratives, ideas, fmt);
      && |r.narratives| == |narratives|
      && forall i :: 0 <= i < |narratives| ==>
        && r.narratives[i].title == narratives[i].title
        && r.narratives[i].summary == narratives[i].summary
        && r.narratives[i].signalCount == |narratives[i].supportingSignals|
        && r.narratives[i].metrics == MetricTexts(narratives[i].keyMetrics, fmt)
        && |r.narratives[i].metrics| == |narratives[i].keyMetrics|
        && (0.0 <= narratives[i].confidence <= 1.0 ==> r.narratives[i].confidencePct <= 100)
  {
    var r := Render(signals, narratives, ideas, fmt);
    forall i | 0 <= i < |narratives| && 0.0 <= narratives[i].confidence <= 1.0
      ensures r.narratives[i].confidencePct <= 100
    {
      ConfidencePctBounds(narratives[i].confidence);
    }
  }

  /**
   * A view's trend label and its class come from the same trend: two narrative views show
   * the same label exactly when they carry the same class, and the same trend gives both.
   */
  lemma TrendPairCoherent(a: Narrative, b: Narrative, fmt: real -> string)
    ensures var va, vb := ViewOfNarrative(a, fmt), ViewOfNarrative(b, fmt);
      && (va.trend == vb.trend <==> va.trendClass == vb.trendClass)
      && (va.trend == vb.trend <==> a.trend == b.trend)
  {
    CssClassDistinct(a.trend, b.trend);
    TrendNamesDistinct(a.trend, b.trend);
  }

  /** Each trend has its own label. */
  lemma TrendNamesDistinct(a: TrendDirection, b: TrendDirection)
    ensures TrendName(a) == TrendName(b) <==> a == b
  {
    assert TrendName(Accelerating)[0] == 'A' && TrendName(Stable)[0] == 'S';
    assert TrendName(Decelerating)[0] == 'D' && TrendName(Emerging)[0] == 'E';
  }

  /**
   * One idea view per idea, in order, with the idea's texts copied; its narrative title is that of the narrative its index
   * names when the index is in range, and "Unknown" otherwise.
   */
  lemma IdeaViews(signals: seq<Signal>, narratives: seq<Narrative>, ideas: seq<BuildIdea>, fmt: real -> string)
    ensures var r := Render(signals, narratives, ideas, fmt);
      && |r.buildIdeas| == |ideas|
      && forall i :: 0 <= i < |ideas| ==>
        && r.buildIdeas[i].title == ideas[i].title
        && r.buildIdeas[i].description == ideas[i].description
        && r.buildIdeas[i].targetUser == ideas[i].targetUser
        && r.buildIdeas[i].mvpScope == ideas[i].mvpScope
        && r.buildIdeas[i].competitiveLandscape == ideas[i].competitiveLandscape
        && r.buildIdeas[i].timingRationale == ideas[i].timingRationale
        && (ideas[i].narrativeIndex < |narratives| ==>
              r.buildIdeas[i].narrativeTitle == narratives[ideas[i].narrativeIndex].title)
        && (ideas[i].narrativeIndex >= |narratives| ==> r.buildIdeas[i].narrativeTitle == "Unknown")
  {
  }

  /**
   * One signal view per signal, in order: category, title and description copied, one text per
   * metric, the url or "" when there is none, and the source under its display name, which
   * tells the three sources apart.
   */
  lemma SignalViews(signals: seq<Signal>, narratives: seq<Narrative>, ideas: seq<BuildIdea>, fmt: real -> string)
    ensures var r := Render(signals, narratives, ideas, fmt);
      && |r.signals| == |signals|
      && forall i :: 0 <= i < |signals| ==>
        && r.signals[i].category == signals[i].category
        && r.signals[i].title == signals[i].title
        && r.signals[i].description == signals[i].description
        && r.signals[i].metrics == MetricTexts(signals[i].metrics, fmt)
        && |r.signals[i].metrics| == |signals[i].metrics|
        && (signals[i].url.None? ==> r.signals[i].url == "")
        && (signals[i].url.Some? ==> r.signals[i].url == signals[i].url.value)
        && r.signals[i].source == SourceName(signals[i].source)
        && (forall j :: 0 <= j < |signals| ==>
              (r.signals[i].source == r.signals[j].source <==> signals[i].source == signals[j].source))
  {
    forall i, j | 0 <= i < |signals| && 0 <= j < |signals|
      ensures SourceName(signals[i].source) == SourceName(signals[j].source) <==> signals[i].source == signals[j].source
    {
      SourceNamesDistinct(signals[i].source, signals[j].source);
    }
  }

  /**
   * The counts: every signal is counted, and the source count is the number of distinct
   * sources among the signals, so it is at most three, and zero exactly when there are no
   * signals; it is one exactly when all signals share a source.
   */
  lemma Counts(signals: seq<Signal>, narratives: seq<Narrative>, ideas: seq<BuildIdea>, fmt: real -> string)
    ensures var r := Render(signals, narratives, ideas, fmt);
      && r.totalSignals == |signals|
      && r.sourceCount == |SourcesIn(signals)|
      && (forall s :: s in SourcesIn(signals) <==> exists i :: 0 <= i < |signals| && signals[i].source == s)
      && r.sourceCount <= 3
      && (r.sourceCount == 0 <==> signals == [])
      && (signals != [] ==>
            (r.sourceCount == 1 <==> forall i :: 0 <= i < |signals| ==> signals[i].source == signals[0].source))
  {
    var sources := SourcesIn(signals);
    AtMostThreeSources(sources);
    if signals != [] {
      assert signals[0].source in sources;
      if forall i :: 0 <= i < |signals| ==> signals[i].source == signals[0].source {
        assert sources == {signals[0].source};
      } else {
        var i :| 0 <= i < |signals| && signals[i].source != signals[0].source;
        assert {signals[0].source, signals[i].source} <= sources;
        assert |{signals[0].source, signals[i].source}| == 2;
        SubsetCard({signals[0].source, signals[i].source}, sources);
      }
    }
  }

  /** A subset has no more elements than its superset. */
  lemma SubsetCard(a: set<SignalSource>, b: set<SignalSource>)
    requires a <= b
    ensures |a| <= |b|
  {
    assert b == a + (b - a);
  }
}
