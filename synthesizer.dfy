/**
 * Post-processing of the narrative-synthesis reply (src/analysis/synthesizer.rs):
 * the trend label is mapped onto the four trend states, the confidence is clamped
 * into [0, 1], and everything else is copied. The model call itself and the JSON
 * decoding of its reply are not part of this model; the decoded records are the input.
 */
module Synthesizer {
  import opened Wrappers
  import opened Text
  import opened Types

  /** A metric as decoded from the reply; a missing `unit` decodes as absent (`#[serde(default)]`). */
  datatype RawMetric = RawMetric(name: string, value: real, unit: Option<string>)

  /** A narrative as decoded from the reply; a missing `key_metrics` decodes as absent. */
  datatype RawNarrative = RawNarrative(
    title: string,
    summary: string,
    confidence: real,
    supportingSignals: seq<nat>,
    trend: string,
    keyMetrics: Option<seq<RawMetric>>)

  /** `parse_trend`: a case-insensitive match that falls back to `Emerging`. */
  function ParseTrend(s: string): TrendDirection {
    var l := Lower(s);
    if l == "accelerating" then Accelerating
    else if l == "stable" || l == "steady" then Stable
    else if l == "decelerating" || l == "declining" then Decelerating
    else Emerging
  }

  /** `f64::clamp(lo, hi)`, which the source calls with lo = 0 and hi = 1. */
  function Clamp(x: real, lo: real, hi: real): (r: real)
    requires lo <= hi
    ensures lo <= r <= hi
    ensures lo <= x <= hi ==> r == x
    ensures x < lo ==> r == lo
    ensures hi < x ==> r == hi
  {
    if x < lo then lo else if x > hi then hi else x
  }

  /** The `RawMetric` to `Metric` copy; an absent unit is the empty string. */
  function ToMetric(m: RawMetric): Metric {
    Metric(m.name, m.value, m.unit.GetOr(""))
  }

  /** One raw narrative to a `Narrative`. */
  function ToNarrative(n: RawNarrative): Narrative {
    var raw := n.keyMetrics.GetOr([]);
    Narrative(
      n.title,
      n.summary,
      Clamp(n.confidence, 0.0, 1.0),
      n.supportingSignals,
      ParseTrend(n.trend),
      seq(|raw|, i requires 0 <= i < |raw| => ToMetric(raw[i])))
  }

  /** The mapping at the end of `identify_narratives`: one narrative per raw narrative, in order. */
  function IdentifyNarratives(raw: seq<RawNarrative>): (ns: seq<Narrative>)
    ensures |ns| == |raw|
    ensures forall i :: 0 <= i < |ns| ==> 0.0 <= ns[i].confidence <= 1.0
    ensures forall i :: 0 <= i < |ns| ==>
      && ns[i].title == raw[i].title
      && ns[i].summary == raw[i].summary
      && ns[i].supportingSignals == raw[i].supportingSignals
      && ns[i].trend == ParseTrend(raw[i].trend)
      && |ns[i].keyMetrics| == |raw[i].keyMetrics.GetOr([])|
  {
    seq(|raw|, i requires 0 <= i < |raw| => ToNarrative(raw[i]))
  }

  /** A confidence already in range is kept; one above or below is moved to the nearest end. */
  lemma ConfidenceClamped(n: RawNarrative)
    ensures 0.0 <= n.confidence <= 1.0 ==> ToNarrative(n).confidence == n.confidence
    ensures n.confidence > 1.0 ==> ToNarrative(n).confidence == 1.0
    ensures n.confidence < 0.0 ==> ToNarrative(n).confidence == 0.0
  {
  }

  /** Examples: 1.7 is clamped to 1 and -0.3 to 0. */
  lemma ConfidenceExamples()
    ensures Clamp(1.7, 0.0, 1.0) == 1.0 && Clamp(-0.3, 0.0, 1.0) == 0.0
  {
  }

  /** Key metrics are copied one for one, with an absent unit read as empty. */
  lemma KeyMetricsCopied(n: RawNarrative, i: nat)
    requires n.keyMetrics.Some? && i < |n.keyMetrics.value|
    ensures var m := ToNarrative(n).keyMetrics[i]; var r := n.keyMetrics.value[i];
      m.name == r.name && m.value == r.value && (r.unit.None? ==> m.unit == "") && (r.unit.Some? ==> m.unit == r.unit.value)
  {
  }

  /** Displaying a trend and parsing the text back gives the same trend. */
  lemma TrendRoundTrip(t: TrendDirection)
    ensures ParseTrend(TrendName(t)) == t
  {
    match t
    case Accelerating => assert Lower("Accelerating") == "accelerating";
    case Stable => assert Lower("Stable") == "stable";
    case Decelerating => assert Lower("Decelerating") == "decelerating";
    case Emerging =>
  }

  /** Matching ignores case: a label equal to a known one up to ASCII case parses the same way. */
  lemma ParseTrendIgnoresCase(a: string, b: string)
    requires Lower(a) == Lower(b)
    ensures ParseTrend(a) == ParseTrend(b)
  {
  }

  /** Examples: a label in upper case, the synonyms of each trend, and an unknown label. */
  lemma ParseTrendExamples()
    ensures ParseTrend("ACCELERATING") == Accelerating
    ensures ParseTrend("steady") == Stable && ParseTrend("Stable") == Stable
    ensures ParseTrend("declining") == Decelerating
    ensures ParseTrend("nascent") == Emerging && ParseTrend("early") == Emerging
    ensures ParseTrend("sideways") == Emerging
  {
    assert Lower("ACCELERATING") == "accelerating";
    assert Lower("steady") == "steady";
    assert Lower("Stable") == "stable";
    assert Lower("declining") == "declining";
  }
}
