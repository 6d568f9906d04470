/**
 * The domain records of the pipeline (src/types.rs) and their display tables.
 * Numbers the source holds as `f64` are `real` here; timestamps are opaque integers.
 */
module Types {
  import opened Wrappers
  import opened Text

  /** A point in time (`DateTime<Utc>`), as an opaque count. */
  type Timestamp = int

  /** Where a signal came from. */
  datatype SignalSource = GitHub | SolanaOnchain | Social

  const AllSources: set<SignalSource> := {GitHub, SolanaOnchain, Social}

  /** A named quantity; `unit` may be empty. */
  datatype Metric = Metric(name: string, value: real, unit: string)

  /** One fact from one source; its position in the collected sequence is its index. */
  datatype Signal = Signal(
    source: SignalSource,
    category: string,
    title: string,
    description: string,
    metrics: seq<Metric>,
    url: Option<string>,
    timestamp: Timestamp)

  datatype TrendDirection = Accelerating | Stable | Decelerating | Emerging

  /** A trend claim backed by indices into the signal sequence. */
  datatype Narrative = Narrative(
    title: string,
    summary: string,
    confidence: real,
    supportingSignals: seq<nat>,
    trend: TrendDirection,
    keyMetrics: seq<Metric>)

  /** A product idea tied to the narrative at `narrativeIndex`. */
  datatype BuildIdea = BuildIdea(
    title: string,
    description: string,
    targetUser: string,
    mvpScope: string,
    competitiveLandscape: string,
    timingRationale: string,
    narrativeIndex: nat)

  /** `Display for SignalSource` */
  function SourceName(s: SignalSource): string {
    match s
    case GitHub => "GitHub"
    case SolanaOnchain => "Solana Onchain"
    case Social => "Social"
  }

  /** Every source is one of the three, and the three display names tell them apart. */
  lemma SourceNamesDistinct(a: SignalSource, b: SignalSource)
    ensures a in AllSources && |AllSources| == 3
    ensures SourceName(a) == SourceName(b) <==> a == b
  {
    assert SourceName(GitHub)[0] == 'G' && SourceName(SolanaOnchain)[1] == 'o' && SourceName(Social)[1] == 'o';
    assert |SourceName(SolanaOnchain)| != |SourceName(Social)|;
  }

  /** No set of sources has more than the three there are. */
  lemma AtMostThreeSources(s: set<SignalSource>)
    ensures |s| <= 3
  {
    forall x | x in s ensures x in AllSources {
      SourceNamesDistinct(x, x);
    }
    SourceNamesDistinct(GitHub, GitHub);
    SubsetSize(s, AllSources);
  }

  lemma SubsetSize<T>(a: set<T>, b: set<T>)
    requires a <= b
    ensures |a| <= |b|
  {
    if a != {} {
      var x :| x in a;
      SubsetSize(a - {x}, b - {x});
    }
  }

  /** `Display for TrendDirection` */
  function TrendName(t: TrendDirection): string {
    match t
    case Accelerating => "Accelerating"
    case Stable => "Stable"
    case Decelerating => "Decelerating"
    case Emerging => "Emerging"
  }

  /** `TrendDirection::css_class` */
  function CssClass(t: TrendDirection): string {
    match t
    case Accelerating => "text-green-400"
    case Stable => "text-blue-400"
    case Decelerating => "text-red-400"
    case Emerging => "text-yellow-400"
  }

  /** Each trend has its own class: the class names the trend. */
  lemma CssClassDistinct(a: TrendDirection, b: TrendDirection)
    ensures CssClass(a) == CssClass(b) <==> a == b
  {
    assert CssClass(Accelerating)[5] == 'g' && CssClass(Stable)[5] == 'b';
    assert CssClass(Decelerating)[5] == 'r' && CssClass(Emerging)[5] == 'y';
  }

  /**
   * `Display for Metric`: "name: value unit", or "name: value" when the unit is empty.
   * `valueText` is the value already rendered with one decimal (`{:.1}`).
   */
  function MetricText(m: Metric, valueText: string): string {
    if m.unit == [] then m.name + ": " + valueText
    else m.name + ": " + valueText + " " + m.unit
  }

  /** The unit and its leading space are omitted exactly when the unit is empty. */
  lemma MetricTextUnit(m: Metric, valueText: string)
    ensures var t := MetricText(m, valueText); var head := m.name + ": " + valueText;
      && |head| <= |t| && t[..|head|] == head
      && (m.unit == [] <==> t == head)
      && (m.unit != [] ==> t[|head|..] == " " + m.unit)
  {
    var t := MetricText(m, valueText);
    var head := m.name + ": " + valueText;
    if m.unit != [] {
      assert t == head + (" " + m.unit);
      assert |t| > |head|;
    }
  }

  // ----- Gathering collector results -----

  /** The signals of the outcomes that succeeded, concatenated in order; a failure adds nothing. */
  function Successes(outcomes: seq<Result<seq<Signal>, string>>): seq<Signal> {
    if outcomes == [] then []
    else
      var last := outcomes[|outcomes| - 1];
      Successes(outcomes[..|outcomes| - 1]) + (if last.Success? then last.value else [])
  }

  /** Gathering splits at any position: the signals of the outcomes before it, then those after it. */
  lemma {:induction false} SuccessesSplit(outcomes: seq<Result<seq<Signal>, string>>, n: nat)
    requires n <= |outcomes|
    ensures Successes(outcomes) == Successes(outcomes[..n]) + Successes(outcomes[n..])
    decreases |outcomes|
  {
    if n < |outcomes| {
      var m := |outcomes| - 1;
      SuccessesSplit(outcomes[..m], n);
      assert outcomes[..m][..n] == outcomes[..n];
      assert outcomes[n..][..m - n] == outcomes[..m][n..];
    } else {
      assert outcomes[..n] == outcomes && outcomes[n..] == [];
    }
  }

  /**
   * A failed outcome is skipped: the signals are those of the outcomes before it followed
   * by those of the outcomes after it, each in order.
   */
  lemma {:induction false} SuccessesSkipFailure(outcomes: seq<Result<seq<Signal>, string>>, i: nat)
    requires i < |outcomes| && outcomes[i].Failure?
    ensures Successes(outcomes) == Successes(outcomes[..i]) + Successes(outcomes[i + 1..])
  {
    var tail := outcomes[i..];
    SuccessesSplit(outcomes, i);
    SuccessesSplit(tail, 1);
    assert tail[..1] == [outcomes[i]];
    assert [outcomes[i]][..0] == [];
    assert Successes([outcomes[i]]) == [];
    assert tail[1..] == outcomes[i + 1..];
  }
}
