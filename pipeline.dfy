/**
 * The driver (src/main.rs): the command-line overrides applied to the configuration, the
 * merge of the three collectors' results, the empty-input check of `run`, and the
 * `signals` subcommand. The collectors' and the model's outcomes are given as results;
 * configuration loading, the HTTP client, printing and the report file are not modelled.
 */
module Pipeline {
  import opened Wrappers
  import opened Types
  import Aggregator
  import Synthesizer
  import Report

  /** The language-model provider (`llm::Provider`). */
  datatype Provider = Anthropic | OpenRouter | OpenAi

  /** The `--provider` mapping: two names are known and every other string means OpenRouter. */
  function ProviderFor(name: string): Provider {
    if name == "anthropic" then Anthropic
    else if name == "openai" then OpenAi
    else OpenRouter
  }

  /** Exactly "anthropic" selects Anthropic, exactly "openai" selects OpenAI, anything else OpenRouter. */
  lemma ProviderForSpec(name: string)
    ensures ProviderFor(name) == Anthropic <==> name == "anthropic"
    ensures ProviderFor(name) == OpenAi <==> name == "openai"
    ensures ProviderFor(name) == OpenRouter <==> name != "anthropic" && name != "openai"
  {
  }

  /** The examples: case matters, and the documented "openrouter" is just one of the other strings. */
  lemma ProviderForExamples()
    ensures ProviderFor("anthropic") == Anthropic && ProviderFor("openai") == OpenAi
    ensures ProviderFor("openrouter") == OpenRouter && ProviderFor("Anthropic") == OpenRouter
  {
  }

  /** The part of the loaded configuration the overrides touch. */
  class Config {
    var provider: Provider
    var model: string
    var outputPath: string

    constructor(provider: Provider, model: string, outputPath: string)
      ensures this.provider == provider && this.model == model && this.outputPath == outputPath
    {
      this.provider := provider;
      this.model := model;
      this.outputPath := outputPath;
    }

    /** The `--provider` and `--model` overrides; an absent override leaves its field as it was. */
    method ApplyOverrides(providerOverride: Option<string>, modelOverride: Option<string>)
      modifies this
      ensures provider == if providerOverride.Some? then ProviderFor(providerOverride.value) else old(provider)
      ensures model == modelOverride.GetOr(old(model))
      ensures outputPath == old(outputPath)
    {
      if providerOverride.Some? {
        provider := ProviderFor(providerOverride.value);
      }
      if modelOverride.Some? {
        model := modelOverride.value;
      }
    }

    /** The report path: `--output` when given, the configured path otherwise. */
    function ReportPath(outputOverride: Option<string>): (p: string)
      reads this
      ensures outputOverride.Some? ==> p == outputOverride.value
      ensures outputOverride.None? ==> p == outputPath
    {
      outputOverride.GetOr(outputPath)
    }
  }

  /** The error `run` stops with when no collector produced a signal. */
  const NoSignals := "No signals collected from any source. Check API keys and network connectivity."

  /**
   * The merge: GitHub's signals, then Solana's, then the blogs', each only when that
   * collector succeeded.
   */
  method Merge(github: Result<seq<Signal>, string>, solana: Result<seq<Signal>, string>, social: Result<seq<Signal>, string>)
    returns (signals: seq<Signal>)
    ensures signals == Successes([github, solana, social])
  {
    signals := [];
    if github.Success? {
      signals := signals + github.value;
    }
    if solana.Success? {
      signals := signals + solana.value;
    }
    if social.Success? {
      signals := signals + social.value;
    }
    MergeOrder(github, solana, social);
  }

  /** The merged list is the successful results in the fixed order GitHub, Solana, Social. */
  lemma MergeOrder(github: Result<seq<Signal>, string>, solana: Result<seq<Signal>, string>, social: Result<seq<Signal>, string>)
    ensures Successes([github, solana, social]) ==
      (if github.Success? then github.value else []) +
      (if solana.Success? then solana.value else []) +
      (if social.Success? then social.value else [])
  {
    var rs := [github, solana, social];
    assert rs[..2] == [github, solana];
    assert [github, solana][..1] == [github];
    assert [github][..0] == [];
    assert Successes([github]) == if github.Success? then github.value else [];
    assert Successes([github, solana]) == Successes([github]) + if solana.Success? then solana.value else [];
  }

  /** What `run` produces before writing the report: where it goes, the groups, and the views. */
  datatype RunOutput = RunOutput(
    outputPath: string,
    signals: seq<Signal>,
    groups: seq<Aggregator.SignalGroup>,
    digest: seq<Aggregator.GroupDigest>,
    report: Report.ReportData)

  /**
   * `run` once the configuration is loaded. The overrides are applied first; an empty merge
   * is an error before any aggregation or model call; a failed model call is passed on.
   * `narrativesReply` and `ideasReply` are the decoded replies of the two model calls, and
   * `fmt` the one-decimal formatting of metric values.
   */
  method Run(
    cfg: Config,
    outputOverride: Option<string>, providerOverride: Option<string>, modelOverride: Option<string>,
    github: Result<seq<Signal>, string>, solana: Result<seq<Signal>, string>, social: Result<seq<Signal>, string>,
    narrativesReply: Result<seq<Synthesizer.RawNarrative>, string>,
    ideasReply: Result<seq<BuildIdea>, string>,
    fmt: real -> string)
    returns (r: Result<RunOutput, string>)
    modifies cfg
    ensures cfg.provider == if providerOverride.Some? then ProviderFor(providerOverride.value) else old(cfg.provider)
    ensures cfg.model == modelOverride.GetOr(old(cfg.model))
    ensures Successes([github, solana, social]) == [] ==> r == Failure(NoSignals)
    ensures Successes([github, solana, social]) != [] && narrativesReply.Failure? ==> r == Failure(narrativesReply.error)
    ensures Successes([github, solana, social]) != [] && narrativesReply.Success? && ideasReply.Failure? ==>
      r == Failure(ideasReply.error)
    ensures Successes([github, solana, social]) != [] && narrativesReply.Success? && ideasReply.Success? ==> r.Success?
    ensures r.Success? ==>
      && r.value.signals == Successes([github, solana, social]) != []
      && r.value.outputPath == outputOverride.GetOr(old(cfg.outputPath))
      && Aggregator.IsAggregation(r.value.signals, r.value.groups)
      && (forall k, j :: 0 <= k < |r.value.groups| && 0 <= j < |r.value.groups[k].signals| ==>
            r.value.groups[k].signals[j] < |r.value.signals|)
      && r.value.digest == Aggregator.SignalsToJson(r.value.signals, r.value.groups)
      && narrativesReply.Success? && ideasReply.Success?
      && r.value.report ==
           Report.Render(r.value.signals, Synthesizer.IdentifyNarratives(narrativesReply.value), ideasReply.value, fmt)
  {
    cfg.ApplyOverrides(providerOverride, modelOverride);
    var outputPath := cfg.ReportPath(outputOverride);
    var signals := Merge(github, solana, social);
    if signals == [] {
      return Failure(NoSignals);
    }
    var groups := Aggregator.Aggregate(signals);
    Aggregator.MembersInRange(signals, groups);
    var digest := Aggregator.SignalsToJson(signals, groups);
    if narrativesReply.Failure? {
      return Failure(narrativesReply.error);
    }
    var narratives := Synthesizer.IdentifyNarratives(narrativesReply.value);
    if ideasReply.Failure? {
      return Failure(ideasReply.error);
    }
    var report := Report.Render(signals, narratives, ideasReply.value, fmt);
    r := Success(RunOutput(outputPath, signals, groups, digest, report));
  }

  /** The `signals` subcommand: the same merge, with failures dropped and no error when it is empty. */
  method SignalsOnly(github: Result<seq<Signal>, string>, solana: Result<seq<Signal>, string>, social: Result<seq<Signal>, string>)
    returns (signals: seq<Signal>)
    ensures signals == Successes([github, solana, social])
    ensures github.Failure? && solana.Failure? && social.Failure? ==> signals == []
  {
    signals := Merge(github, solana, social);
    MergeOrder(github, solana, social);
  }

  /** A failed collector adds nothing and the others are still merged, in their fixed order. */
  lemma FailureSkipped(github: Result<seq<Signal>, string>, solana: Result<seq<Signal>, string>, social: Result<seq<Signal>, string>)
    ensures solana.Failure? ==>
      Successes([github, solana, social]) == Successes([github]) + Successes([social])
    ensures github.Failure? ==> Successes([github, solana, social]) == Successes([solana, social])
    ensures social.Failure? ==> Successes([github, solana, social]) == Successes([github, solana])
  {
    var rs := [github, solana, social];
    if solana.Failure? {
      SuccessesSkipFailure(rs, 1);
      assert rs[..1] == [github] && rs[2..] == [social];
    }
    if github.Failure? {
      SuccessesSkipFailure(rs, 0);
      assert rs[..0] == [] && rs[1..] == [solana, social];
    }
    if social.Failure? {
      SuccessesSkipFailure(rs, 2);
      assert rs[..2] == [github, solana] && rs[3..] == [];
    }
  }
}
