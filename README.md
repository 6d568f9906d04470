# Solana narrative scout — core model in Dafny

The program collects "signals" about the Solana ecosystem from three collectors: GitHub
activity, on-chain metrics and blog pages. It merges them and groups them by a normalised
category. Each group is measured by how many distinct sources back it and how many signals it
holds, and the groups are ranked on those two counts. The groups go to a language model as a
JSON digest. The model's reply is cut out of its markdown and post-processed into narratives
and build ideas, and everything is rendered as an HTML report.

This project models that pipeline's core:

- `Types` — the shared records (`src/types.rs`) and their display forms, plus the merge of
  collector outcomes.
- `Aggregator` — `normalize_category`, `aggregate` and `signals_to_json`
  (`src/analysis/aggregator.rs`). The grouping, the metric roll-up and the key-metric list are
  loops over maps (methods). Their specification is a set of functions, and lemmas prove that
  every aggregation is a partition of the signal indices, ranked by diversity then size.
- `Claude` — the reply text (`complete`, the join of the text blocks) and `extract_json`
  (`src/claude.rs`). The extracted text is always a piece of the reply. The three unit tests
  are proved. The case where the brace slice panics is characterised exactly, next to a
  corrected variant.
- `Synthesizer` — `parse_trend` and the mapping of decoded narratives
  (`src/analysis/synthesizer.rs`).
- `Social` — `collect` and `scrape_source` (`src/sources/social.rs`), from the elements each
  selector matches to the one summary signal per blog. This covers the selector fallback, the
  sort-and-dedup by title, the Solana keyword filter and the summary texts and metrics.
- `Report` — the view records `render` builds (`src/output/report.rs`).
- `Pipeline` — the command-line overrides, the merge, the empty-input error and the
  `signals` subcommand (`src/main.rs`). The configuration is a class whose fields the overrides
  update.
- `Text` and `Sorting` — the standard-library operations the core relies on.
  - `Text`: `find`, `rfind`, `trim`, ASCII `to_lowercase`, `contains`, `join`, decimal
    formatting and byte-wise string order. It also defines `split` on one character, as the
    inverse `join` is proved against.
  - `Sorting`: `Vec::sort_by` as a stable insertion sort, and `Vec::dedup_by`. Both work in
    place on an array and are proved against sequence functions.
- `Wrappers` — `Option` and `Result`.

Strings are sequences of characters, and each character stands for one byte. Floating-point
numbers are reals. Collector outputs, fetched pages, decoded model replies and the current time
are parameters. Where the order of a `HashMap` decides something, the model picks an arbitrary
order and proves its result for every choice.

`RawNarrative.trend` is a required `String` (src/analysis/synthesizer.rs:59), so a reply
without it fails to decode. Only an unknown label falls back to Emerging (synthesizer.rs:113).

## Model

| member | source | states |
|---|---|---|
| Types.SourceNamesDistinct | src/types.rs:15-30 | there are exactly three sources, and two sources have the same display name only if they are the same source |
| Types.AtMostThreeSources | src/types.rs:15-20 | any set of sources has at most three elements |
| Types.CssClassDistinct | src/types.rs:78-87 | two trends get the same CSS class exactly when they are the same trend |
| Types.MetricTextUnit | src/types.rs:39-47 | a metric's text starts with "name: value"; that is the whole text exactly when the unit is empty; otherwise a space and the unit follow |
| Types.MetricText | src/types.rs:39-47 | `Metric`'s display text; `Types.MetricTextUnit` states its shape |
| Types.Successes | src/main.rs:112-136 | the signals of the successful outcomes, in order; `Types.SuccessesSplit` and `Types.SuccessesSkipFailure` characterise it |
| Types.SuccessesSplit | src/main.rs:112-136 | gathering the successful outcomes splits at any position into the outcomes before it followed by those after it |
| Types.SuccessesSkipFailure | src/main.rs:112-136 | a failed outcome contributes nothing, and the outcomes around it are still gathered in order |
| Text.FindFrom | src/claude.rs:111-119 | `str::find`: a result is an occurrence with no earlier occurrence at or after the start; no result means no occurrence at all |
| Text.FindAt | src/claude.rs:111-127 | an occurrence with no earlier character equal to the pattern's first is the one `find` returns |
| Text.RFindBelow | src/claude.rs:128 | `rfind`: a result holds the character and nothing after it does; no result means the character is absent |
| Text.TrimStart | src/claude.rs:114 | `trim_start` keeps a suffix: everything dropped is whitespace, and what is kept does not start with whitespace |
| Text.TrimEnd | src/claude.rs:114 | `trim_end` keeps a prefix: everything dropped is whitespace, and what is kept does not end with whitespace |
| Text.TrimIsSlice | src/sources/social.rs:45 | trimming yields one contiguous piece of its input |
| Text.TrimNewlines | src/claude.rs:114 | a newline on each side of text with non-blank ends is removed by trimming and nothing else is |
| Text.SplitJoin | src/claude.rs:85-90 | when no part contains the separator, splitting the joined text on it gives back the parts |
| Text.NatToStringRoundTrip | src/sources/social.rs:97-101 | the decimal text of a count is all digits and reads back as that count |
| Text.LexLessTotal | src/sources/social.rs:59 | byte-wise string order: any two strings are equal or ordered one way, never both ways |
| Text.LexLessTransitive | src/sources/social.rs:59 | byte-wise string order is transitive |
| Sorting.SortPermutes | src/analysis/aggregator.rs:71-75 | sorting is a permutation of its input |
| Sorting.SortSorts | src/analysis/aggregator.rs:71-75 | for a strict weak order, the sorted sequence has no element that sorts strictly before an earlier one |
| Sorting.SortIsStable | src/analysis/aggregator.rs:71-75 | the sort is stable: the elements with any given key keep their relative order |
| Sorting.SortKeepsDistinct | src/analysis/aggregator.rs:71-75 | a property that told the elements apart still tells them apart after sorting |
| Sorting.DedupKeepsKeys | src/sources/social.rs:60 | `dedup_by` removes elements without losing any key |
| Sorting.DedupStrictlySorted | src/sources/social.rs:60 | deduplicating a sorted sequence under a strict total order leaves it strictly increasing |
| Sorting.DedupKeepsFirst | src/sources/social.rs:60 | after deduplicating a sorted sequence, each survivor is the first element with its key |
| Sorting.SortDedup | src/sources/social.rs:59-60 | sorting then deduplicating leaves one element per key of the input, in strictly increasing key order, each the first with its key in input order |
| Sorting.InsertInPlace | src/analysis/aggregator.rs:71-75 | moving one element left past every element it sorts strictly before inserts it into the sorted prefix and leaves the rest of the array unchanged |
| Sorting.SortInPlace | src/analysis/aggregator.rs:71-75 | `sort_by` in place: the array ends as the stable sort of its old contents |
| Sorting.DedupInPlace | src/sources/social.rs:60 | `dedup_by` in place: the kept prefix is the input without the elements whose key equals their predecessor's |
| Aggregator.NormalizeCategory | src/analysis/aggregator.rs:15-25 | `normalize_category`: the label of the first arm matching the lower-cased category, else the category as given; characterised by `LookupFound`, `NormalizeIdempotent`, `NormalizeIgnoresCase` and `DeFiAliases` |
| Aggregator.LookupAt | src/analysis/aggregator.rs:16-22 | the first match arm that contains the lower-cased category decides its label |
| Aggregator.LookupFound | src/analysis/aggregator.rs:16-23 | a label comes from the first arm that matches; no label means no arm matches, so the category is kept |
| Aggregator.CanonicalIsLabel | src/analysis/aggregator.rs:16-22 | every alias maps to one of DeFi, NFT, DePIN, Gaming, RWA, DAO |
| Aggregator.CanonicalLabelsAreFixed | src/analysis/aggregator.rs:16-22 | each canonical label, lower-cased, is an alias of itself |
| Aggregator.NormalizeIdempotent | src/analysis/aggregator.rs:15-25 | normalising a normalised category changes nothing |
| Aggregator.NormalizeIgnoresCase | src/analysis/aggregator.rs:15-25 | categories equal up to case normalise alike when they are aliases, and are both kept verbatim when not |
| Aggregator.DeFiAliases | src/analysis/aggregator.rs:17 | a category becomes "DeFi" exactly when it is "defi" or "decentralized finance" in some case |
| Aggregator.NormalizeExamples | src/analysis/aggregator.rs:17-18 | "DEFI" becomes "DeFi" and "NFTs" becomes "NFT" |
| Aggregator.MembersBelowSpec | src/analysis/aggregator.rs:31-36 | a category's member list is exactly the indices whose signal has that category, in strictly ascending order |
| Aggregator.GroupByCategory | src/analysis/aggregator.rs:29-36 | the map has one key per normalised category that occurs, holding exactly that category's indices in ascending order |
| Aggregator.PushEntry | src/analysis/aggregator.rs:32-35 | pushing the next index into its category's entry keeps the map grouping one more signal |
| Aggregator.FirstWith | src/analysis/aggregator.rs:49-51 | finds the first metric with a name, the one whose unit `or_insert` keeps; finds none exactly when the name does not occur |
| Aggregator.AccumulateStep | src/analysis/aggregator.rs:49-52 | folding one more metric into the sums keeps each name's total and its first unit |
| Aggregator.RollUpMetrics | src/analysis/aggregator.rs:46-54 | the sums hold one entry per metric name in the group: its total value and the unit of its first occurrence |
| Aggregator.AddMetrics | src/analysis/aggregator.rs:48-53 | the inner loop extends the summary by one signal's metrics |
| Aggregator.KeyMetrics | src/analysis/aggregator.rs:55-58 | one metric per map entry, names distinct, carrying the entry's total and unit |
| Aggregator.BuildGroup | src/analysis/aggregator.rs:40-66 | the group's members, count, diversity and key metrics are those of its category |
| Aggregator.RankBeforeIsOrder | src/analysis/aggregator.rs:71-75 | "more sources, or as many and more signals" is a strict weak order |
| Aggregator.GroupsOf | src/analysis/aggregator.rs:38-68 | for any map order: one correct group per key, categories distinct, covering exactly the keys |
| Aggregator.AppendGroup | src/analysis/aggregator.rs:38-68 | adding the group of a new category keeps the groups correct and distinct |
| Aggregator.Aggregate | src/analysis/aggregator.rs:28-78 | the result is an aggregation: one correct group per normalised category, distinct, ranked by diversity and then size |
| Aggregator.SortedGroups | src/analysis/aggregator.rs:71-77 | sorting correct, distinct groups yields an aggregation |
| Aggregator.RankedBySort | src/analysis/aggregator.rs:71-75 | sorted groups never increase in diversity, nor in size among equal diversity |
| Aggregator.AggregationIsPartition | src/analysis/aggregator.rs:28-78 | an aggregation partitions the normalised categories, and each group's count is its number of members |
| Aggregator.PartitionOfIndices | src/analysis/aggregator.rs:31-36 | every signal index is in exactly one group, that of its category, exactly once; members ascend |
| Aggregator.TotalsSumToSignals | src/analysis/aggregator.rs:62 | the groups' signal counts add up to the number of signals |
| Aggregator.NoSignalsNoGroups | src/analysis/aggregator.rs:28-78 | there are no groups exactly when there are no signals |
| Aggregator.SourcesBounds | src/analysis/aggregator.rs:42-43 | the distinct sources of a non-empty member list number between one and the smaller of three and its length |
| Aggregator.DiversityBounds | src/analysis/aggregator.rs:42-43 | every group's diversity is between 1 and its signal count, and at most 3 |
| Aggregator.GroupNonEmpty | src/analysis/aggregator.rs:31-36 | no group is empty |
| Aggregator.SignalsToJson | src/analysis/aggregator.rs:81-117 | `signals_to_json` without the text layout; `DigestCounts` and `DigestListsSignal` state what it lists |
| Aggregator.MembersInRange | src/analysis/aggregator.rs:89 | every member index of an aggregation is a valid signal index, so the digest's lookups are in bounds |
| Aggregator.DigestCounts | src/analysis/aggregator.rs:81-117 | one digest record per group, in group order, with its category and a signal count equal to its listed signals |
| Aggregator.DigestListsSignal | src/analysis/aggregator.rs:81-117 | every signal is listed in the digest under its normalised category |
| Aggregator.GroupOf | src/analysis/aggregator.rs:28-78 | every signal is a member of the group of its normalised category |
| Synthesizer.ParseTrend | src/analysis/synthesizer.rs:107-115 | `parse_trend`; `TrendRoundTrip`, `ParseTrendIgnoresCase` and `ParseTrendExamples` characterise it |
| Synthesizer.ToNarrative | src/analysis/synthesizer.rs:85-100 | the mapping of one decoded narrative; `ConfidenceClamped` and `KeyMetricsCopied` state what it keeps and changes |
| Synthesizer.Clamp | src/analysis/synthesizer.rs:88 | the result lies in the range, equals the input inside it and the nearer bound outside it |
| Synthesizer.IdentifyNarratives | src/analysis/synthesizer.rs:81-101 | one narrative per decoded record, in order, with a confidence in [0, 1] and the title, summary, supporting signals, trend and metric count taken from the record |
| Synthesizer.ConfidenceClamped | src/analysis/synthesizer.rs:88 | a confidence inside [0, 1] is kept; one above becomes 1; one below becomes 0 |
| Synthesizer.ConfidenceExamples | src/analysis/synthesizer.rs:88 | 1.7 is clamped to 1 and -0.3 to 0 |
| Synthesizer.KeyMetricsCopied | src/analysis/synthesizer.rs:91-99 | each key metric keeps its name and value, and a missing unit becomes empty |
| Synthesizer.TrendRoundTrip | src/analysis/synthesizer.rs:107-115 | parsing a trend's display name gives back the trend |
| Synthesizer.ParseTrendIgnoresCase | src/analysis/synthesizer.rs:108 | labels equal up to case parse to the same trend |
| Synthesizer.ParseTrendExamples | src/analysis/synthesizer.rs:107-115 | the synonyms "steady", "declining", "nascent" and "early" map to their trends, and an unknown label gives Emerging |
| Claude.ReplyText | src/claude.rs:85-90 | the reply `complete` returns; `ReplyTextSplits` states that the newline join can be undone |
| Claude.BlockTexts | src/claude.rs:85-89 | at most one text per block |
| Claude.BlockTextsInOrder | src/claude.rs:85-89 | every block that has text contributes it, at the position after the texts of the blocks before it |
| Claude.BlockTextsFromBlocks | src/claude.rs:85-89 | every listed text is the text of some block |
| Claude.BlockTextsSkipEmpty | src/claude.rs:85-89 | a block without text contributes nothing |
| Claude.ReplyTextSplits | src/claude.rs:85-90 | when no block text contains a newline, splitting the reply on newlines recovers the block texts |
| Claude.ExtractJson | src/claude.rs:109-133 | `extract_json` as written, with the inverted slice as a panic outcome; `ExtractIsSubstring`, `PanicsExactly` and the unit-test lemmas characterise it |
| Claude.ExtractJsonChecked | src/claude.rs:109-133 | the corrected extraction; `CheckedAgrees` and `ExtractCheckedIsSubstring` characterise it |
| Claude.JsonPayload | src/claude.rs:95-104 | what `complete_json` hands to the JSON parser: `extract_json` of the reply, panic included |
| Claude.CheckedJsonPayload | src/claude.rs:95-104 | the same step with the corrected extraction |
| Claude.PayloadAgrees | src/claude.rs:95-104 | an extracted payload is a piece of the reply, and the corrected payload agrees with it except on an empty "}{" span |
| Claude.UntaggedFence | src/claude.rs:117-125 | a plain fence is accepted only when its trimmed interior starts with '{' or '[' |
| Claude.ExtractIsSubstring | src/claude.rs:109-133 | whatever `extract_json` returns is a contiguous piece of its input |
| Claude.NoFence | src/claude.rs:111-125 | text without "```" skips both fence steps |
| Claude.NoBracesVerbatim | src/claude.rs:126-132 | without a fence and without both braces the text is returned as it is |
| Claude.BareObjectUnchanged | src/claude.rs:126-131 | text that is already a braced object without backticks comes back unchanged |
| Claude.TaggedFenceAround | src/claude.rs:111-115 | a "```json" fence around an interior without backticks yields the trimmed interior, whatever follows |
| Claude.TaggedFenceExtracted | src/claude.rs:111-115 | a fenced payload on its own lines is returned without its newlines |
| Claude.TaggedFenceExample | src/claude.rs:139-143 | the unit test `extract_json_from_markdown` |
| Claude.BraceSpanAround | src/claude.rs:127-131 | with no backticks, no '{' before the object and no '}' after it, the object is cut out |
| Claude.BraceSpanExample | src/claude.rs:145-149 | the unit test `extract_json_raw` |
| Claude.PlainExample | src/claude.rs:151-155 | the unit test `extract_json_plain` |
| Claude.UntaggedFenceNeedsJsonStart | src/claude.rs:117-127 | a plain fence whose interior does not start like JSON falls through to the brace step |
| Claude.PanicsExactly | src/claude.rs:127-131 | the brace slice panics exactly when neither fence applies and the last '}' lies more than one byte before the first '{' |
| Claude.PanicExample | src/claude.rs:127-131 | "} {" makes the slice panic |
| Claude.CheckedExample | src/claude.rs:127-132 | the corrected extraction returns "} {" verbatim |
| Claude.CheckedAgrees | src/claude.rs:109-133 | wherever the code as written does not panic, the corrected extraction agrees with it, except that an empty "}{" span becomes the verbatim text |
| Claude.ExtractCheckedIsSubstring | src/claude.rs:109-133 | the corrected extraction always returns a contiguous piece of the reply |
| Social.Candidates | src/sources/social.rs:44-46 | one article per matched element, in document order |
| Social.LongOnesSpec | src/sources/social.rs:48-50 | a candidate is kept exactly when its title is longer than five bytes |
| Social.CandidatesSpec | src/sources/social.rs:44-46 | the candidates are exactly the trimmed texts and links of the matched elements |
| Social.KeptArticlesSpec | src/sources/social.rs:44-50 | an article is kept exactly when some element gives it and its trimmed title is longer than five bytes |
| Social.KeepArticles | src/sources/social.rs:44-51 | the loop over one selector's matches keeps exactly the long-titled articles, in order |
| Social.SelectArticles | src/sources/social.rs:42-56 | the selector loop ends with the articles of the first selector that yields any |
| Social.SelectedIsFirst | src/sources/social.rs:42-56 | the selected articles are those of a selector before which every selector yielded nothing; none selected means no selector yielded any |
| Social.SortAndDedup | src/sources/social.rs:58-60 | sort by title then dedup on equal titles, in place on a buffer |
| Social.LexLessIsTotal | src/sources/social.rs:59 | comparing titles is a strict total order |
| Social.DeduplicatedSpec | src/sources/social.rs:58-60 | the articles left have distinct titles in ascending order, cover every title, and each is the first article with its title |
| Social.FirstWithTitle | src/sources/social.rs:58-60 | the first article with a title, if there is one |
| Social.SolanaArticles | src/sources/social.rs:62-78 | the filter keeps at most as many articles as it is given, and only articles it is given, each no more often than in its input |
| Social.SolanaArticlesSpec | src/sources/social.rs:62-78 | an article is Solana-related exactly when its lower-cased title contains one of the eleven keywords |
| Social.TopicTitles | src/sources/social.rs:92 | the first ten titles, in order, or all of them when there are fewer |
| Social.SummaryShape | src/sources/social.rs:80-117 | no articles gives no signal; otherwise one Social signal with the blog's category, url, topics and the two article counts, the relevant count not above the total |
| Social.Summary | src/sources/social.rs:80-117 | the summary signal of one blog; `SummaryShape` states its fields |
| Social.Scrape | src/sources/social.rs:27-117 | selection, sort-and-dedup and summary of a fetched page; `ScrapeShape` characterises it |
| Social.ScrapeSource | src/sources/social.rs:25-117 | a failed fetch is passed on as the error; a fetched page gives that page's summary |
| Social.ScrapeShape | src/sources/social.rs:25-117 | a page gives at most one signal, none exactly when no selector yielded an article, and always a Social one in the blog's category |
| Social.ScrapeAll | src/sources/social.rs:12-19 | one outcome per configured blog |
| Social.Collect | src/sources/social.rs:9-23 | the signals of the blogs that were scraped, in configuration order, failures skipped |
| Social.CollectShape | src/sources/social.rs:9-23 | at most one signal per blog, all from the Social source |
| Report.Render | src/output/report.rs:48-103 | the data `render` hands to the template; `NarrativeViews`, `IdeaViews`, `SignalViews` and `Counts` state its parts |
| Report.SaturatingU32 | src/output/report.rs:60 | the float-to-u32 cast truncates toward zero and saturates at both ends |
| Report.ConfidencePctBounds | src/output/report.rs:60 | a confidence in [0, 1] shows as the whole percentage below it, from 0 to 100 |
| Report.ConfidencePctExamples | src/output/report.rs:60 | 0.85 shows as 85, 1.0 as 100 and 0.0 as 0 |
| Report.MetricTexts | src/output/report.rs:64 | one text per metric, in order, each that metric's display text |
| Report.NarrativeViews | src/output/report.rs:55-66 | one view per narrative, in order, with title and summary copied, the supporting-signal count, each key metric's display text, and a percentage of at most 100 when the confidence lies in [0, 1] |
| Report.TrendPairCoherent | src/output/report.rs:61-62 | two views show the same trend label exactly when they show the same class, and exactly when their trends are equal |
| Report.TrendNamesDistinct | src/types.rs:67-76 | each trend has its own display name |
| Report.IdeaViews | src/output/report.rs:68-82 | one view per idea, in order, with title, description, target user, MVP scope, competitive landscape and timing rationale copied; the narrative title is that of the indexed narrative, or "Unknown" when the index is out of range |
| Report.SignalViews | src/output/report.rs:84-94 | one view per signal, in order, with category, title and description copied and each metric's display text; a missing url shows as empty; the source shows under its own display name, and two views show the same source name exactly when their signals have the same source |
| Report.Counts | src/output/report.rs:96-99 | every signal is counted; the source count is the number of distinct sources among the signals (the `HashSet` of line 53), so at most three, zero exactly when there are no signals and one exactly when all signals share a source |
| Report.SubsetCard | src/output/report.rs:53 | a set of sources has no more elements than any set containing it |
| Pipeline.ProviderFor | src/main.rs:91-95 | the `--provider` mapping; `ProviderForSpec` characterises it |
| Pipeline.ProviderForSpec | src/main.rs:90-96 | exactly "anthropic" selects Anthropic, exactly "openai" selects OpenAI, every other name OpenRouter |
| Pipeline.ProviderForExamples | src/main.rs:91-95 | the match is case-sensitive: "Anthropic" selects OpenRouter, as does "openrouter" |
| Pipeline.Config.ApplyOverrides | src/main.rs:89-99 | a given override replaces its field; an absent one leaves it, and the output path is untouched |
| Pipeline.Config.ReportPath | src/main.rs:101 | the `--output` path when given, the configured path otherwise |
| Pipeline.Merge | src/main.rs:112-136 | the signals of the collectors that succeeded, GitHub then Solana then Social |
| Pipeline.MergeOrder | src/main.rs:112-136 | the merge is the successful results concatenated in that fixed order |
| Pipeline.FailureSkipped | src/main.rs:112-136 | a failed collector adds nothing and the others keep their order |
| Pipeline.Run | src/main.rs:84-170 | overrides applied; an empty merge is an error before any model call; a failed model call is passed on; a non-empty merge with both replies decoded succeeds; a success holds the merged signals, an aggregation of them, its digest and the rendered views |
| Pipeline.SignalsOnly | src/main.rs:196-205 | the `signals` subcommand: the same merge, with failures dropped and no error when it is empty |

## Left out

- HTTP fetching, HTML parsing and the CSS selectors: each selector's matched elements are an input. A page whose selector does not parse is a missing entry.
- The language-model calls, the request bodies and the JSON decoding of replies: the decoded records are inputs.
- `src/sources/solana_rpc.rs`, `src/analysis/ideas.rs` and the GitHub collector are not part of this model: their outcomes are inputs.
- Configuration loading and validation, command-line parsing, logging, `println!`, the template text and `write_report` are not modelled.
- `tokio::join!` concurrency: the three collector outcomes are given together.
- The layout of `serde_json::to_string_pretty`: `Aggregator.SignalsToJson` models the digest's content, not its text.
- IEEE floating point (rounding, NaN, infinities): values are reals. The one-decimal `{:.1}` formatting is the parameter `fmt`.
- `Utc::now()` is a parameter, and one timestamp is shared by every signal of a run.
- Unicode: `to_lowercase` and `trim` fold only ASCII, and strings are byte sequences.
- `HashMap` iteration order: the map order of groups and of key metrics is chosen arbitrarily, and only order-independent facts are stated about it.
- Social.Collect: returns the signals directly, because the source's `collect` never fails.
- Aggregator.NormalizeExamples: covers only the two example aliases; every alias is covered by `Aggregator.LookupFound` and `Aggregator.CanonicalIsLabel`.
- Aggregator.Aggregate: the stable sort is modelled as an insertion sort; `slice::sort_by` is a merge sort, and both give the same order.

## Findings

| source | as written | input that shows it | evidently intended | confidence | as-written member | corrected member |
|---|---|---|---|---|---|---|
| src/claude.rs:127-131 | when no fence applies, the text is sliced from the first '{' through the last '}' even when that '}' comes before the '{', and the slice panics | the reply "} {" (first '{' at 2, last '}' at 0) | fall back to the reply verbatim, as the code does when a brace is missing | not executed | Claude.PanicsExactly, Claude.PanicExample | Claude.ExtractJsonChecked, Claude.CheckedAgrees, Claude.CheckedExample |
