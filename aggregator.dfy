/**
 * Grouping of collected signals by category (src/analysis/aggregator.rs): category
 * aliases are normalised, signal indices are partitioned by normalised category, each
 * group counts its distinct sources and rolls up its metrics by name, and the groups are
 * ranked by source diversity and then by size.
 * The source's hash maps are `map`s here; their iteration order is unspecified, so the
 * traversals pick the next key with `:|` and the results hold for every order.
 */
module Aggregator {
  import opened Wrappers
  import opened Text
  import opened Types
  import Sorting

  // ----- Category normalisation -----

  /** The arms of `normalize_category`'s match, in order: the lower-cased aliases an arm matches, and its label. */
  const Arms: seq<(set<string>, string)> := [
    ({"defi", "decentralized finance"}, "DeFi"),
    ({"nft", "nfts", "non-fungible token", "non-fungible tokens"}, "NFT"),
    ({"depin", "decentralized physical infrastructure"}, "DePIN"),
    ({"gaming", "gamefi", "game fi"}, "Gaming"),
    ({"rwa", "real world assets", "real-world assets"}, "RWA"),
    ({"dao", "daos", "decentralized autonomous organization"}, "DAO")]

  /** The label of the first arm that matches `l`. */
  function Lookup(l: string, arms: seq<(set<string>, string)>): Option<string> {
    if arms == [] then None
    else if l in arms[0].0 then Some(arms[0].1)
    else Lookup(l, arms[1..])
  }

  /** The canonical label for a lower-cased alias, if it is one. */
  function Canonical(l: string): Option<string> {
    Lookup(l, Arms)
  }

  /** `normalize_category`: an alias, in any case, becomes its canonical label; anything else is kept as given. */
  function NormalizeCategory(cat: string): string {
    Canonical(Lower(cat)).GetOr(cat)
  }

  /** Arm `k` decides the lookup when no earlier arm matches. */
  lemma {:induction false} LookupAt(l: string, arms: seq<(set<string>, string)>, k: nat)
    requires k < |arms| && l in arms[k].0
    requires forall j :: 0 <= j < k ==> l !in arms[j].0
    ensures Lookup(l, arms) == Some(arms[k].1)
  {
    if k > 0 {
      LookupAt(l, arms[1..], k - 1);
    }
  }

  /** A found label is that of the first arm matching `l`; none is found exactly when no arm matches. */
  lemma {:induction false} LookupFound(l: string, arms: seq<(set<string>, string)>) returns (k: nat)
    ensures Lookup(l, arms).Some? ==>
      && k < |arms| && l in arms[k].0 && arms[k].1 == Lookup(l, arms).value
      && forall j :: 0 <= j < k ==> l !in arms[j].0
    ensures Lookup(l, arms).None? <==> forall j :: 0 <= j < |arms| ==> l !in arms[j].0
  {
    if arms != [] && l !in arms[0].0 {
      var k' := LookupFound(l, arms[1..]);
      k := k' + 1;
      forall j | 0 < j < |arms| ensures arms[j] == arms[1..][j - 1] {
      }
    } else {
      k := 0;
    }
  }

  /** The canonical labels. */
  const Labels: set<string> := {"DeFi", "NFT", "DePIN", "Gaming", "RWA", "DAO"}

  /** Every alias maps to one of the canonical labels. */
  lemma CanonicalIsLabel(l: string)
    ensures Canonical(l).Some? ==> Canonical(l).value in Labels
  {
    var k := LookupFound(l, Arms);
  }

  /** Every canonical label is itself an alias of itself. */
  lemma CanonicalLabelsAreFixed(l: string)
    requires Canonical(l).Some?
    ensures Canonical(Lower(Canonical(l).value)) == Canonical(l)
  {
    var k := LookupFound(l, Arms);
    if k == 0 {
      LabelFixedDeFi();
    } else if k == 1 {
      LabelFixedNFT();
    } else if k == 2 {
      LabelFixedDePIN();
    } else if k == 3 {
      LabelFixedGaming();
    } else if k == 4 {
      LabelFixedRWA();
    } else {
      LabelFixedDAO();
    }
  }

  lemma LabelFixedDeFi()
    ensures Canonical(Lower("DeFi")) == Some("DeFi")
  {
    assert Lower("DeFi") == "defi";
    LookupAt("defi", Arms, 0);
  }

  lemma LabelFixedNFT()
    ensures Canonical(Lower("NFT")) == Some("NFT")
  {
    assert Lower("NFT") == "nft";
    LookupAt("nft", Arms, 1);
  }

  lemma LabelFixedDePIN()
    ensures Canonical(Lower("DePIN")) == Some("DePIN")
  {
    assert Lower("DePIN") == "depin";
    LookupAt("depin", Arms, 2);
  }

  lemma LabelFixedGaming()
    ensures Canonical(Lower("Gaming")) == Some("Gaming")
  {
    assert Lower("Gaming") == "gaming";
    LookupAt("gaming", Arms, 3);
  }

  lemma LabelFixedRWA()
    ensures Canonical(Lower("RWA")) == Some("RWA")
  {
    assert Lower("RWA") == "rwa";
    LookupAt("rwa", Arms, 4);
  }

  lemma LabelFixedDAO()
    ensures Canonical(Lower("DAO")) == Some("DAO")
  {
    assert Lower("DAO") == "dao";
    LookupAt("dao", Arms, 5);
  }

  /** Normalising twice is normalising once. */
  lemma NormalizeIdempotent(cat: string)
    ensures NormalizeCategory(NormalizeCategory(cat)) == NormalizeCategory(cat)
  {
    if Canonical(Lower(cat)).Some? {
      CanonicalLabelsAreFixed(Lower(cat));
    }
  }

  /** Texts equal up to ASCII case normalise alike when they are aliases; other texts keep their own case. */
  lemma NormalizeIgnoresCase(a: string, b: string)
    requires Lower(a) == Lower(b)
    ensures Canonical(Lower(a)).Some? ==> NormalizeCategory(a) == NormalizeCategory(b)
    ensures Canonical(Lower(a)).None? ==> NormalizeCategory(a) == a && NormalizeCategory(b) == b
  {
  }

  /** A category normalises to "DeFi" exactly when it is one of the DeFi aliases up to case. */
  lemma DeFiAliases(cat: string)
    ensures NormalizeCategory(cat) == "DeFi" <==> Lower(cat) == "defi" || Lower(cat) == "decentralized finance"
  {
    var l := Lower(cat);
    var k := LookupFound(l, Arms);
    assert Lower("DeFi") == "defi";
    if l in Arms[0].0 {
      LookupAt(l, Arms, 0);
    }
  }

  /** Examples: an upper-case alias and a plural alias reach their labels. */
  lemma NormalizeExamples(a: string, b: string)
    requires a == "DEFI" && b == "NFTs"
    ensures NormalizeCategory(a) == "DeFi" && NormalizeCategory(b) == "NFT"
  {
    assert Lower(a) == "defi" && Lower(b) == "nfts";
    LookupAt("defi", Arms, 0);
    LookupAt("nfts", Arms, 1);
  }

  // ----- Specification of the grouping -----

  /** The category a signal is grouped under. */
  function CategoryOf(s: Signal): string {
    NormalizeCategory(s.category)
  }

  /** The category of each signal, by index. */
  function Categorised(signals: seq<Signal>): (cats: seq<string>)
    ensures |cats| == |signals|
  {
    if signals == [] then [] else Categorised(signals[..|signals| - 1]) + [CategoryOf(signals[|signals| - 1])]
  }

  lemma {:induction false} CategorisedAt(signals: seq<Signal>, i: nat)
    requires i < |signals|
    ensures Categorised(signals)[i] == CategoryOf(signals[i])
  {
    if i < |signals| - 1 {
      CategorisedAt(signals[..|signals| - 1], i);
    }
  }

  /** The categories among the first `n` entries of `cats`. */
  function CategoriesBelow(cats: seq<string>, n: nat): set<string>
    requires n <= |cats|
  {
    if n == 0 then {} else CategoriesBelow(cats, n - 1) + {cats[n - 1]}
  }

  /** The categories that occur in `cats`. */
  function Categories(cats: seq<string>): set<string> {
    CategoriesBelow(cats, |cats|)
  }

  /** A category occurs below `n` exactly when some entry below `n` is it. */
  lemma {:induction false} InCategoriesBelow(cats: seq<string>, n: nat, c: string)
    requires n <= |cats|
    ensures c in CategoriesBelow(cats, n) <==> exists i :: 0 <= i < n && cats[i] == c
  {
    if n > 0 {
      InCategoriesBelow(cats, n - 1, c);
    }
  }

  /** The indices below `n` whose category is `c`, ascending. */
  function MembersBelow(cats: seq<string>, c: string, n: nat): seq<nat>
    requires n <= |cats|
  {
    if n == 0 then []
    else MembersBelow(cats, c, n - 1) + (if cats[n - 1] == c then [n - 1] else [])
  }

  /** The indices whose category is `c`, ascending. */
  function Members(cats: seq<string>, c: string): seq<nat> {
    MembersBelow(cats, c, |cats|)
  }

  /** The members below `n` are exactly the indices below `n` in category `c`, strictly ascending. */
  lemma {:induction false} MembersBelowSpec(cats: seq<string>, c: string, n: nat)
    requires n <= |cats|
    ensures var r := MembersBelow(cats, c, n);
      && (forall k :: 0 <= k < |r| ==> r[k] < n && cats[r[k]] == c)
      && (forall k, l :: 0 <= k < l < |r| ==> r[k] < r[l])
      && (forall i :: 0 <= i < n && cats[i] == c ==> i in r)
  {
    if n > 0 {
      MembersBelowSpec(cats, c, n - 1);
    }
  }

  /** Every entry of `idx` indexes `signals`. */
  predicate InRange(signals: seq<Signal>, idx: seq<nat>) {
    forall k :: 0 <= k < |idx| ==> idx[k] < |signals|
  }

  /** The distinct sources of the signals at `idx`. */
  function SourcesOf(signals: seq<Signal>, idx: seq<nat>): set<SignalSource>
    requires InRange(signals, idx)
  {
    if idx == [] then {} else SourcesOf(signals, idx[..|idx| - 1]) + {signals[idx[|idx| - 1]].source}
  }

  /** The metrics of the signals at `idx`, in that order. */
  function Contributions(signals: seq<Signal>, idx: seq<nat>): seq<Metric>
    requires InRange(signals, idx)
  {
    if idx == [] then [] else Contributions(signals, idx[..|idx| - 1]) + signals[idx[|idx| - 1]].metrics
  }

  /** The names that occur among the metrics. */
  function MetricNames(ms: seq<Metric>): set<string> {
    set k | 0 <= k < |ms| :: ms[k].name
  }

  /** The sum of the values of the metrics called `name`. */
  function SumFor(ms: seq<Metric>, name: string): real {
    if ms == [] then 0.0
    else SumFor(ms[..|ms| - 1], name) + (if ms[|ms| - 1].name == name then ms[|ms| - 1].value else 0.0)
  }

  /** A name that does not occur sums to zero. */
  lemma {:induction false} SumForAbsent(ms: seq<Metric>, name: string)
    requires name !in MetricNames(ms)
    ensures SumFor(ms, name) == 0.0
  {
    if ms != [] {
      var init := ms[..|ms| - 1];
      MetricNamesSnoc(init, ms[|ms| - 1]);
      assert init + [ms[|ms| - 1]] == ms;
      SumForAbsent(init, name);
    }
  }

  /** The position of the first metric called `name`. */
  function FirstWith(ms: seq<Metric>, name: string): (r: Option<nat>)
    ensures r.Some? ==> r.value < |ms| && ms[r.value].name == name
    ensures r.Some? ==> forall j :: 0 <= j < r.value ==> ms[j].name != name
    ensures r.None? <==> name !in MetricNames(ms)
  {
    if ms == [] then None
    else
      match FirstWith(ms[..|ms| - 1], name)
      case Some(k) => Some(k)
      case None => if ms[|ms| - 1].name == name then Some(|ms| - 1) else None
  }

  /**
   * `km` rolls up `ms`: one metric per name that occurs, valued at the sum over that
   * name and carrying the unit of its first occurrence.
   */
  ghost predicate RolledUp(km: seq<Metric>, ms: seq<Metric>) {
    && (forall i, j :: 0 <= i < j < |km| ==> km[i].name != km[j].name)
    && MetricNames(km) == MetricNames(ms)
    && (forall i :: 0 <= i < |km| ==>
          && km[i].value == SumFor(ms, km[i].name)
          && FirstWith(ms, km[i].name).Some?
          && km[i].unit == ms[FirstWith(ms, km[i].name).value].unit)
  }

  /** A group of signal indices with its computed measures (`SignalGroup`). */
  datatype SignalGroup = SignalGroup(
    category: string,
    signals: seq<nat>,
    sourceDiversity: nat,
    totalSignals: nat,
    keyMetrics: seq<Metric>)

  /** `g` is the group of category `g.category` of `signals`. */
  ghost predicate IsGroupOf(signals: seq<Signal>, g: SignalGroup) {
    && g.signals == Members(Categorised(signals), g.category)
    && g.totalSignals == |g.signals|
    && InRange(signals, g.signals)
    && g.sourceDiversity == |SourcesOf(signals, g.signals)|
    && RolledUp(g.keyMetrics, Contributions(signals, g.signals))
  }

  /** The ranking key: source diversity, then the number of signals. */
  function RankKey(g: SignalGroup): (nat, nat) {
    (g.sourceDiversity, g.totalSignals)
  }

  /** Group key `a` ranks strictly before `b`: more sources, or as many and more signals. */
  function RankBefore(a: (nat, nat), b: (nat, nat)): bool {
    a.0 > b.0 || (a.0 == b.0 && a.1 > b.1)
  }

  /** The ranking the sort leaves: diversity never increases, and size never increases among equal diversity. */
  ghost predicate Ranked(groups: seq<SignalGroup>) {
    forall i, j :: 0 <= i < j < |groups| ==>
      || groups[i].sourceDiversity > groups[j].sourceDiversity
      || (groups[i].sourceDiversity == groups[j].sourceDiversity && groups[i].totalSignals >= groups[j].totalSignals)
  }

  /** The categories of the groups. */
  function CategoriesOf(groups: seq<SignalGroup>): set<string> {
    if groups == [] then {} else CategoriesOf(groups[..|groups| - 1]) + {groups[|groups| - 1].category}
  }

  /** A category is among the groups' exactly when some group has it. */
  lemma {:induction false} InCategoriesOf(groups: seq<SignalGroup>, c: string)
    ensures c in CategoriesOf(groups) <==> exists k :: 0 <= k < |groups| && groups[k].category == c
  {
    if groups != [] {
      var init := groups[..|groups| - 1];
      InCategoriesOf(init, c);
      if c in CategoriesOf(init) {
        var k :| 0 <= k < |init| && init[k].category == c;
        assert groups[k].category == c;
      }
    }
  }

  /**
   * What `aggregate` returns: one group per category that occurs and no other, each the
   * group of its category, ranked.
   */
  ghost predicate IsAggregation(signals: seq<Signal>, groups: seq<SignalGroup>) {
    && (forall k :: 0 <= k < |groups| ==> IsGroupOf(signals, groups[k]))
    && (forall k, l :: 0 <= k < l < |groups| ==> groups[k].category != groups[l].category)
    && CategoriesOf(groups) == Categories(Categorised(signals))
    && Ranked(groups)
  }

  // ----- The grouping, step by step -----

  /** `m` groups the first `n` entries of `cats`: one key per category, holding its indices. */
  ghost predicate GroupedBelow(cats: seq<string>, m: map<string, seq<nat>>, n: nat)
    requires n <= |cats|
  {
    && m.Keys == CategoriesBelow(cats, n)
    && forall c :: c in m ==> m[c] == MembersBelow(cats, c, n)
  }

  /** The loop that fills `by_category`: each index is pushed onto the list of its category. */
  method GroupByCategory(signals: seq<Signal>) returns (byCategory: map<string, seq<nat>>)
    ensures byCategory.Keys == Categories(Categorised(signals))
    ensures forall c :: c in byCategory ==> byCategory[c] == Members(Categorised(signals), c)
  {
    byCategory := map[];
    for i := 0 to |signals|
      invariant GroupedBelow(Categorised(signals), byCategory, i)
    {
      var cat := NormalizeCategory(signals[i].category);
      CategorisedAt(signals, i);
      PushEntry(Categorised(signals), i, byCategory);
      var indices := if cat in byCategory then byCategory[cat] else [];
      byCategory := byCategory[cat := indices + [i]];
    }
  }

  /** Pushing index `i` onto the list of its category extends the grouping of the first `i` entries by one. */
  lemma PushEntry(cats: seq<string>, i: nat, m: map<string, seq<nat>>)
    requires i < |cats| && GroupedBelow(cats, m, i)
    ensures GroupedBelow(cats, m[cats[i] := (if cats[i] in m then m[cats[i]] else []) + [i]], i + 1)
  {
    var m' := m[cats[i] := (if cats[i] in m then m[cats[i]] else []) + [i]];
    assert CategoriesBelow(cats, i + 1) == CategoriesBelow(cats, i) + {cats[i]};
    NoMembersBelow(cats, i, cats[i]);
    forall c | c in m' ensures m'[c] == MembersBelow(cats, c, i + 1) {
      if c != cats[i] {
        assert m'[c] == m[c];
      }
    }
  }

  /** A category that does not occur below `n` has no members below `n`. */
  lemma {:induction false} NoMembersBelow(cats: seq<string>, n: nat, c: string)
    requires n <= |cats|
    ensures c !in CategoriesBelow(cats, n) ==> MembersBelow(cats, c, n) == []
  {
    if n > 0 {
      NoMembersBelow(cats, n - 1, c);
    }
  }

  /** Adds one metric into the running sums (`entry(name).or_insert((0.0, unit)).0 += value`). */
  function Accumulate(sums: map<string, (real, string)>, m: Metric): map<string, (real, string)> {
    var entry := if m.name in sums then sums[m.name] else (0.0, m.unit);
    sums[m.name := (entry.0 + m.value, entry.1)]
  }

  /** `sums` holds, for each name in `ms`, the sum over that name and the unit of its first occurrence. */
  ghost predicate Summarises(sums: map<string, (real, string)>, ms: seq<Metric>) {
    && sums.Keys == MetricNames(ms)
    && forall n :: n in sums ==>
         && sums[n].0 == SumFor(ms, n)
         && FirstWith(ms, n).Some?
         && sums[n].1 == ms[FirstWith(ms, n).value].unit
  }

  /** Appending a metric adds its name to the names. */
  lemma MetricNamesSnoc(ms: seq<Metric>, m: Metric)
    ensures MetricNames(ms + [m]) == MetricNames(ms) + {m.name}
  {
    var ms' := ms + [m];
    forall n | n in MetricNames(ms) ensures n in MetricNames(ms') {
      var k :| 0 <= k < |ms| && ms[k].name == n;
      assert ms'[k].name == n;
    }
    assert ms'[|ms|].name == m.name;
  }

  /** Accumulating the next metric keeps the sums in step with the metrics seen. */
  lemma AccumulateStep(sums: map<string, (real, string)>, ms: seq<Metric>, m: Metric)
    requires Summarises(sums, ms)
    ensures Summarises(Accumulate(sums, m), ms + [m])
  {
    var ms' := ms + [m];
    var sums' := Accumulate(sums, m);
    assert ms'[..|ms'| - 1] == ms;
    MetricNamesSnoc(ms, m);
    forall n | n in sums'
      ensures sums'[n].0 == SumFor(ms', n)
      ensures FirstWith(ms', n).Some? && sums'[n].1 == ms'[FirstWith(ms', n).value].unit
    {
      AccumulateAt(sums, ms, m, n);
    }
  }

  /** The entry for one name after accumulating `m`. */
  lemma AccumulateAt(sums: map<string, (real, string)>, ms: seq<Metric>, m: Metric, n: string)
    requires Summarises(sums, ms)
    requires n in Accumulate(sums, m)
    ensures Accumulate(sums, m)[n].0 == SumFor(ms + [m], n)
    ensures FirstWith(ms + [m], n).Some? && Accumulate(sums, m)[n].1 == (ms + [m])[FirstWith(ms + [m], n).value].unit
  {
    var ms' := ms + [m];
    assert ms'[..|ms'| - 1] == ms;
    if n in sums {
      assert FirstWith(ms', n) == FirstWith(ms, n);
    } else {
      SumForAbsent(ms, n);
    }
  }

  /** The nested loops that fill `metric_sums` from the metrics of the signals at `indices`, in order. */
  method RollUpMetrics(signals: seq<Signal>, indices: seq<nat>) returns (sums: map<string, (real, string)>)
    requires InRange(signals, indices)
    ensures Summarises(sums, Contributions(signals, indices))
  {
    sums := map[];
    for k := 0 to |indices|
      invariant Summarises(sums, Contributions(signals, indices[..k]))
    {
      ContributionsStep(signals, indices, k);
      sums := AddMetrics(sums, Contributions(signals, indices[..k]), signals[indices[k]].metrics);
    }
    assert indices[..|indices|] == indices;
  }

  /** The contributions of one more index are those before it followed by that signal's metrics. */
  lemma ContributionsStep(signals: seq<Signal>, indices: seq<nat>, k: nat)
    requires InRange(signals, indices) && k < |indices|
    ensures InRange(signals, indices[..k]) && InRange(signals, indices[..k + 1])
    ensures Contributions(signals, indices[..k + 1]) ==
      Contributions(signals, indices[..k]) + signals[indices[k]].metrics
  {
    assert indices[..k + 1][..k] == indices[..k];
  }

  /** The inner loop: the metrics of one signal added into the sums, in order. */
  method AddMetrics(sums0: map<string, (real, string)>, ghost before: seq<Metric>, ms: seq<Metric>)
    returns (sums: map<string, (real, string)>)
    requires Summarises(sums0, before)
    ensures Summarises(sums, before + ms)
  {
    sums := sums0;
    assert before + ms[..0] == before;
    for j := 0 to |ms|
      invariant Summarises(sums, before + ms[..j])
    {
      AccumulateStep(sums, before + ms[..j], ms[j]);
      sums := Accumulate(sums, ms[j]);
      assert before + ms[..j + 1] == before + ms[..j] + [ms[j]];
    }
    assert ms[..|ms|] == ms;
  }

  /** `metric_sums.into_iter().map(..).collect()`: one metric per entry, in the map's (unspecified) order. */
  method KeyMetrics(sums: map<string, (real, string)>) returns (km: seq<Metric>)
    ensures forall i, j :: 0 <= i < j < |km| ==> km[i].name != km[j].name
    ensures MetricNames(km) == sums.Keys
    ensures forall i :: 0 <= i < |km| ==>
      km[i].name in sums && km[i].value == sums[km[i].name].0 && km[i].unit == sums[km[i].name].1
  {
    km := [];
    var remaining := sums.Keys;
    while remaining != {}
      invariant remaining <= sums.Keys
      invariant forall i, j :: 0 <= i < j < |km| ==> km[i].name != km[j].name
      invariant MetricNames(km) == sums.Keys - remaining
      invariant forall i :: 0 <= i < |km| ==>
        km[i].name in sums && km[i].value == sums[km[i].name].0 && km[i].unit == sums[km[i].name].1
      decreases remaining
    {
      var name :| name in remaining;
      var m := Metric(name, sums[name].0, sums[name].1);
      assert MetricNames(km + [m]) == MetricNames(km) + {name} by {
        forall n | n in MetricNames(km) ensures n in MetricNames(km + [m]) {
          var k :| 0 <= k < |km| && km[k].name == n;
          assert (km + [m])[k].name == n;
        }
        assert (km + [m])[|km|].name == name;
      }
      km := km + [m];
      remaining := remaining - {name};
    }
  }

  /** The construction of one `SignalGroup` from its category and member indices. */
  method BuildGroup(signals: seq<Signal>, category: string, indices: seq<nat>) returns (g: SignalGroup)
    requires indices == Members(Categorised(signals), category)
    ensures g.category == category && IsGroupOf(signals, g)
  {
    ghost var cats := Categorised(signals);
    MembersBelowSpec(cats, category, |cats|);
    assert indices == MembersBelow(cats, category, |cats|) && |cats| == |signals|;
    assert InRange(signals, indices);
    var sums := RollUpMetrics(signals, indices);
    var km := KeyMetrics(sums);
    g := SignalGroup(category, indices, |SourcesOf(signals, indices)|, |indices|, km);
  }

  /** The ranking is an order a comparison sort can use. */
  lemma RankBeforeIsOrder()
    ensures Sorting.StrictWeakOrder(RankBefore)
  {
  }

  /** `by_category.into_iter().map(..).collect()`: one group per entry, in the map's (unspecified) order. */
  method GroupsOf(signals: seq<Signal>, byCategory: map<string, seq<nat>>) returns (unsorted: seq<SignalGroup>)
    requires forall c :: c in byCategory ==> byCategory[c] == Members(Categorised(signals), c)
    ensures forall k :: 0 <= k < |unsorted| ==> IsGroupOf(signals, unsorted[k])
    ensures forall k, l :: 0 <= k < l < |unsorted| ==> unsorted[k].category != unsorted[l].category
    ensures CategoriesOf(unsorted) == byCategory.Keys
  {
    unsorted := [];
    var remaining := byCategory.Keys;
    while remaining != {}
      invariant remaining <= byCategory.Keys
      invariant GroupsFor(signals, unsorted)
      invariant CategoriesOf(unsorted) == byCategory.Keys - remaining
      decreases remaining
    {
      var c :| c in remaining;
      var g := BuildGroup(signals, c, byCategory[c]);
      AppendGroup(signals, unsorted, g);
      unsorted := unsorted + [g];
      remaining := remaining - {c};
    }
  }

  /** Groups of `signals`, one per category. */
  ghost predicate GroupsFor(signals: seq<Signal>, gs: seq<SignalGroup>) {
    && (forall k :: 0 <= k < |gs| ==> IsGroupOf(signals, gs[k]))
    && (forall k, l :: 0 <= k < l < |gs| ==> gs[k].category != gs[l].category)
  }

  /** Appending the group of a new category keeps the groups distinct and adds its category. */
  lemma AppendGroup(signals: seq<Signal>, gs: seq<SignalGroup>, g: SignalGroup)
    requires GroupsFor(signals, gs) && IsGroupOf(signals, g) && g.category !in CategoriesOf(gs)
    ensures GroupsFor(signals, gs + [g])
    ensures CategoriesOf(gs + [g]) == CategoriesOf(gs) + {g.category}
  {
    var gs' := gs + [g];
    InCategoriesOf(gs, g.category);
    assert gs'[..|gs|] == gs;
    forall k | 0 <= k < |gs'| ensures IsGroupOf(signals, gs'[k]) {
      if k < |gs| {
        assert gs'[k] == gs[k];
      }
    }
  }

  /** `aggregate`: group, measure and rank the signals. */
  method Aggregate(signals: seq<Signal>) returns (groups: seq<SignalGroup>)
    ensures IsAggregation(signals, groups)
  {
    var byCategory := GroupByCategory(signals);
    var unsorted := GroupsOf(signals, byCategory);
    var a := new SignalGroup[|unsorted|](i requires 0 <= i < |unsorted| => unsorted[i]);
    assert a[..] == unsorted;
    Sorting.SortInPlace(a, RankKey, RankBefore);
    groups := a[..];
    SortedGroups(signals, unsorted);
  }

  /** Sorting a collection of distinct groups keeps them and ranks them. */
  lemma SortedGroups(signals: seq<Signal>, unsorted: seq<SignalGroup>)
    requires forall k :: 0 <= k < |unsorted| ==> IsGroupOf(signals, unsorted[k])
    requires forall k, l :: 0 <= k < l < |unsorted| ==> unsorted[k].category != unsorted[l].category
    requires CategoriesOf(unsorted) == Categories(Categorised(signals))
    ensures IsAggregation(signals, Sorting.Sort(unsorted, RankKey, RankBefore))
  {
    var groups := Sorting.Sort(unsorted, RankKey, RankBefore);
    Sorting.SortPermutes(unsorted, RankKey, RankBefore);
    RankBeforeIsOrder();
    Sorting.SortSorts(unsorted, RankKey, RankBefore);
    Sorting.SortKeepsDistinct(unsorted, RankKey, RankBefore, (g: SignalGroup) => g.category);
    RankedBySort(groups);
    forall k | 0 <= k < |groups| ensures IsGroupOf(signals, groups[k]) {
      assert groups[k] in multiset(unsorted);
    }
    SameCategories(unsorted, groups);
  }

  /** A sequence sorted by the ranking is ranked. */
  lemma RankedBySort(groups: seq<SignalGroup>)
    requires Sorting.SortedBy(groups, RankKey, RankBefore)
    ensures Ranked(groups)
  {
    forall i, j | 0 <= i < j < |groups|
      ensures || groups[i].sourceDiversity > groups[j].sourceDiversity
              || (groups[i].sourceDiversity == groups[j].sourceDiversity && groups[i].totalSignals >= groups[j].totalSignals)
    {
      assert !RankBefore(RankKey(groups[j]), RankKey(groups[i]));
    }
  }

  /** Reordering groups keeps their set of categories. */
  lemma SameCategories(a: seq<SignalGroup>, b: seq<SignalGroup>)
    requires multiset(a) == multiset(b)
    ensures CategoriesOf(a) == CategoriesOf(b)
  {
    forall c ensures c in CategoriesOf(a) ==> c in CategoriesOf(b) {
      InCategoriesOf(a, c);
      InCategoriesOf(b, c);
      if c in CategoriesOf(a) {
        var k :| 0 <= k < |a| && a[k].category == c;
        assert a[k] in multiset(b);
      }
    }
    forall c ensures c in CategoriesOf(b) ==> c in CategoriesOf(a) {
      InCategoriesOf(a, c);
      InCategoriesOf(b, c);
      if c in CategoriesOf(b) {
        var k :| 0 <= k < |b| && b[k].category == c;
        assert b[k] in multiset(a);
      }
    }
  }

  // ----- What an aggregation guarantees -----

  /** `groups` partitions the indices of `cats` by category: one group per category that occurs, holding its members. */
  ghost predicate IsPartition(cats: seq<string>, groups: seq<SignalGroup>) {
    && (forall k :: 0 <= k < |groups| ==> groups[k].signals == Members(cats, groups[k].category))
    && (forall k, l :: 0 <= k < l < |groups| ==> groups[k].category != groups[l].category)
    && CategoriesOf(groups) == Categories(cats)
  }

  lemma AggregationIsPartition(signals: seq<Signal>, groups: seq<SignalGroup>)
    requires IsAggregation(signals, groups)
    ensures IsPartition(Categorised(signals), groups)
    ensures forall k :: 0 <= k < |groups| ==> groups[k].totalSignals == |groups[k].signals|
  {
  }

  /** The `j`-th member of group `k` of a partition is an index of `cats` in the group's category. */
  lemma PartitionMember(cats: seq<string>, groups: seq<SignalGroup>, k: nat, j: nat)
    requires IsPartition(cats, groups)
    requires k < |groups| && j < |groups[k].signals|
    ensures groups[k].signals[j] < |cats| && cats[groups[k].signals[j]] == groups[k].category
    ensures forall b :: j < b < |groups[k].signals| ==> groups[k].signals[j] < groups[k].signals[b]
  {
    assert groups[k].signals == MembersBelow(cats, groups[k].category, |cats|);
    MembersBelowSpec(cats, groups[k].category, |cats|);
  }

  /** In a partition, each index of `cats` is a member of the group of its category. */
  lemma PartitionHas(cats: seq<string>, groups: seq<SignalGroup>, i: nat) returns (k: nat, j: nat)
    requires IsPartition(cats, groups) && i < |cats|
    ensures k < |groups| && j < |groups[k].signals| && groups[k].signals[j] == i
  {
    InCategoriesBelow(cats, |cats|, cats[i]);
    InCategoriesOf(groups, cats[i]);
    k :| 0 <= k < |groups| && groups[k].category == cats[i];
    assert groups[k].signals == MembersBelow(cats, cats[i], |cats|);
    MembersBelowSpec(cats, cats[i], |cats|);
    assert i in groups[k].signals;
    j :| 0 <= j < |groups[k].signals| && groups[k].signals[j] == i;
  }

  /** Index `i` is a member of some group of category `c`. */
  ghost predicate InGroupOf(groups: seq<SignalGroup>, i: nat, c: string) {
    exists k, j :: 0 <= k < |groups| && 0 <= j < |groups[k].signals| && groups[k].signals[j] == i && groups[k].category == c
  }

  /**
   * In a partition of `cats`, every index is a member of exactly one group, that of its
   * category, and occurs there once: the members of each group strictly ascend. With
   * `AggregationIsPartition` and `CategorisedAll` this holds of every aggregation, with
   * `cats[i]` the normalised category of signal `i`.
   */
  lemma PartitionOfIndices(cats: seq<string>, groups: seq<SignalGroup>)
    requires IsPartition(cats, groups)
    ensures forall i :: 0 <= i < |cats| ==> InGroupOf(groups, i, cats[i])
    ensures forall k, j :: 0 <= k < |groups| && 0 <= j < |groups[k].signals| ==>
      groups[k].signals[j] < |cats| && groups[k].category == cats[groups[k].signals[j]]
    ensures forall k, l, a, b ::
      (0 <= k < |groups| && 0 <= l < |groups| && 0 <= a < |groups[k].signals| && 0 <= b < |groups[l].signals|
       && groups[k].signals[a] == groups[l].signals[b]) ==> k == l && a == b
    ensures forall k, a, b :: 0 <= k < |groups| && 0 <= a < b < |groups[k].signals| ==> groups[k].signals[a] < groups[k].signals[b]
  {
    forall i | 0 <= i < |cats|
      ensures InGroupOf(groups, i, cats[i])
    {
      var k, j := PartitionHas(cats, groups, i);
      PartitionMember(cats, groups, k, j);
    }
    forall k, a | 0 <= k < |groups| && 0 <= a < |groups[k].signals|
      ensures groups[k].signals[a] < |cats| && cats[groups[k].signals[a]] == groups[k].category
      ensures forall b :: a < b < |groups[k].signals| ==> groups[k].signals[a] < groups[k].signals[b]
    {
      PartitionMember(cats, groups, k, a);
    }
  }

  /** The category list holds each signal's normalised category. */
  lemma CategorisedAll(signals: seq<Signal>)
    ensures |Categorised(signals)| == |signals|
    ensures forall i :: 0 <= i < |signals| ==> Categorised(signals)[i] == CategoryOf(signals[i])
  {
    forall i | 0 <= i < |signals| ensures Categorised(signals)[i] == CategoryOf(signals[i]) {
      CategorisedAt(signals, i);
    }
  }

  /** The number of the first `n` entries of `cats` that lie in `cs`. */
  function CountIn(cats: seq<string>, cs: set<string>, n: nat): nat
    requires n <= |cats|
  {
    if n == 0 then 0 else CountIn(cats, cs, n - 1) + (if cats[n - 1] in cs then 1 else 0)
  }

  lemma {:induction false} MembersCount(cats: seq<string>, c: string, n: nat)
    requires n <= |cats|
    ensures |MembersBelow(cats, c, n)| == CountIn(cats, {c}, n)
  {
    if n > 0 {
      MembersCount(cats, c, n - 1);
    }
  }

  lemma {:induction false} CountSplit(cats: seq<string>, cs: set<string>, c: string, n: nat)
    requires n <= |cats| && c !in cs
    ensures CountIn(cats, cs + {c}, n) == CountIn(cats, cs, n) + CountIn(cats, {c}, n)
  {
    if n > 0 {
      CountSplit(cats, cs, c, n - 1);
    }
  }

  lemma {:induction false} CountNone(cats: seq<string>, n: nat)
    requires n <= |cats|
    ensures CountIn(cats, {}, n) == 0
  {
    if n > 0 {
      CountNone(cats, n - 1);
    }
  }

  lemma {:induction false} CountAll(cats: seq<string>, cs: set<string>, n: nat)
    requires n <= |cats| && CategoriesBelow(cats, n) <= cs
    ensures CountIn(cats, cs, n) == n
  {
    if n > 0 {
      CountAll(cats, cs, n - 1);
    }
  }

  /** The sum of the groups' `total_signals`. */
  function TotalOf(groups: seq<SignalGroup>): nat {
    if groups == [] then 0 else TotalOf(groups[..|groups| - 1]) + groups[|groups| - 1].totalSignals
  }

  /** Groups of distinct categories that hold their members count the indices whose category is among theirs. */
  lemma {:induction false} TotalOfCounts(cats: seq<string>, groups: seq<SignalGroup>)
    requires forall k :: 0 <= k < |groups| ==>
      groups[k].signals == Members(cats, groups[k].category) && groups[k].totalSignals == |groups[k].signals|
    requires forall k, l :: 0 <= k < l < |groups| ==> groups[k].category != groups[l].category
    ensures TotalOf(groups) == CountIn(cats, CategoriesOf(groups), |cats|)
  {
    if groups != [] {
      var init := groups[..|groups| - 1];
      var g := groups[|groups| - 1];
      assert forall k :: 0 <= k < |init| ==> init[k] == groups[k];
      TotalOfCounts(cats, init);
      InCategoriesOf(init, g.category);
      CountSplit(cats, CategoriesOf(init), g.category, |cats|);
      MembersCount(cats, g.category, |cats|);
    } else {
      CountNone(cats, |cats|);
    }
  }

  /** The groups' sizes add up to the number of signals. */
  lemma TotalsSumToSignals(signals: seq<Signal>, groups: seq<SignalGroup>)
    requires IsAggregation(signals, groups)
    ensures TotalOf(groups) == |signals|
  {
    var cats := Categorised(signals);
    AggregationIsPartition(signals, groups);
    TotalOfCounts(cats, groups);
    CountAll(cats, CategoriesOf(groups), |cats|);
  }

  /** There are no groups exactly when there are no signals. */
  lemma NoSignalsNoGroups(signals: seq<Signal>, groups: seq<SignalGroup>)
    requires IsAggregation(signals, groups)
    ensures groups == [] <==> signals == []
  {
    var cats := Categorised(signals);
    AggregationIsPartition(signals, groups);
    if signals != [] {
      assert cats[|cats| - 1] in Categories(cats);
    }
    if groups != [] {
      assert groups[|groups| - 1].category in CategoriesOf(groups);
    }
  }

  /** No more distinct sources than signals, at least one when there are signals, and at most the three there are. */
  lemma {:induction false} SourcesBounds(signals: seq<Signal>, idx: seq<nat>)
    requires InRange(signals, idx)
    ensures |SourcesOf(signals, idx)| <= |idx| && |SourcesOf(signals, idx)| <= 3
    ensures idx != [] ==> SourcesOf(signals, idx) != {}
  {
    if idx != [] {
      SourcesBounds(signals, idx[..|idx| - 1]);
    }
    AtMostThreeSources(SourcesOf(signals, idx));
  }

  /** Each group has between one and three sources, and no more sources than signals. */
  lemma DiversityBounds(signals: seq<Signal>, groups: seq<SignalGroup>)
    requires IsAggregation(signals, groups)
    ensures forall k :: 0 <= k < |groups| ==>
      1 <= groups[k].sourceDiversity <= groups[k].totalSignals && groups[k].sourceDiversity <= 3
  {
    var cats := Categorised(signals);
    AggregationIsPartition(signals, groups);
    forall k | 0 <= k < |groups| ensures groups[k].signals != [] {
      GroupNonEmpty(cats, groups, k);
    }
    forall k | 0 <= k < |groups|
      ensures 1 <= groups[k].sourceDiversity <= groups[k].totalSignals && groups[k].sourceDiversity <= 3
    {
      assert IsGroupOf(signals, groups[k]);
      SourcesBounds(signals, groups[k].signals);
    }
  }

  /** Every group of a partition has a member. */
  lemma GroupNonEmpty(cats: seq<string>, groups: seq<SignalGroup>, k: nat)
    requires IsPartition(cats, groups) && k < |groups|
    ensures groups[k].signals != []
  {
    var c := groups[k].category;
    InCategoriesOf(groups, c);
    InCategoriesBelow(cats, |cats|, c);
    var i :| 0 <= i < |cats| && cats[i] == c;
    var k', j := PartitionHas(cats, groups, i);
    if k' != k {
      assert groups[k'].category == c by {
        PartitionMember(cats, groups, k', j);
      }
    }
  }

  // ----- The digest handed to the synthesis step (`signals_to_json`) -----

  /** One signal as the digest lists it. */
  datatype SignalDigest = SignalDigest(
    source: string,
    title: string,
    description: string,
    metrics: seq<Metric>,
    url: Option<string>,
    timestamp: Timestamp)

  /** One group as the digest lists it. */
  datatype GroupDigest = GroupDigest(
    category: string,
    signalCount: nat,
    sourceDiversity: nat,
    signals: seq<SignalDigest>)

  function DigestOf(s: Signal): SignalDigest {
    SignalDigest(SourceName(s.source), s.title, s.description, s.metrics, s.url, s.timestamp)
  }

  /** `signals_to_json` without the text layout: one record per group, in group order, listing its signals. */
  function SignalsToJson(signals: seq<Signal>, groups: seq<SignalGroup>): (r: seq<GroupDigest>)
    requires forall k, j :: 0 <= k < |groups| && 0 <= j < |groups[k].signals| ==> groups[k].signals[j] < |signals|
  {
    seq(|groups|, k requires 0 <= k < |groups| =>
      GroupDigest(groups[k].category, groups[k].totalSignals, groups[k].sourceDiversity,
        seq(|groups[k].signals|, j requires 0 <= j < |groups[k].signals| => DigestOf(signals[groups[k].signals[j]]))))
  }

  /** The members of an aggregation's groups are indices of its signals, so the digest is defined. */
  lemma MembersInRange(signals: seq<Signal>, groups: seq<SignalGroup>)
    requires IsAggregation(signals, groups)
    ensures forall k, j :: 0 <= k < |groups| && 0 <= j < |groups[k].signals| ==> groups[k].signals[j] < |signals|
  {
  }

  /** For an aggregation, the digest has one record per group, in group order, each counting the signals it lists. */
  lemma DigestCounts(signals: seq<Signal>, groups: seq<SignalGroup>)
    requires IsAggregation(signals, groups)
    ensures forall k, j :: 0 <= k < |groups| && 0 <= j < |groups[k].signals| ==> groups[k].signals[j] < |signals|
    ensures var r := SignalsToJson(signals, groups);
      && |r| == |groups|
      && forall k :: 0 <= k < |r| ==>
           r[k].category == groups[k].category && r[k].signalCount == |r[k].signals| == |groups[k].signals|
  {
    MembersInRange(signals, groups);
    AggregationIsPartition(signals, groups);
  }

  /** For an aggregation, signal `i` is listed in the digest record `k` of its category, at position `j`. */
  lemma DigestListsSignal(signals: seq<Signal>, groups: seq<SignalGroup>, i: nat) returns (k: nat, j: nat)
    requires IsAggregation(signals, groups) && i < |signals|
    ensures forall k, j :: 0 <= k < |groups| && 0 <= j < |groups[k].signals| ==> groups[k].signals[j] < |signals|
    ensures var r := SignalsToJson(signals, groups);
      && k < |r| && j < |r[k].signals|
      && r[k].signals[j] == DigestOf(signals[i]) && r[k].category == CategoryOf(signals[i])
  {
    MembersInRange(signals, groups);
    k, j := GroupOf(signals, groups, i);
  }

  /** For an aggregation, signal `i` is member `j` of group `k`, the group of its normalised category. */
  lemma GroupOf(signals: seq<Signal>, groups: seq<SignalGroup>, i: nat) returns (k: nat, j: nat)
    requires IsAggregation(signals, groups) && i < |signals|
    ensures k < |groups| && j < |groups[k].signals| && groups[k].signals[j] == i
    ensures groups[k].category == CategoryOf(signals[i])
  {
    var cats := Categorised(signals);
    AggregationIsPartition(signals, groups);
    k, j := PartitionHas(cats, groups, i);
    PartitionMember(cats, groups, k, j);
    CategorisedAt(signals, i);
  }
}
