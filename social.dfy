/**
 * The blog collector (src/sources/social.rs): from what each CSS selector matched on a
 * fetched page to one summary signal per blog, and the loop over the configured blogs.
 * Fetching and HTML parsing are not modelled: a page is given as the outcome of each of
 * the seven selectors, in order, with `None` where the selector text does not parse.
 */
module Social {
  import opened Wrappers
  import opened Text
  import opened Types
  import Sorting

  /** A matched element: its text (the concatenation of its text nodes) and its `href`, if any. */
  datatype Element = Element(text: string, href: Option<string>)

  /** A scraped article: trimmed title and link. */
  datatype Article = Article(title: string, href: string)

  /** What each selector matched, in selector order; `None` where the selector does not parse. */
  type Page = seq<Option<seq<Element>>>

  /** One configured blog. */
  datatype BlogSource = BlogSource(name: string, url: string)

  function ArticleOf(e: Element): Article {
    Article(Trim(e.text), e.href.GetOr(""))
  }

  /** The title test: non-empty and longer than five bytes. */
  predicate LongEnough(title: string) {
    title != [] && |title| > 5
  }

  // ----- Selecting the articles -----

  /** The article each element would give, in document order. */
  function Candidates(elems: seq<Element>): (r: seq<Article>)
    ensures |r| == |elems|
  {
    seq(|elems|, i requires 0 <= i < |elems| => ArticleOf(elems[i]))
  }

  /** The candidates whose title passes the length test, in order. */
  function LongOnes(cands: seq<Article>): (r: seq<Article>)
    ensures |r| <= |cands|
  {
    if cands == [] then []
    else
      var a := cands[|cands| - 1];
      LongOnes(cands[..|cands| - 1]) + (if LongEnough(a.title) then [a] else [])
  }

  /** Extending the candidates by one keeps that one exactly when its title passes. */
  lemma LongOnesStep(cands: seq<Article>, j: nat)
    requires j < |cands|
    ensures LongOnes(cands[..j + 1]) == LongOnes(cands[..j]) + (if LongEnough(cands[j].title) then [cands[j]] else [])
  {
    assert cands[..j + 1][..j] == cands[..j];
  }

  /** The articles one selector's elements yield. */
  function KeptArticles(elems: seq<Element>): seq<Article> {
    LongOnes(Candidates(elems))
  }

  /** A candidate is kept exactly when its title passes the length test. */
  lemma {:induction false} LongOnesSpec(cands: seq<Article>, a: Article)
    ensures a in LongOnes(cands) <==> a in cands && LongEnough(a.title)
  {
    if cands != [] {
      LongOnesSpec(cands[..|cands| - 1], a);
      assert cands == cands[..|cands| - 1] + [cands[|cands| - 1]];
    }
  }

  /** An article is a candidate exactly when some element yields it. */
  lemma CandidatesSpec(elems: seq<Element>, a: Article)
    ensures a in Candidates(elems) <==> exists e :: 0 <= e < |elems| && ArticleOf(elems[e]) == a
  {
    var cands := Candidates(elems);
    if a in cands {
      var e :| 0 <= e < |cands| && cands[e] == a;
      assert ArticleOf(elems[e]) == a;
    }
    if exists e :: 0 <= e < |elems| && ArticleOf(elems[e]) == a {
      var e :| 0 <= e < |elems| && ArticleOf(elems[e]) == a;
      assert cands[e] == a;
    }
  }

  /** An article is kept exactly when some element yields it and its title is longer than five bytes. */
  lemma KeptArticlesSpec(elems: seq<Element>, a: Article)
    ensures a in KeptArticles(elems) <==>
      |a.title| > 5 && exists e :: 0 <= e < |elems| && ArticleOf(elems[e]) == a
  {
    LongOnesSpec(Candidates(elems), a);
    CandidatesSpec(elems, a);
  }

  /** What selector `t` yields: its kept articles, or none when it does not parse. */
  function Yield(page: Page, t: nat): seq<Article>
    requires t < |page|
  {
    if page[t].Some? then KeptArticles(page[t].value) else []
  }

  /** What each selector yields, in selector order. */
  function Yields(page: Page): (r: seq<seq<Article>>)
    ensures |r| == |page|
  {
    seq(|page|, t requires 0 <= t < |page| => Yield(page, t))
  }

  /** The first non-empty list from position `i` on, or none. */
  function FirstNonEmpty(lists: seq<seq<Article>>, i: nat): seq<Article>
    requires i <= |lists|
    decreases |lists| - i
  {
    if i == |lists| then []
    else if lists[i] != [] then lists[i]
    else FirstNonEmpty(lists, i + 1)
  }

  /** The articles the selector loop leaves. */
  function Selected(page: Page): seq<Article> {
    FirstNonEmpty(Yields(page), 0)
  }

  /** The inner loop over one selector's matches: the elements that pass the length test, as articles. */
  method KeepArticles(elems: seq<Element>) returns (articles: seq<Article>)
    ensures articles == KeptArticles(elems)
  {
    ghost var cands := Candidates(elems);
    articles := [];
    for j := 0 to |elems|
      invariant articles == LongOnes(cands[..j])
    {
      var title := Trim(elems[j].text);
      var href := elems[j].href.GetOr("");
      assert cands[j] == Article(title, href);
      LongOnesStep(cands, j);
      if title != [] && |title| > 5 {
        articles := articles + [Article(title, href)];
      }
    }
    assert cands[..|elems|] == cands;
  }

  /**
   * The selector loop: selectors are tried in order, one that does not parse is skipped,
   * and the loop stops after the first one that yields an article.
   */
  method SelectArticles(page: Page) returns (articles: seq<Article>)
    ensures articles == Selected(page)
  {
    ghost var lists := Yields(page);
    articles := [];
    var i := 0;
    while i < |page|
      invariant 0 <= i <= |page|
      invariant articles == []
      invariant Selected(page) == FirstNonEmpty(lists, i)
    {
      assert lists[i] == Yield(page, i);
      if page[i].Some? {
        articles := KeepArticles(page[i].value);
        assert articles == lists[i];
        if articles != [] {
          break;
        }
      } else {
        assert lists[i] == [];
      }
      i := i + 1;
    }
  }

  /**
   * The first non-empty list from `i` on is list `s`, and every list between is empty;
   * when there is none, every list from `i` on is empty.
   */
  lemma {:induction false} FirstNonEmptyIsFirst(lists: seq<seq<Article>>, i: nat) returns (s: nat)
    requires i <= |lists|
    ensures FirstNonEmpty(lists, i) != [] ==> i <= s < |lists| && FirstNonEmpty(lists, i) == lists[s]
    ensures FirstNonEmpty(lists, i) != [] ==> forall t :: i <= t < s ==> lists[t] == []
    ensures FirstNonEmpty(lists, i) == [] ==> forall t :: i <= t < |lists| ==> lists[t] == []
    decreases |lists| - i
  {
    if i == |lists| || lists[i] != [] {
      s := i;
    } else {
      s := FirstNonEmptyIsFirst(lists, i + 1);
    }
  }

  /**
   * The selection is what the first selector that parses and yields an article yields;
   * every selector before it does not parse or yields nothing. The selection is empty
   * exactly when no selector yields anything.
   */
  lemma SelectedIsFirst(page: Page) returns (s: nat)
    ensures Selected(page) != [] ==>
      s < |page| && page[s].Some? && Selected(page) == KeptArticles(page[s].value)
    ensures Selected(page) != [] ==> forall t :: 0 <= t < s ==> Yield(page, t) == []
    ensures Selected(page) == [] ==> forall t :: 0 <= t < |page| ==> Yield(page, t) == []
  {
    var lists := Yields(page);
    s := FirstNonEmptyIsFirst(lists, 0);
    if Selected(page) != [] {
      assert lists[s] == Yield(page, s);
    }
    forall t | 0 <= t < |page| ensures lists[t] == Yield(page, t) {
    }
  }

  // ----- Sorting and removing duplicate titles -----

  function TitleOf(a: Article): string {
    a.title
  }

  /** The articles after `sort_by` on the title and `dedup_by` on equal titles. */
  function Deduplicated(articles: seq<Article>): seq<Article> {
    Sorting.Dedup(Sorting.Sort(articles, TitleOf, LexLess), TitleOf)
  }

  /** `articles.sort_by(..)` then `articles.dedup_by(..)`, in place on a buffer. */
  method SortAndDedup(articles: seq<Article>) returns (unique: seq<Article>)
    ensures unique == Deduplicated(articles)
  {
    var a := new Article[|articles|](i requires 0 <= i < |articles| => articles[i]);
    assert a[..] == articles;
    Sorting.SortInPlace(a, TitleOf, LexLess);
    var len := Sorting.DedupInPlace(a, TitleOf);
    unique := a[..len];
  }

  /** Byte-wise order of strings is a strict total order. */
  lemma LexLessIsTotal()
    ensures Sorting.StrictTotalOrder(LexLess)
  {
    forall a, b | LexLess(a, b) ensures !LexLess(b, a) {
      LexLessTotal(a, b);
    }
    forall a, b, c | !LexLess(a, b) && !LexLess(b, c) ensures !LexLess(a, c) {
      LexLessTotal(a, b);
      LexLessTotal(b, c);
      LexLessTotal(a, c);
      if a != b && b != c && LexLess(a, c) {
        LexLessTransitive(c, b, a);
      }
    }
    forall a, b ensures LexLess(a, b) || LexLess(b, a) || a == b {
      LexLessTotal(a, b);
    }
  }

  /**
   * After sorting and removing duplicates the titles strictly ascend, so they are unique;
   * every title survives; and for each title the article kept is the first one scraped with it.
   */
  lemma DeduplicatedSpec(articles: seq<Article>)
    ensures var d := Deduplicated(articles);
      && (forall i, j :: 0 <= i < j < |d| ==> LexLess(d[i].title, d[j].title))
      && (forall i, j :: 0 <= i < j < |d| ==> d[i].title != d[j].title)
      && Sorting.Keys(d, TitleOf) == Sorting.Keys(articles, TitleOf)
      && (forall i :: 0 <= i < |d| ==> FirstWithTitle(articles, d[i].title) == Some(d[i]))
  {
    var d := Deduplicated(articles);
    LexLessIsTotal();
    Sorting.SortDedup(articles, TitleOf, LexLess);
    forall i, j | 0 <= i < j < |d| ensures d[i].title != d[j].title {
      LexLessIrreflexive(d[i].title);
    }
    forall i | 0 <= i < |d| ensures FirstWithTitle(articles, d[i].title) == Some(d[i]) {
      FirstWithTitleIsFilterHead(articles, d[i].title);
    }
  }

  /** The first article scraped with title `t`, if any. */
  function FirstWithTitle(articles: seq<Article>, t: string): (r: Option<Article>)
    ensures r.Some? ==> r.value in articles && r.value.title == t
    ensures r.None? ==> forall i :: 0 <= i < |articles| ==> articles[i].title != t
  {
    if articles == [] then None
    else if articles[0].title == t then Some(articles[0])
    else FirstWithTitle(articles[1..], t)
  }

  lemma {:induction false} FirstWithTitleIsFilterHead(articles: seq<Article>, t: string)
    ensures Sorting.Filter(articles, TitleOf, t) == [] <==> FirstWithTitle(articles, t) == None
    ensures Sorting.Filter(articles, TitleOf, t) != [] ==>
      FirstWithTitle(articles, t) == Some(Sorting.Filter(articles, TitleOf, t)[0])
    decreases |articles|
  {
    if articles != [] {
      assert articles == [articles[0]] + articles[1..];
      Sorting.FilterCons(articles[0], articles[1..], TitleOf, t);
      FirstWithTitleIsFilterHead(articles[1..], t);
    }
  }

  // ----- The keyword filter -----

  /** The keywords that mark an article as Solana-related, matched in the lower-cased title. */
  const Keywords: seq<string> :=
    ["solana", "sol", "defi", "depin", "token", "validator", "staking", "nft", "web3", "blockchain", "crypto"]

  predicate SolanaRelated(title: string) {
    exists k :: 0 <= k < |Keywords| && Contains(Lower(title), Keywords[k])
  }

  /** The Solana-related articles, in order. */
  function SolanaArticles(articles: seq<Article>): (r: seq<Article>)
    ensures |r| <= |articles|
    ensures multiset(r) <= multiset(articles)
  {
    if articles == [] then []
    else
      var last := articles[|articles| - 1];
      assert articles == articles[..|articles| - 1] + [last];
      SolanaArticles(articles[..|articles| - 1]) + (if SolanaRelated(last.title) then [last] else [])
  }

  /** The Solana-related articles are exactly the articles whose title contains a keyword. */
  lemma {:induction false} SolanaArticlesSpec(articles: seq<Article>, a: Article)
    ensures a in SolanaArticles(articles) <==> a in articles && SolanaRelated(a.title)
  {
    if articles != [] {
      var init := articles[..|articles| - 1];
      SolanaArticlesSpec(init, a);
      assert articles == init + [articles[|articles| - 1]];
    }
  }

  // ----- The summary signal -----

  /** How many titles the description lists at most. */
  const TopicLimit := 10

  /** The titles of the first ten articles (`take(10)`). */
  function TopicTitles(articles: seq<Article>): (r: seq<string>)
    ensures |r| == if |articles| < TopicLimit then |articles| else TopicLimit
    ensures forall i :: 0 <= i < |r| ==> r[i] == articles[i].title
  {
    var n := if |articles| < TopicLimit then |articles| else TopicLimit;
    seq(n, i requires 0 <= i < n => articles[i].title)
  }

  /**
   * The signals one blog yields from its articles. The source picks `&articles` on both
   * sides of its Solana test, so the listed topics are always taken from all articles.
   */
  function Summary(name: string, url: string, articles: seq<Article>, now: Timestamp): seq<Signal> {
    var solana := SolanaArticles(articles);
    if solana == [] && articles == [] then []
    else
      [Signal(
        Social,
        "Blog: " + name,
        name + ": " + NatToString(|articles|) + " recent articles (" + NatToString(|solana|) + " Solana-related)",
        "Recent topics: " + Join(TopicTitles(articles), "; "),
        [Metric("total_articles", |articles| as real, "articles"),
         Metric("solana_relevant", |solana| as real, "articles")],
        Some(url),
        now)]
  }

  /**
   * No articles, no signal; otherwise exactly one Social signal in the category "Blog: name",
   * whose metrics count all articles and the Solana-related ones (never more than all), and
   * whose description lists the first ten titles of all articles.
   */
  lemma SummaryShape(name: string, url: string, articles: seq<Article>, now: Timestamp)
    ensures var r := Summary(name, url, articles, now);
      && (r == [] <==> articles == [])
      && (articles != [] ==>
        && |r| == 1
        && r[0].source == Social
        && r[0].category == "Blog: " + name
        && r[0].url == Some(url)
        && r[0].description == "Recent topics: " + Join(TopicTitles(articles), "; ")
        && |r[0].metrics| == 2
        && r[0].metrics[0] == Metric("total_articles", |articles| as real, "articles")
        && r[0].metrics[1] == Metric("solana_relevant", |SolanaArticles(articles)| as real, "articles")
        && r[0].metrics[1].value <= r[0].metrics[0].value)
  {
  }

  // ----- One blog, and all blogs -----

  /** `scrape_source` once the page is fetched: select, sort and dedup, summarise. */
  function Scrape(source: BlogSource, page: Page, now: Timestamp): seq<Signal> {
    Summary(source.name, source.url, Deduplicated(Selected(page)), now)
  }

  /** `scrape_source`; a failed fetch is passed on as the error. */
  method ScrapeSource(source: BlogSource, fetched: Result<Page, string>, now: Timestamp)
    returns (r: Result<seq<Signal>, string>)
    ensures fetched.Failure? ==> r == Failure(fetched.error)
    ensures fetched.Success? ==> r == Success(Scrape(source, fetched.value, now))
  {
    if fetched.Failure? {
      return Failure(fetched.error);
    }
    var articles := SelectArticles(fetched.value);
    articles := SortAndDedup(articles);
    r := Success(Summary(source.name, source.url, articles, now));
  }

  /** A blog yields at most one signal, a Social one in its own "Blog: " category. */
  lemma ScrapeShape(source: BlogSource, page: Page, now: Timestamp)
    ensures var r := Scrape(source, page, now);
      && |r| <= 1
      && (r == [] <==> Selected(page) == [])
      && (forall k :: 0 <= k < |r| ==> r[k].source == Social && r[k].category == "Blog: " + source.name)
  {
    var articles := Selected(page);
    SummaryShape(source.name, source.url, Deduplicated(articles), now);
    if articles != [] {
      Sorting.SortPermutes(articles, TitleOf, LexLess);
      Sorting.DedupLast(Sorting.Sort(articles, TitleOf, LexLess), TitleOf);
    }
  }

  /** The outcome of `scrape_source` for one blog. */
  function ScrapeOutcome(source: BlogSource, fetched: Result<Page, string>, now: Timestamp): Result<seq<Signal>, string> {
    match fetched
    case Success(page) => Success(Scrape(source, page, now))
    case Failure(e) => Failure(e)
  }

  /** The outcome for each configured blog, in configuration order. */
  function ScrapeAll(sources: seq<BlogSource>, pages: seq<Result<Page, string>>, now: Timestamp): (r: seq<Result<seq<Signal>, string>>)
    requires |pages| == |sources|
    ensures |r| == |sources|
  {
    seq(|sources|, i requires 0 <= i < |sources| => ScrapeOutcome(sources[i], pages[i], now))
  }

  /** `collect`: a blog whose fetch fails is skipped, and the call always succeeds. */
  method Collect(sources: seq<BlogSource>, pages: seq<Result<Page, string>>, now: Timestamp)
    returns (signals: seq<Signal>)
    requires |pages| == |sources|
    ensures signals == Successes(ScrapeAll(sources, pages, now))
  {
    ghost var outcomes := ScrapeAll(sources, pages, now);
    signals := [];
    for i := 0 to |sources|
      invariant signals == Successes(outcomes[..i])
    {
      var r := ScrapeSource(sources[i], pages[i], now);
      assert r == outcomes[i];
      if r.Success? {
        signals := signals + r.value;
      }
      assert outcomes[..i + 1][..i] == outcomes[..i];
    }
    assert outcomes[..|sources|] == outcomes;
  }

  /** Outcomes of at most one Social signal each collect to at most one Social signal per outcome. */
  lemma {:induction false} CollectedSingles(outcomes: seq<Result<seq<Signal>, string>>)
    requires forall i :: 0 <= i < |outcomes| && outcomes[i].Success? ==> |outcomes[i].value| <= 1
    requires forall i, k :: 0 <= i < |outcomes| && outcomes[i].Success? && 0 <= k < |outcomes[i].value| ==>
      outcomes[i].value[k].source == Social
    ensures |Successes(outcomes)| <= |outcomes|
    ensures forall k :: 0 <= k < |Successes(outcomes)| ==> Successes(outcomes)[k].source == Social
  {
    if outcomes != [] {
      CollectedSingles(outcomes[..|outcomes| - 1]);
    }
  }

  /** `collect` yields at most one signal per configured blog, and only Social ones. */
  lemma CollectShape(sources: seq<BlogSource>, pages: seq<Result<Page, string>>, now: Timestamp)
    requires |pages| == |sources|
    ensures |Successes(ScrapeAll(sources, pages, now))| <= |sources|
    ensures forall k :: 0 <= k < |Successes(ScrapeAll(sources, pages, now))| ==>
      Successes(ScrapeAll(sources, pages, now))[k].source == Social
  {
    var outcomes: seq<Result<seq<Signal>, string>> := ScrapeAll(sources, pages, now);
    forall i | 0 <= i < |outcomes| && outcomes[i].Success?
      ensures |outcomes[i].value| <= 1 && forall k :: 0 <= k < |outcomes[i].value| ==> outcomes[i].value[k].source == Social
    {
      ScrapeShape(sources[i], pages[i].value, now);
    }
    CollectedSingles(outcomes);
  }
}
