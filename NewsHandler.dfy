/**
 * The news endpoint: ask the upstream headlines service for the requested
 * category, normalise what comes back, and reconcile it with the fallback
 * corpus. The upstream call, the clock and the shuffle's randomness are
 * inputs; the handler itself is a method proved equal to `NewsResponse`,
 * and the reconciliation policy is stated and proved about `Assembled`.
 */
module NewsHandler {
  import opened Articles
  import opened Categories
  import opened Normalisation
  import opened TitleDedup
  import opened FallbackCorpus

  /** What the upstream request produced: it threw (network error, timeout,
      non-2xx status, a body that cannot be read), or it responded with a
      body whose `articles` field may be missing. */
  datatype Upstream = Threw | Responded(articles: Option<seq<RawEntry>>)

  /** The parameters of the upstream request. */
  datatype HeadlinesQuery = HeadlinesQuery(category: string, pageSize: nat, language: string, timeoutMs: nat)

  const PageSize: nat := 15
  const Language: string := "en"
  const TimeoutMs: nat := 5000

  /** A live list shorter than this is topped up from the fallback corpus. */
  const MinLive: nat := 8

  /** The live result: the upstream was not used, or it was used and gave
      these normalised articles (possibly none, when every entry was dropped). */
  datatype Live = NotUsed | Used(articles: seq<Article>)

  /** The upstream request for a requested category. */
  function UpstreamQuery(category: string): (q: HeadlinesQuery)
    ensures q.category in UpstreamVocabulary
    ensures category in CategoryMap ==> q.category == CategoryMap[category]
    ensures category !in CategoryMap ==> q.category == GenericUpstream
    ensures q.pageSize == PageSize && q.language == Language && q.timeoutMs == TimeoutMs
  {
    HeadlinesQuery(UpstreamCategory(category), PageSize, Language, TimeoutMs)
  }

  /** The live result: used exactly when the upstream responded with a
      non-empty `articles` array. */
  function Fetch(upstream: Upstream, category: string, now: Clock): (live: Live)
    ensures live.Used? <==> upstream.Responded? && upstream.articles.Some? && |upstream.articles.value| > 0
    ensures live.Used? ==> live.articles == Normalise(upstream.articles.value, category, now)
    ensures live.Used? ==> |live.articles| <= |upstream.articles.value|
    ensures live.Used? ==> forall i :: 0 <= i < |live.articles| ==>
              live.articles[i].title != "" && live.articles[i].title != RemovedTitle &&
              live.articles[i].category == category && live.articles[i].id.LiveId?
  {
    match upstream
    case Responded(Some(entries)) =>
      if |entries| > 0 then
        assert forall i :: 0 <= i < |Normalise(entries, category, now)| ==>
          Normalise(entries, category, now)[i].id.LiveId? by {
          forall i | 0 <= i < |Normalise(entries, category, now)|
            ensures Normalise(entries, category, now)[i].id.LiveId? {
            NormalisedFields(entries, category, now, i);
          }
        }
        Used(Normalise(entries, category, now))
      else NotUsed
    case _ => NotUsed
  }

  /** The article list the handler holds just before the final `slice(0, 20)`. */
  function Assembled(live: Live, fallback: seq<Article>): seq<Article>
  {
    match live
    case NotUsed => fallback
    case Used(a) =>
      if |a| < MinLive then Take(DedupByTitle(a + fallback), MaxArticles) else a
  }

  /** The body of the response to a request. */
  function NewsResponse(query: Option<string>, upstream: Upstream, now: Clock, draws: seq<nat>): (body: seq<Article>)
    ensures |body| <= MaxArticles
  {
    var category := RequestedCategory(query);
    Take(Assembled(Fetch(upstream, category, now), FallbackArticles(category, now, draws)), MaxArticles)
  }

  /** The `/api/news` handler. It returns the upstream request it makes and
      the response body; `upstream` is what that request produced. */
  method ServeNews(query: Option<string>, upstream: Upstream, now: Clock, draws: seq<nat>)
    returns (request: HeadlinesQuery, body: seq<Article>)
    ensures request == UpstreamQuery(RequestedCategory(query))
    ensures body == NewsResponse(query, upstream, now, draws)
    ensures |body| <= MaxArticles
  {
    var category := RequestedCategory(query);
    var newsApiCategory := UpstreamCategory(category);
    request := HeadlinesQuery(newsApiCategory, PageSize, Language, TimeoutMs);

    var articles: seq<Article> := [];
    var usedNewsAPI := false;
    if upstream.Responded? && upstream.articles.Some? && |upstream.articles.value| > 0 {
      articles := Normalise(upstream.articles.value, category, now);
      usedNewsAPI := true;
    }
    assert usedNewsAPI <==> Fetch(upstream, category, now).Used?;
    assert usedNewsAPI ==> articles == Fetch(upstream, category, now).articles;

    if |articles| < MinLive {
      var fallbackArticles := FallbackArticles(category, now, draws);
      if usedNewsAPI {
        var mixedArticles := articles + fallbackArticles;
        var uniqueArticles := DedupByTitle(mixedArticles);
        articles := Take(uniqueArticles, MaxArticles);
      } else {
        articles := fallbackArticles;
      }
    }
    body := Take(articles, MaxArticles);
  }

  /** Whether the live list reaches the response without de-duplication:
      only a used live list of at least `MinLive` articles does. */
  predicate Sufficient(live: Live)
  {
    live.Used? && |live.articles| >= MinLive
  }

  /** A sufficient live list is sent as it is, cut to 20; nothing from the
      fallback is added. */
  lemma SufficientLiveVerbatim(live: Live, fallback: seq<Article>)
    requires Sufficient(live)
    ensures Take(Assembled(live, fallback), MaxArticles) == Take(live.articles, MaxArticles)
    ensures forall a :: a in Take(Assembled(live, fallback), MaxArticles) ==> a in live.articles
  {
  }

  /** Without a live result, the fallback is sent as it is (cut to 20), not
      de-duplicated. */
  lemma NotUsedIsFallback(fallback: seq<Article>)
    ensures Take(Assembled(NotUsed, fallback), MaxArticles) == Take(fallback, MaxArticles)
  {
  }

  /** A short live list is de-duplicated together with the fallback: the
      live articles come first, every live title survives, and no title is
      repeated. */
  lemma MixedLiveFirst(a: seq<Article>, fallback: seq<Article>)
    requires |a| < MinLive
    ensures var r := Take(Assembled(Used(a), fallback), MaxArticles);
            var d := DedupByTitle(a);
            r == Take(d + Distinct(fallback, TitleSet(a)), MaxArticles) &&
            |d| <= |r| && r[..|d|] == d &&
            TitleSet(a) <= TitleSet(r) &&
            UniqueTitles(r) &&
            (forall x :: x in r ==> x in a || x in fallback)
  {
    var d := DedupByTitle(a);
    var m := DedupByTitle(a + fallback);
    var r := Take(m, MaxArticles);
    assert m == d + Distinct(fallback, TitleSet(a)) by { DedupAppend(a, fallback); }
    assert TitleSet(d) == TitleSet(a) && |d| <= |a| by { DedupProperties(a); }
    TakeKeepsPrefix(d, Distinct(fallback, TitleSet(a)), MaxArticles);
    PrefixTitles(d, r);
    assert UniqueTitles(r) && forall x :: x in r ==> x in a + fallback by {
      DedupProperties(a + fallback);
      SubsequenceMembers(m, a + fallback);
      TakeUnique(m, MaxArticles);
    }
  }

  /** When the live titles are distinct and the fallback repeats none of
      them, mixing is plain concatenation, cut to 20. */
  lemma MixedNoOverlap(a: seq<Article>, fallback: seq<Article>)
    requires |a| < MinLive
    requires UniqueTitles(a) && UniqueTitles(fallback)
    requires TitleSet(a) !! TitleSet(fallback)
    ensures Take(Assembled(Used(a), fallback), MaxArticles) == Take(a + fallback, MaxArticles)
  {
    DedupAppend(a, fallback);
    DedupIsDistinct(a);
    DistinctOfUnique(a, {});
    DistinctOfUnique(fallback, TitleSet(a));
  }

  /** The response never repeats a title, unless a sufficient live list
      repeats one: only that branch skips de-duplication. */
  lemma {:induction false} AssembledUniqueTitles(live: Live, fallback: seq<Article>)
    requires UniqueTitles(fallback)
    requires Sufficient(live) ==> UniqueTitles(live.articles)
    ensures UniqueTitles(Take(Assembled(live, fallback), MaxArticles))
  {
    match live
    case NotUsed =>
      TakeUnique(fallback, MaxArticles);
    case Used(a) =>
      if |a| < MinLive {
        MixedLiveFirst(a, fallback);
      } else {
        TakeUnique(a, MaxArticles);
      }
  }

  /** Sending a sufficient live list verbatim can repeat a title: eight
      upstream entries with one title give a response with that title eight
      times. */
  lemma SufficientLiveKeepsDuplicates(now: Clock, draws: seq<nat>)
    ensures var e := RawEntry(Some("Headline"), None, None, None, None, None);
            var body := NewsResponse(Some("Sports"), Responded(Some(seq(8, _ => e))), now, draws);
            |body| == 8 && !UniqueTitles(body)
  {
    var e := RawEntry(Some("Headline"), None, None, None, None, None);
    var entries := seq(8, _ => e);
    var live := Normalise(entries, "Sports", now);
    assert Eligible(e);
    assert Eligibles(entries) == entries by {
      assert forall i :: 0 <= i < |entries| ==> Eligible(entries[i]);
      EligiblesOfEligible(entries);
    }
    assert |live| == 8;
    NormalisedFields(entries, "Sports", now, 0);
    NormalisedFields(entries, "Sports", now, 1);
    assert live[0].title == live[1].title;
  }

  /** Every response holds at least one article, each with a non-empty title. */
  lemma ResponseNonEmpty(query: Option<string>, upstream: Upstream, now: Clock, draws: seq<nat>)
    ensures var body := NewsResponse(query, upstream, now, draws);
            0 < |body| && forall a :: a in body ==> a.title != ""
  {
    var category := RequestedCategory(query);
    var live := Fetch(upstream, category, now);
    var fallback := FallbackArticles(category, now, draws);
    FallbackTitlesNonEmpty(category, now, draws);
    var body := NewsResponse(query, upstream, now, draws);
    match live
    case NotUsed =>
    case Used(a) =>
      if |a| < MinLive {
        MixedLiveFirst(a, fallback);
        DedupAppend(a, fallback);
        DistinctTitles(fallback, TitleSet(a));
        if DedupByTitle(a) == [] {
          assert fallback[0].title in TitleSet(fallback) - TitleSet(a) by {
            DedupProperties(a);
            assert TitleSet(a) == {};
          }
        }
      }
      forall x | x in body ensures x.title != "" {
        var i :| 0 <= i < |body| && body[i] == x;
        assert x in a || x in fallback;
      }
  }

  /** A request whose upstream call threw, had no `articles` field or an
      empty one is answered with the fallback for its category, unchanged. */
  lemma FailedFetchServesFallback(query: Option<string>, upstream: Upstream, now: Clock, draws: seq<nat>)
    requires upstream.Threw? || upstream.articles.None? || upstream.articles.value == []
    ensures NewsResponse(query, upstream, now, draws) ==
            FallbackArticles(RequestedCategory(query), now, draws)
  {
  }

  /** `All`, asked for explicitly or by default, with a failed upstream
      call: 20 distinct-titled articles of the corpus, in the order the
      draws give. */
  lemma AllWithoutUpstream(query: Option<string>, upstream: Upstream, now: Clock, draws: seq<nat>)
    requires RequestedCategory(query) == AllKey
    requires upstream.Threw? || upstream.articles.None? || upstream.articles.value == []
    ensures var body := NewsResponse(query, upstream, now, draws);
            |body| == MaxArticles && UniqueTitles(body) && multiset(body) <= multiset(Flattened(now))
  {
    FailedFetchServesFallback(query, upstream, now, draws);
    FallbackForAll(now, draws);
  }

  /** An upstream payload none of whose entries survives the filter still
      counts as used; the de-duplication it triggers leaves the fallback
      unchanged, so the fallback is served. */
  lemma AllRemovedServesFallback(query: Option<string>, entries: seq<RawEntry>, now: Clock, draws: seq<nat>)
    requires |entries| > 0 && forall i :: 0 <= i < |entries| ==> !Eligible(entries[i])
    ensures Fetch(Responded(Some(entries)), RequestedCategory(query), now) == Used([])
    ensures NewsResponse(query, Responded(Some(entries)), now, draws) ==
            FallbackArticles(RequestedCategory(query), now, draws)
  {
    var category := RequestedCategory(query);
    NoneEligible(entries, category, now);
    FallbackUniqueTitles(category, now, draws);
    EmptyLiveKeepsFallback(FallbackArticles(category, now, draws));
  }

  /** A used but empty live list leaves a fallback without repeated titles unchanged. */
  lemma EmptyLiveKeepsFallback(fallback: seq<Article>)
    requires UniqueTitles(fallback) && |fallback| <= MaxArticles
    ensures Take(Assembled(Used([]), fallback), MaxArticles) == fallback
  {
    assert [] + fallback == fallback;
    DedupIsDistinct(fallback);
    DistinctOfUnique(fallback, {});
  }

  /** A short live list: the response is its de-duplication followed by the
      fallback articles whose titles it does not carry, cut to 20. */
  lemma ShortLiveMixes(query: Option<string>, upstream: Upstream, now: Clock, draws: seq<nat>)
    requires Fetch(upstream, RequestedCategory(query), now).Used?
    requires |Fetch(upstream, RequestedCategory(query), now).articles| < MinLive
    ensures var category := RequestedCategory(query);
            var a := Fetch(upstream, category, now).articles;
            var body := NewsResponse(query, upstream, now, draws);
            body == Take(DedupByTitle(a) + Distinct(FallbackArticles(category, now, draws), TitleSet(a)), MaxArticles) &&
            TitleSet(a) <= TitleSet(body) && UniqueTitles(body)
  {
    var category := RequestedCategory(query);
    MixedLiveFirst(Fetch(upstream, category, now).articles, FallbackArticles(category, now, draws));
  }

  /** A sufficient live list is the response, cut to 20: every article is a
      live article of the requested category. */
  lemma SufficientLiveServed(query: Option<string>, upstream: Upstream, now: Clock, draws: seq<nat>)
    requires Sufficient(Fetch(upstream, RequestedCategory(query), now))
    ensures var category := RequestedCategory(query);
            var body := NewsResponse(query, upstream, now, draws);
            body == Take(Fetch(upstream, category, now).articles, MaxArticles) &&
            forall i :: 0 <= i < |body| ==> body[i].id.LiveId? && body[i].category == category
  {
    var category := RequestedCategory(query);
    var a := Fetch(upstream, category, now).articles;
    var body := Take(a, MaxArticles);
    assert NewsResponse(query, upstream, now, draws) == body;
    forall i | 0 <= i < |body| ensures body[i].id.LiveId? && body[i].category == category {
      assert body[i] == a[i];
    }
  }

  /** No response repeats a title, unless the upstream itself sent a
      sufficient live list that repeats one (see
      `SufficientLiveKeepsDuplicates`). */
  lemma ResponseUniqueTitles(query: Option<string>, upstream: Upstream, now: Clock, draws: seq<nat>)
    requires var live := Fetch(upstream, RequestedCategory(query), now);
             Sufficient(live) ==> UniqueTitles(live.articles)
    ensures UniqueTitles(NewsResponse(query, upstream, now, draws))
  {
    var category := RequestedCategory(query);
    FallbackUniqueTitles(category, now, draws);
    AssembledUniqueTitles(Fetch(upstream, category, now), FallbackArticles(category, now, draws));
  }
}
