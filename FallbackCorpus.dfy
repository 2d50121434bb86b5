/**
 * The fixed fallback corpus and the selection of fallback articles for a
 * requested category.
 */
module FallbackCorpus {
  import opened Articles
  import opened Shuffling

  /** The category that draws from every list. */
  const AllKey: string := "All"

  /** The corpus keys, in the order the corpus declares them (the order `Object.values` yields). */
  const CorpusKeys: seq<string> := ["Technology", "Business", "Science", "Sports", "Entertainment"]

  /** Successive articles of one list are stamped one hour further in the past. */
  const HourMs: int := 3600000

  /** The `n`-th article (from 1) of a list: id `prefix-now-n`, stamped `n - 1`
      hours before `now`, with neither url nor image. */
  function Stamp(title: string, text: (string, string), prefix: string, n: nat, category: string,
                 now: Clock): Article
  {
    Article(CorpusId(prefix, now, n), title, text.0, text.1,
            ClockIso(now - (n - 1) * HourMs), None, None, category)
  }

  const TechnologyTitles: seq<string> := [
    "AI Breakthrough: New Model Outperforms Humans in Reasoning",
    "Quantum Computer Reaches 1000-Qubit Milestone",
    "Revolutionary Battery Tech Promises 7-Day Phone Life",
    "Major Software Update Brings AI to Millions of Devices",
    "Cybersecurity Firm Discovers Critical Vulnerability",
    "SpaceX Launches Next-Generation Internet Satellites"
  ]

  /** Description and source of the Technology article at position `i`. */
  function TechnologyText(i: nat): (string, string)
  {
    match i
    case 0 => ("Groundbreaking AI system demonstrates superior performance in complex logical tasks",
      "Tech Insider")
    case 1 => ("Scientists achieve unprecedented quantum computing power with new processor design",
      "Quantum Computing Weekly")
    case 2 => ("New solid-state batteries could transform mobile device endurance",
      "Tech Innovation News")
    case 3 => ("Latest OS release integrates artificial intelligence across all applications",
      "Digital Trends")
    case 4 => ("Major security flaw affects millions of devices worldwide, patch released",
      "Security Today")
    case _ => ("New satellite constellation promises global high-speed internet coverage",
      "Space Tech News")
  }

  /** The Technology list. */
  function TechnologyList(now: Clock): (l: seq<Article>)
    ensures |l| == 6
    ensures forall i :: 0 <= i < |l| ==> l[i].category == "Technology" && l[i].title != ""
  {
    seq(|TechnologyTitles|, i requires 0 <= i < |TechnologyTitles| =>
      Stamp(TechnologyTitles[i], TechnologyText(i), "tech", i + 1, "Technology", now))
  }

  const BusinessTitles: seq<string> := [
    "Global Markets Surge to Record Highs Amid Economic Boom",
    "Tech Giant Announces $50 Billion Strategic Acquisition",
    "Startup Valuation Soars to $10 Billion in Latest Funding",
    "Central Banks Announce Coordinated Economic Measures",
    "Renewable Energy Investments Reach Record $500 Billion"
  ]

  /** Description and source of the Business article at position `i`. */
  function BusinessText(i: nat): (string, string)
  {
    match i
    case 0 => ("Stock indices worldwide reach unprecedented levels as economy shows strong growth",
      "Financial Times")
    case 1 => ("Major technology company makes largest acquisition in industry history",
      "Wall Street Journal")
    case 2 => ("AI-powered platform attracts massive investment from venture capital firms",
      "Business Insider")
    case 3 => ("Global financial institutions take unprecedented steps to stabilize markets",
      "Economic Review")
    case _ => ("Global shift to clean energy accelerates with massive capital inflows",
      "Green Business Weekly")
  }

  /** The Business list. */
  function BusinessList(now: Clock): (l: seq<Article>)
    ensures |l| == 5
    ensures forall i :: 0 <= i < |l| ==> l[i].category == "Business" && l[i].title != ""
  {
    seq(|BusinessTitles|, i requires 0 <= i < |BusinessTitles| =>
      Stamp(BusinessTitles[i], BusinessText(i), "biz", i + 1, "Business", now))
  }

  const ScienceTitles: seq<string> := [
    "NASA Discovers Earth-Like Planet in Habitable Zone",
    "Breakthrough Cancer Treatment Shows 90% Success Rate",
    "Climate Scientists Confirm Critical Tipping Point",
    "Genetic Engineering Breakthrough Could End Disease",
    "Archaeologists Uncover Ancient Lost City"
  ]

  /** Description and source of the Science article at position `i`. */
  function ScienceText(i: nat): (string, string)
  {
    match i
    case 0 => ("New exoplanet discovery raises possibilities of extraterrestrial life",
      "Science Journal")
    case 1 => ("Revolutionary immunotherapy approach demonstrates unprecedented results",
      "Medical Research Today")
    case 2 => ("New research reveals irreversible climate changes already underway",
      "Environmental Science Review")
    case 3 => ("Scientists develop revolutionary gene-editing technique with medical applications",
      "Biotech Innovations")
    case _ => ("Major discovery reveals previously unknown civilization from 3000 BC",
      "Archaeology Today")
  }

  /** The Science list. */
  function ScienceList(now: Clock): (l: seq<Article>)
    ensures |l| == 5
    ensures forall i :: 0 <= i < |l| ==> l[i].category == "Science" && l[i].title != ""
  {
    seq(|ScienceTitles|, i requires 0 <= i < |ScienceTitles| =>
      Stamp(ScienceTitles[i], ScienceText(i), "sci", i + 1, "Science", now))
  }

  const SportsTitles: seq<string> := [
    "Underdog Team Wins Championship in Historic Upset",
    "Record-Breaking Performance Stuns Sports World",
    "International Tournament Delivers Unforgettable Final",
    "Legendary Coach Announces Retirement After 40 Years",
    "New Stadium Breaks Ground with Revolutionary Design"
  ]

  /** Description and source of the Sports article at position `i`. */
  function SportsText(i: nat): (string, string)
  {
    match i
    case 0 => ("Last-place team completes miraculous season turnaround to claim title",
      "ESPN")
    case 1 => ("Athlete sets new world record that experts called impossible",
      "Sports Illustrated")
    case 2 => ("Championship game goes into overtime with dramatic conclusion",
      "Global Sports Network")
    case 3 => ("Sports icon steps down after unprecedented championship career",
      "Athletic Review")
    case _ => ("State-of-the-art sports venue promises enhanced fan experience",
      "Stadium Innovations")
  }

  /** The Sports list. */
  function SportsList(now: Clock): (l: seq<Article>)
    ensures |l| == 5
    ensures forall i :: 0 <= i < |l| ==> l[i].category == "Sports" && l[i].title != ""
  {
    seq(|SportsTitles|, i requires 0 <= i < |SportsTitles| =>
      Stamp(SportsTitles[i], SportsText(i), "sports", i + 1, "Sports", now))
  }

  const EntertainmentTitles: seq<string> := [
    "Blockbuster Film Shatters Box Office Records",
    "Award Show Delivers Surprising Winners and Memorable Moments",
    "Streaming Service Announces Major Content Expansion",
    "Music Icon Returns with First Album in Decade",
    "Virtual Reality Concert Attracts Millions of Viewers"
  ]

  /** Description and source of the Entertainment article at position `i`. */
  function EntertainmentText(i: nat): (string, string)
  {
    match i
    case 0 => ("Latest franchise installment becomes fastest to reach $1 billion worldwide",
      "Entertainment Weekly")
    case 1 => ("Annual ceremony features unexpected victories and viral performances",
      "Hollywood Reporter")
    case 2 => ("Platform to add hundreds of new titles in global market push",
      "Digital Entertainment News")
    case 3 => ("Highly anticipated release breaks pre-order records worldwide",
      "Music Today")
    case _ => ("Groundbreaking entertainment experience sets new industry standards",
      "Tech Entertainment")
  }

  /** The Entertainment list. */
  function EntertainmentList(now: Clock): (l: seq<Article>)
    ensures |l| == 5
    ensures forall i :: 0 <= i < |l| ==> l[i].category == "Entertainment" && l[i].title != ""
  {
    seq(|EntertainmentTitles|, i requires 0 <= i < |EntertainmentTitles| =>
      Stamp(EntertainmentTitles[i], EntertainmentText(i), "ent", i + 1, "Entertainment", now))
  }
  /** The titles of a list, position by position. */
  function Titles(xs: seq<Article>): (ts: seq<string>)
    ensures |ts| == |xs|
    ensures forall i :: 0 <= i < |xs| ==> ts[i] == xs[i].title
  {
    seq(|xs|, i requires 0 <= i < |xs| => xs[i].title)
  }

  lemma TechnologyListStamps(now: Clock)
    ensures var l := TechnologyList(now);
            forall i :: 0 <= i < |l| ==>
              l[i].id == CorpusId("tech", now, i + 1) && l[i].publishedAt == ClockIso(now - i * HourMs) &&
              l[i].url.None? && l[i].imageUrl.None?
  {
  }

  lemma TechnologyListTitles(now: Clock)
    ensures Titles(TechnologyList(now)) == TechnologyTitles
  {
  }

  lemma BusinessListStamps(now: Clock)
    ensures var l := BusinessList(now);
            forall i :: 0 <= i < |l| ==>
              l[i].id == CorpusId("biz", now, i + 1) && l[i].publishedAt == ClockIso(now - i * HourMs) &&
              l[i].url.None? && l[i].imageUrl.None?
  {
  }

  lemma BusinessListTitles(now: Clock)
    ensures Titles(BusinessList(now)) == BusinessTitles
  {
  }

  lemma ScienceListStamps(now: Clock)
    ensures var l := ScienceList(now);
            forall i :: 0 <= i < |l| ==>
              l[i].id == CorpusId("sci", now, i + 1) && l[i].publishedAt == ClockIso(now - i * HourMs) &&
              l[i].url.None? && l[i].imageUrl.None?
  {
  }

  lemma ScienceListTitles(now: Clock)
    ensures Titles(ScienceList(now)) == ScienceTitles
  {
  }

  lemma SportsListStamps(now: Clock)
    ensures var l := SportsList(now);
            forall i :: 0 <= i < |l| ==>
              l[i].id == CorpusId("sports", now, i + 1) && l[i].publishedAt == ClockIso(now - i * HourMs) &&
              l[i].url.None? && l[i].imageUrl.None?
  {
  }

  lemma SportsListTitles(now: Clock)
    ensures Titles(SportsList(now)) == SportsTitles
  {
  }

  lemma EntertainmentListStamps(now: Clock)
    ensures var l := EntertainmentList(now);
            forall i :: 0 <= i < |l| ==>
              l[i].id == CorpusId("ent", now, i + 1) && l[i].publishedAt == ClockIso(now - i * HourMs) &&
              l[i].url.None? && l[i].imageUrl.None?
  {
  }

  lemma EntertainmentListTitles(now: Clock)
    ensures Titles(EntertainmentList(now)) == EntertainmentTitles
  {
  }

  /** `enhancedMockArticles[key]`: the list stored under `key`, if any. */
  function CorpusList(key: string, now: Clock): (l: Option<seq<Article>>)
    ensures l.Some? <==> key in CorpusKeys
    ensures l.Some? ==> 5 <= |l.value| <= 6
    ensures l.Some? ==> forall i :: 0 <= i < |l.value| ==> l.value[i].category == key
  {
    match key
    case "Technology" => Some(TechnologyList(now))
    case "Business" => Some(BusinessList(now))
    case "Science" => Some(ScienceList(now))
    case "Sports" => Some(SportsList(now))
    case "Entertainment" => Some(EntertainmentList(now))
    case _ => None
  }

  /** `Object.values(enhancedMockArticles).flat()`: all 26 articles, list by list. */
  function Flattened(now: Clock): (all: seq<Article>)
    ensures |all| == 26
    ensures forall a :: a in all ==> a.title != ""
  {
    TechnologyList(now) + BusinessList(now) + ScienceList(now) + SportsList(now) + EntertainmentList(now)
  }

  /** `getEnhancedFallbackArticles`: for `All`, the shuffled corpus cut to 20
      (the shuffle's random outcome is `draws`); for a corpus key, its list;
      for anything else, the Technology list. */
  function FallbackArticles(category: string, now: Clock, draws: seq<nat>): (r: seq<Article>)
    ensures 0 < |r| <= MaxArticles
    ensures category == AllKey ==> |r| == MaxArticles
  {
    if category == AllKey then Take(Shuffle(Flattened(now), draws), MaxArticles)
    else match CorpusList(category, now)
      case Some(l) => l
      case None => TechnologyList(now)
  }

  /** No two positions of a list of strings hold the same string. */
  predicate Pairwise(ts: seq<string>)
  {
    forall i, j :: 0 <= i < j < |ts| ==> ts[i] != ts[j]
  }

  /** No string occurs in both lists. */
  predicate Apart(ts: seq<string>, us: seq<string>)
  {
    forall i, j :: 0 <= i < |ts| && 0 <= j < |us| ==> ts[i] != us[j]
  }

  lemma PairwiseConcat(ts: seq<string>, us: seq<string>)
    requires Pairwise(ts) && Pairwise(us) && Apart(ts, us)
    ensures Pairwise(ts + us)
  {
    var c := ts + us;
    forall i, j | 0 <= i < j < |c| ensures c[i] != c[j] {
      if j < |ts| {
        assert c[i] == ts[i] && c[j] == ts[j];
      } else if i < |ts| {
        assert c[i] == ts[i] && c[j] == us[j - |ts|];
      } else {
        assert c[i] == us[i - |ts|] && c[j] == us[j - |ts|];
      }
    }
  }

  lemma ApartConcat(ts: seq<string>, us: seq<string>, vs: seq<string>)
    requires Apart(ts, vs) && Apart(us, vs)
    ensures Apart(ts + us, vs)
  {
    var c := ts + us;
    forall i, j | 0 <= i < |c| && 0 <= j < |vs| ensures c[i] != vs[j] {
      if i < |ts| {
        assert c[i] == ts[i];
      } else {
        assert c[i] == us[i - |ts|];
      }
    }
  }

  lemma TitlesWithinLists()
    ensures Pairwise(TechnologyTitles) && Pairwise(BusinessTitles) && Pairwise(ScienceTitles)
    ensures Pairwise(SportsTitles) && Pairwise(EntertainmentTitles)
  {
  }

  lemma TitlesAcrossLists1()
    ensures Apart(TechnologyTitles, BusinessTitles) && Apart(TechnologyTitles, ScienceTitles)
    ensures Apart(BusinessTitles, ScienceTitles)
  {
  }

  lemma TitlesAcrossLists2()
    ensures Apart(TechnologyTitles, SportsTitles) && Apart(BusinessTitles, SportsTitles)
    ensures Apart(ScienceTitles, SportsTitles)
  {
  }

  lemma TitlesAcrossLists3()
    ensures Apart(TechnologyTitles, EntertainmentTitles) && Apart(BusinessTitles, EntertainmentTitles)
    ensures Apart(ScienceTitles, EntertainmentTitles) && Apart(SportsTitles, EntertainmentTitles)
  {
  }

  /** The 26 corpus titles, in `Object.values` order, are pairwise distinct. */
  lemma CorpusTitlesDistinct()
    ensures Pairwise(TechnologyTitles + BusinessTitles + ScienceTitles + SportsTitles + EntertainmentTitles)
  {
    TitlesWithinLists();
    TitlesAcrossLists1();
    TitlesAcrossLists2();
    TitlesAcrossLists3();
    var t, b, s, p, e := TechnologyTitles, BusinessTitles, ScienceTitles, SportsTitles, EntertainmentTitles;
    PairwiseConcat(t, b);
    ApartConcat(t, b, s);
    PairwiseConcat(t + b, s);
    ApartConcat(t, b, p);
    ApartConcat(t + b, s, p);
    PairwiseConcat(t + b + s, p);
    ApartConcat(t, b, e);
    ApartConcat(t + b, s, e);
    ApartConcat(t + b + s, p, e);
    PairwiseConcat(t + b + s + p, e);
  }

  lemma TitlesAppend(xs: seq<Article>, ys: seq<Article>)
    ensures Titles(xs + ys) == Titles(xs) + Titles(ys)
  {
  }

  /** No two articles of the corpus share a title. */
  lemma CorpusUniqueTitles(now: Clock)
    ensures UniqueTitles(Flattened(now))
  {
    var t, b, s, p, e := TechnologyList(now), BusinessList(now), ScienceList(now), SportsList(now), EntertainmentList(now);
    TitlesAppend(t, b);
    TitlesAppend(t + b, s);
    TitlesAppend(t + b + s, p);
    TitlesAppend(t + b + s + p, e);
    TechnologyListTitles(now);
    BusinessListTitles(now);
    ScienceListTitles(now);
    SportsListTitles(now);
    EntertainmentListTitles(now);
    CorpusTitlesDistinct();
    PairwiseUnique(Flattened(now));
  }

  lemma PairwiseUnique(xs: seq<Article>)
    requires Pairwise(Titles(xs))
    ensures UniqueTitles(xs)
  {
  }

  /** No list of the corpus repeats a title. */
  lemma ListsUniqueTitles(now: Clock)
    ensures UniqueTitles(TechnologyList(now)) && UniqueTitles(BusinessList(now))
    ensures UniqueTitles(ScienceList(now)) && UniqueTitles(SportsList(now))
    ensures UniqueTitles(EntertainmentList(now))
  {
    TitlesWithinLists();
    TechnologyListTitles(now);
    PairwiseUnique(TechnologyList(now));
    BusinessListTitles(now);
    PairwiseUnique(BusinessList(now));
    ScienceListTitles(now);
    PairwiseUnique(ScienceList(now));
    SportsListTitles(now);
    PairwiseUnique(SportsList(now));
    EntertainmentListTitles(now);
    PairwiseUnique(EntertainmentList(now));
  }

  /** A corpus key selects its own list, every article of which carries that key. */
  lemma FallbackForKnownKey(category: string, now: Clock, draws: seq<nat>)
    requires category in CorpusKeys
    ensures CorpusList(category, now).Some?
    ensures FallbackArticles(category, now, draws) == CorpusList(category, now).value
    ensures forall a :: a in FallbackArticles(category, now, draws) ==> a.category == category
  {
  }

  /** Any other key except `All` falls back to the Technology list. */
  lemma FallbackForUnknownKey(category: string, now: Clock, draws: seq<nat>)
    requires category != AllKey && category !in CorpusKeys
    ensures FallbackArticles(category, now, draws) == TechnologyList(now)
  {
  }

  /** For `All`: 20 articles drawn from the corpus, none of them twice, in an
      order fixed by the draws. */
  lemma FallbackForAll(now: Clock, draws: seq<nat>)
    ensures var r := FallbackArticles(AllKey, now, draws);
            |r| == MaxArticles &&
            r == Shuffle(Flattened(now), draws)[..MaxArticles] &&
            multiset(r) <= multiset(Flattened(now)) &&
            UniqueTitles(r)
  {
    CorpusUniqueTitles(now);
    ShuffledCut(Flattened(now), draws);
  }

  /** Cutting a shuffle of a list without repeated titles to 20 gives a
      sub-multiset without repeated titles. */
  lemma ShuffledCut(all: seq<Article>, draws: seq<nat>)
    requires UniqueTitles(all)
    ensures var r := Take(Shuffle(all, draws), MaxArticles);
            multiset(r) <= multiset(all) && UniqueTitles(r)
  {
    var s := Shuffle(all, draws);
    var r := Take(s, MaxArticles);
    ShufflePermutes(all, draws);
    assert s == r + s[|r|..];
    ShuffleKeepsKeysDistinct(all, draws, (a: Article) => a.title);
  }

  /** Conversely, every ordering of the corpus is the outcome of some draws:
      the model admits any 20 of the 26 articles, in any order. */
  lemma FallbackAllReachesEveryOrder(now: Clock, ys: seq<Article>) returns (draws: seq<nat>)
    requires multiset(ys) == multiset(Flattened(now))
    ensures FallbackArticles(AllKey, now, draws) == Take(ys, MaxArticles)
  {
    draws := ShuffleReachesEveryOrder(Flattened(now), ys);
  }

  /** Every fallback article has a non-empty title. */
  lemma FallbackTitlesNonEmpty(category: string, now: Clock, draws: seq<nat>)
    ensures forall a :: a in FallbackArticles(category, now, draws) ==> a.title != ""
  {
    var r := FallbackArticles(category, now, draws);
    if category == AllKey {
      var all := Flattened(now);
      ShuffleMembers(all, draws);
      forall a | a in r ensures a.title != "" {
        var i :| 0 <= i < |r| && r[i] == a;
        assert a in all;
      }
    }
  }

  /** Whatever the key, the fallback never repeats a title. */
  lemma FallbackUniqueTitles(category: string, now: Clock, draws: seq<nat>)
    ensures UniqueTitles(FallbackArticles(category, now, draws))
  {
    if category == AllKey {
      FallbackForAll(now, draws);
    } else {
      ListsUniqueTitles(now);
    }
  }
}
