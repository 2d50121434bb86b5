/**
 * Turning the upstream headlines payload into canonical articles: drop the
 * entries without a usable title, then fill in placeholders for the
 * missing fields and stamp the requested logical category.
 */
module Normalisation {
  import opened Articles

  /** The upstream `source` object, whose `name` may be missing. */
  datatype SourceRef = SourceRef(name: Option<string>)

  /** One entry of the upstream `articles` array. A field that is absent or
      null is `None`; JavaScript treats `Some("")` as missing too. */
  datatype RawEntry = RawEntry(
    title: Option<string>,
    description: Option<string>,
    source: Option<SourceRef>,
    publishedAt: Option<string>,
    url: Option<string>,
    urlToImage: Option<string>)

  const RemovedTitle: string := "[Removed]"
  const NoDescription: string := "No description available"
  const UnknownSource: string := "Unknown source"
  const NoUrl: string := "#"

  /** JavaScript truthiness of an optional string. */
  predicate Truthy(o: Option<string>)
  {
    o.Some? && o.value != ""
  }

  /** `o || fallback` on an optional string. */
  function OrElse(o: Option<string>, fallback: string): string
  {
    if Truthy(o) then o.value else fallback
  }

  /** `article.source?.name` */
  function SourceName(e: RawEntry): Option<string>
  {
    match e.source
    case None => None
    case Some(s) => s.name
  }

  /** The filter predicate: `article.title && article.title !== '[Removed]'`. */
  predicate Eligible(e: RawEntry)
  {
    Truthy(e.title) && e.title.value != RemovedTitle
  }

  /** The surviving entries, in their upstream order. */
  function Eligibles(entries: seq<RawEntry>): (kept: seq<RawEntry>)
    ensures forall i :: 0 <= i < |kept| ==> Eligible(kept[i])
    ensures forall e :: e in entries && Eligible(e) ==> e in kept
    ensures IsSubsequence(kept, entries)
    ensures |kept| <= |entries|
  {
    if entries == [] then []
    else
      var rest := Eligibles(entries[1..]);
      assert forall e :: e in entries ==> e == entries[0] || e in entries[1..];
      if Eligible(entries[0]) then [entries[0]] + rest else rest
  }

  /** The filter keeps every usable entry as many times as it occurs, and
      nothing else. */
  lemma {:induction false} EligiblesCounts(entries: seq<RawEntry>)
    ensures forall x :: multiset(Eligibles(entries))[x] == if Eligible(x) then multiset(entries)[x] else 0
  {
    if entries != [] {
      EligiblesCounts(entries[1..]);
      assert entries == [entries[0]] + entries[1..];
    }
  }

  /** The canonical article made from the surviving entry at position `index`. */
  function ToArticle(e: RawEntry, category: string, index: nat, now: Clock): Article
    requires Eligible(e)
  {
    Article(
      id := LiveId(category, index + 1, now),
      title := e.title.value,
      description := OrElse(e.description, NoDescription),
      source := OrElse(SourceName(e), UnknownSource),
      publishedAt := if Truthy(e.publishedAt) then Reported(e.publishedAt.value) else ClockIso(now),
      url := Some(OrElse(e.url, NoUrl)),
      imageUrl := if Truthy(e.urlToImage) then Some(e.urlToImage.value) else None,
      category := category)
  }

  /** The `filter(...).map(...)` chain over the upstream payload. */
  function Normalise(entries: seq<RawEntry>, category: string, now: Clock): (live: seq<Article>)
    ensures |live| <= |entries|
    ensures forall i :: 0 <= i < |live| ==>
              live[i].title != "" && live[i].title != RemovedTitle && live[i].category == category
  {
    var kept := Eligibles(entries);
    seq(|kept|, i requires 0 <= i < |kept| => ToArticle(kept[i], category, i, now))
  }

  /** Each normalised article comes from the surviving entry at the same
      position, with the documented placeholders for the missing fields. */
  lemma NormalisedFields(entries: seq<RawEntry>, category: string, now: Clock, i: nat)
    requires i < |Normalise(entries, category, now)|
    ensures var kept := Eligibles(entries);
            var a := Normalise(entries, category, now)[i];
            |kept| == |Normalise(entries, category, now)| &&
            a.title == kept[i].title.value &&
            a.category == category &&
            a.id == LiveId(category, i + 1, now) &&
            (Truthy(kept[i].description) ==> a.description == kept[i].description.value) &&
            (!Truthy(kept[i].description) ==> a.description == NoDescription) &&
            (Truthy(SourceName(kept[i])) ==> a.source == SourceName(kept[i]).value) &&
            (!Truthy(SourceName(kept[i])) ==> a.source == UnknownSource) &&
            (Truthy(kept[i].url) ==> a.url == kept[i].url) &&
            (!Truthy(kept[i].url) ==> a.url == Some(NoUrl)) &&
            (Truthy(kept[i].urlToImage) ==> a.imageUrl == kept[i].urlToImage) &&
            (!Truthy(kept[i].urlToImage) ==> a.imageUrl == None) &&
            (Truthy(kept[i].publishedAt) ==> a.publishedAt == Reported(kept[i].publishedAt.value)) &&
            (!Truthy(kept[i].publishedAt) ==> a.publishedAt == ClockIso(now))
  {
  }

  /** The titles of the live list are exactly the usable upstream titles:
      nothing usable is lost and nothing else is let through. */
  lemma {:induction false} NormalisedTitles(entries: seq<RawEntry>, category: string, now: Clock)
    ensures forall t :: t in TitleSet(Normalise(entries, category, now)) <==>
              exists e :: e in entries && Eligible(e) && e.title.value == t
  {
    var live, kept := Normalise(entries, category, now), Eligibles(entries);
    forall t ensures t in TitleSet(live) <==> exists e :: e in entries && Eligible(e) && e.title.value == t {
      if t in TitleSet(live) {
        var a :| a in live && a.title == t;
        var i :| 0 <= i < |live| && live[i] == a;
        SubsequenceMembers(kept, entries);
        assert kept[i] in kept;
      }
      if exists e :: e in entries && Eligible(e) && e.title.value == t {
        var e :| e in entries && Eligible(e) && e.title.value == t;
        var i :| 0 <= i < |kept| && kept[i] == e;
        assert live[i] in live;
      }
    }
  }

  /** Live ids are pairwise distinct within one response. */
  lemma LiveIdsDistinct(entries: seq<RawEntry>, category: string, now: Clock)
    ensures var live := Normalise(entries, category, now);
            forall i, j :: 0 <= i < j < |live| ==> live[i].id != live[j].id
  {
  }

  /** A payload none of whose entries survives the filter normalises to nothing. */
  lemma {:induction false} NoneEligible(entries: seq<RawEntry>, category: string, now: Clock)
    requires forall i :: 0 <= i < |entries| ==> !Eligible(entries[i])
    ensures Eligibles(entries) == [] && Normalise(entries, category, now) == []
  {
    if entries != [] {
      NoneEligible(entries[1..], category, now);
    }
  }

  /** A list whose entries all survive the filter is kept whole. */
  lemma {:induction false} EligiblesOfEligible(entries: seq<RawEntry>)
    requires forall i :: 0 <= i < |entries| ==> Eligible(entries[i])
    ensures Eligibles(entries) == entries
  {
    if entries != [] {
      EligiblesOfEligible(entries[1..]);
    }
  }
}
