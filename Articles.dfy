/**
 * The canonical article shape returned by the news endpoint, and the small
 * list vocabulary (titles, JavaScript `slice(0, n)`, subsequences) that the
 * rest of the model is stated in.
 */
module Articles {

  datatype Option<+T> = None | Some(value: T)

  /** Milliseconds since the epoch, as read from `Date.now()`. */
  type Clock = int

  /** An article id. Both id formats embed a clock reading, so ids are only
      meaningful within one response. */
  datatype ArticleId =
    | LiveId(category: string, ordinal: nat, at: Clock)   // `${category}-${index + 1}-${Date.now()}`
    | CorpusId(prefix: string, at: Clock, ordinal: nat)   // `tech-${Date.now()}-1`, ...

  /** A publication time: either the upstream's own text or an ISO rendering of a clock value. */
  datatype Timestamp = Reported(text: string) | ClockIso(ms: Clock)

  /** `url` and `imageUrl` are `None` where the JSON has no value (absent or null). */
  datatype Article = Article(
    id: ArticleId,
    title: string,
    description: string,
    source: string,
    publishedAt: Timestamp,
    url: Option<string>,
    imageUrl: Option<string>,
    category: string)

  /** The largest number of articles a response carries. */
  const MaxArticles: nat := 20

  /** The set of titles occurring in a list. */
  function TitleSet(xs: seq<Article>): set<string>
  {
    set a | a in xs :: a.title
  }

  /** No two positions of the list carry the same title. */
  predicate UniqueTitles(xs: seq<Article>)
  {
    forall i, j :: 0 <= i < j < |xs| ==> xs[i].title != xs[j].title
  }

  /** JavaScript `xs.slice(0, n)`. */
  function Take<T>(xs: seq<T>, n: nat): (r: seq<T>)
    ensures |r| <= n && |r| <= |xs|
    ensures |xs| <= n ==> r == xs
    ensures |xs| >= n ==> |r| == n
    ensures r == xs[..|r|]
  {
    if |xs| <= n then xs else xs[..n]
  }

  /** `ys` can be obtained from `xs` by deleting elements. */
  predicate IsSubsequence<T(==)>(ys: seq<T>, xs: seq<T>)
    decreases |xs|
  {
    ys == [] ||
    (xs != [] &&
     ((ys[0] == xs[0] && IsSubsequence(ys[1..], xs[1..])) || IsSubsequence(ys, xs[1..])))
  }

  lemma TitleSetCons(a: Article, xs: seq<Article>)
    ensures TitleSet([a] + xs) == {a.title} + TitleSet(xs)
  {
    var l, r := TitleSet([a] + xs), {a.title} + TitleSet(xs);
    forall t | t in r ensures t in l {
      if t != a.title {
        var b :| b in xs && b.title == t;
        assert b in [a] + xs;
      }
    }
  }

  lemma TitleSetAppend(xs: seq<Article>, ys: seq<Article>)
    ensures TitleSet(xs + ys) == TitleSet(xs) + TitleSet(ys)
  {
    var l, r := TitleSet(xs + ys), TitleSet(xs) + TitleSet(ys);
    forall t | t in r ensures t in l {
      if t in TitleSet(xs) {
        var b :| b in xs && b.title == t;
        assert b in xs + ys;
      } else {
        var b :| b in ys && b.title == t;
        assert b in xs + ys;
      }
    }
  }

  /** A subsequence carries only titles of the list it was taken from. */
  lemma {:induction false} SubsequenceMembers<T>(ys: seq<T>, xs: seq<T>)
    requires IsSubsequence(ys, xs)
    ensures forall y :: y in ys ==> y in xs
    decreases |xs|
  {
    if ys != [] {
      if ys[0] == xs[0] && IsSubsequence(ys[1..], xs[1..]) {
        SubsequenceMembers(ys[1..], xs[1..]);
        assert ys == [ys[0]] + ys[1..];
        assert xs == [xs[0]] + xs[1..];
      } else {
        SubsequenceMembers(ys, xs[1..]);
        assert xs == [xs[0]] + xs[1..];
      }
    }
  }

  /** Taking a prefix keeps titles distinct. */
  lemma TakeUnique(xs: seq<Article>, n: nat)
    requires UniqueTitles(xs)
    ensures UniqueTitles(Take(xs, n))
  {
  }

  /** Cutting `d + e` to `n >= |d|` keeps all of `d` in front. */
  lemma TakeKeepsPrefix<T>(d: seq<T>, e: seq<T>, n: nat)
    requires |d| <= n
    ensures |d| <= |Take(d + e, n)| && Take(d + e, n)[..|d|] == d
  {
  }

  /** A list carries every title of its prefix. */
  lemma PrefixTitles(d: seq<Article>, r: seq<Article>)
    requires |d| <= |r| && r[..|d|] == d
    ensures TitleSet(d) <= TitleSet(r)
  {
    forall t | t in TitleSet(d) ensures t in TitleSet(r) {
      var x :| x in d && x.title == t;
      var i :| 0 <= i < |d| && d[i] == x;
      assert r[i] == x;
    }
  }
}
