/**
 * Removal of duplicate titles from the mixed live + fallback list. The
 * handler keeps an article when its index is the index `findIndex` returns
 * for its title; this module models that filter as written, proves it equal
 * to a one-pass "skip titles already seen" definition, and derives the
 * properties the handler relies on from the latter.
 */
module TitleDedup {
  import opened Articles

  /** `xs.findIndex(a => a.title === t)`: the first position titled `t`, or -1. */
  function FindIndex(xs: seq<Article>, t: string): (r: int)
    ensures -1 <= r < |xs|
    ensures r >= 0 ==> xs[r].title == t && forall j :: 0 <= j < r ==> xs[j].title != t
    ensures r == -1 ==> forall j :: 0 <= j < |xs| ==> xs[j].title != t
  {
    if xs == [] then -1
    else if xs[0].title == t then 0
    else
      var k := FindIndex(xs[1..], t);
      if k == -1 then -1 else k + 1
  }

  /** `self.filter((article, index, self) => index === self.findIndex(...))`
      restricted to the first `n` positions of `self`. */
  function FirstOccurrences(self: seq<Article>, n: nat): seq<Article>
    requires n <= |self|
  {
    if n == 0 then []
    else
      FirstOccurrences(self, n - 1) +
      (if FindIndex(self, self[n - 1].title) == n - 1 then [self[n - 1]] else [])
  }

  /** The handler's de-duplication by title. */
  function DedupByTitle(xs: seq<Article>): seq<Article>
  {
    FirstOccurrences(xs, |xs|)
  }

  /** Reference definition: walk the list once, skipping titles in `seen`. */
  function Distinct(xs: seq<Article>, seen: set<string>): seq<Article>
  {
    if xs == [] then []
    else if xs[0].title in seen then Distinct(xs[1..], seen)
    else [xs[0]] + Distinct(xs[1..], seen + {xs[0].title})
  }

  /** Processing a concatenation: the second part sees the first part's titles. */
  lemma {:induction false} DistinctAppend(xs: seq<Article>, ys: seq<Article>, seen: set<string>)
    ensures Distinct(xs + ys, seen) == Distinct(xs, seen) + Distinct(ys, seen + TitleSet(xs))
    decreases |xs|
  {
    if xs == [] {
      assert xs + ys == ys;
      assert TitleSet(xs) == {};
      assert seen + TitleSet(xs) == seen;
    } else {
      var x := xs[0];
      assert (xs + ys)[0] == x && (xs + ys)[1..] == xs[1..] + ys;
      assert xs == [x] + xs[1..];
      TitleSetCons(x, xs[1..]);
      if x.title in seen {
        DistinctAppend(xs[1..], ys, seen);
        assert seen + TitleSet(xs[1..]) == seen + TitleSet(xs);
      } else {
        DistinctAppend(xs[1..], ys, seen + {x.title});
        assert seen + {x.title} + TitleSet(xs[1..]) == seen + TitleSet(xs);
      }
    }
  }

  /** An element at position `i` is the first of its title exactly when no
      earlier element carries that title. */
  lemma FindIndexIsFirst(xs: seq<Article>, i: nat)
    requires i < |xs|
    ensures FindIndex(xs, xs[i].title) == i <==> xs[i].title !in TitleSet(xs[..i])
  {
    var t := xs[i].title;
    if t in TitleSet(xs[..i]) {
      var a :| a in xs[..i] && a.title == t;
      var j :| 0 <= j < i && xs[..i][j] == a;
      assert xs[j].title == t;
    } else {
      forall j | 0 <= j < i ensures xs[j].title != t {
        assert xs[..i][j] in xs[..i];
      }
    }
  }

  /** The walk over a list with one more article at the end. */
  lemma DistinctSnoc(p: seq<Article>, x: Article)
    ensures Distinct(p + [x], {}) == Distinct(p, {}) + (if x.title in TitleSet(p) then [] else [x])
  {
    DistinctAppend(p, [x], {});
    assert {} + TitleSet(p) == TitleSet(p);
    assert [x][1..] == [];
  }

  /** One more step of the filter keeps the new article exactly when its title is new. */
  lemma FirstOccurrencesStep(self: seq<Article>, n: nat)
    requires 0 < n <= |self|
    ensures FirstOccurrences(self, n) ==
            FirstOccurrences(self, n - 1) + (if self[n - 1].title in TitleSet(self[..n - 1]) then [] else [self[n - 1]])
  {
    FindIndexIsFirst(self, n - 1);
  }

  /** The filter as written computes the reference definition. */
  lemma {:induction false} FirstOccurrencesIsDistinct(self: seq<Article>, n: nat)
    requires n <= |self|
    ensures FirstOccurrences(self, n) == Distinct(self[..n], {})
  {
    if n == 0 {
      assert self[..n] == [];
    } else {
      var p, x := self[..n - 1], self[n - 1];
      var e := if x.title in TitleSet(p) then [] else [x];
      calc {
        FirstOccurrences(self, n);
      == { FirstOccurrencesStep(self, n); }
        FirstOccurrences(self, n - 1) + e;
      == { FirstOccurrencesIsDistinct(self, n - 1); }
        Distinct(p, {}) + e;
      == { DistinctSnoc(p, x); }
        Distinct(p + [x], {});
      == { assert p + [x] == self[..n]; }
        Distinct(self[..n], {});
      }
    }
  }

  /** `DedupByTitle` is the one-pass "skip titles already seen" walk. */
  lemma DedupIsDistinct(xs: seq<Article>)
    ensures DedupByTitle(xs) == Distinct(xs, {})
  {
    FirstOccurrencesIsDistinct(xs, |xs|);
    assert xs[..|xs|] == xs;
  }

  /** The walk keeps exactly the titles of the input that were not seen before. */
  lemma {:induction false} DistinctTitles(xs: seq<Article>, seen: set<string>)
    ensures TitleSet(Distinct(xs, seen)) == TitleSet(xs) - seen
    decreases |xs|
  {
    if xs != [] {
      var x, rest := xs[0], xs[1..];
      assert xs == [x] + rest;
      TitleSetCons(x, rest);
      if x.title in seen {
        DistinctTitles(rest, seen);
      } else {
        DistinctTitles(rest, seen + {x.title});
        TitleSetCons(x, Distinct(rest, seen + {x.title}));
      }
    }
  }

  /** The walk never keeps two articles with one title, nor a title already seen. */
  lemma {:induction false} DistinctUnique(xs: seq<Article>, seen: set<string>)
    ensures UniqueTitles(Distinct(xs, seen))
    ensures TitleSet(Distinct(xs, seen)) !! seen
    decreases |xs|
  {
    DistinctTitles(xs, seen);
    if xs != [] {
      var x, rest := xs[0], xs[1..];
      if x.title in seen {
        DistinctUnique(rest, seen);
      } else {
        var r' := Distinct(rest, seen + {x.title});
        DistinctUnique(rest, seen + {x.title});
        DistinctTitles(rest, seen + {x.title});
        var r := [x] + r';
        forall i, j | 0 <= i < j < |r| ensures r[i].title != r[j].title {
          if i == 0 {
            assert r[j] == r'[j - 1] && r'[j - 1] in r';
          } else {
            assert r[i] == r'[i - 1] && r[j] == r'[j - 1];
          }
        }
      }
    }
  }

  /** The walk only deletes: its result is a subsequence of its input. */
  lemma {:induction false} DistinctSubsequence(xs: seq<Article>, seen: set<string>)
    ensures IsSubsequence(Distinct(xs, seen), xs)
    ensures |Distinct(xs, seen)| <= |xs|
    decreases |xs|
  {
    if xs != [] {
      var x, rest := xs[0], xs[1..];
      if x.title in seen {
        DistinctSubsequence(rest, seen);
      } else {
        DistinctSubsequence(rest, seen + {x.title});
        var r := [x] + Distinct(rest, seen + {x.title});
        assert r[0] == x && r[1..] == Distinct(rest, seen + {x.title});
      }
    }
  }

  /** A list whose titles are distinct and unseen passes the walk unchanged. */
  lemma {:induction false} DistinctOfUnique(xs: seq<Article>, seen: set<string>)
    requires UniqueTitles(xs)
    requires TitleSet(xs) !! seen
    ensures Distinct(xs, seen) == xs
    decreases |xs|
  {
    if xs != [] {
      var x, rest := xs[0], xs[1..];
      assert xs == [x] + rest;
      TitleSetCons(x, rest);
      assert x.title !in TitleSet(rest) by {
        forall j | 0 <= j < |rest| ensures rest[j].title != x.title {
          assert rest[j] == xs[j + 1];
        }
      }
      assert UniqueTitles(rest) by {
        forall i, j | 0 <= i < j < |rest| ensures rest[i].title != rest[j].title {
          assert rest[i] == xs[i + 1] && rest[j] == xs[j + 1];
        }
      }
      DistinctOfUnique(rest, seen + {x.title});
    }
  }

  /** The de-duplicated list has pairwise-distinct titles, loses no title,
      and is a subsequence of its input. */
  lemma DedupProperties(xs: seq<Article>)
    ensures var r := DedupByTitle(xs);
            UniqueTitles(r) && TitleSet(r) == TitleSet(xs) && IsSubsequence(r, xs) && |r| <= |xs|
  {
    DedupIsDistinct(xs);
    DistinctTitles(xs, {});
    DistinctUnique(xs, {});
    DistinctSubsequence(xs, {});
    assert TitleSet(xs) - {} == TitleSet(xs);
  }

  /** Each article kept is the first article of the input with that title. */
  lemma {:induction false} FirstOccurrencesKeepFirst(self: seq<Article>, n: nat)
    requires n <= |self|
    ensures forall a :: a in FirstOccurrences(self, n) ==>
              0 <= FindIndex(self, a.title) < n && self[FindIndex(self, a.title)] == a
  {
    if n > 0 {
      FirstOccurrencesKeepFirst(self, n - 1);
    }
  }

  /** Each article kept by `DedupByTitle` is the first input article with its title. */
  lemma DedupKeepsFirst(xs: seq<Article>)
    ensures forall a :: a in DedupByTitle(xs) ==>
              0 <= FindIndex(xs, a.title) && xs[FindIndex(xs, a.title)] == a
  {
    FirstOccurrencesKeepFirst(xs, |xs|);
  }

  /** De-duplicating twice is de-duplicating once. */
  lemma DedupIdempotent(xs: seq<Article>)
    ensures DedupByTitle(DedupByTitle(xs)) == DedupByTitle(xs)
  {
    var r := DedupByTitle(xs);
    DedupProperties(xs);
    DedupIsDistinct(r);
    DistinctOfUnique(r, {});
    assert TitleSet(r) !! {};
  }

  /** De-duplicating `xs + ys` keeps the de-duplicated `xs` first, then the
      articles of `ys` whose titles `xs` does not already carry. */
  lemma DedupAppend(xs: seq<Article>, ys: seq<Article>)
    ensures DedupByTitle(xs + ys) == DedupByTitle(xs) + Distinct(ys, TitleSet(xs))
  {
    DedupIsDistinct(xs + ys);
    DedupIsDistinct(xs);
    DistinctAppend(xs, ys, {});
    assert {} + TitleSet(xs) == TitleSet(xs);
  }
}
