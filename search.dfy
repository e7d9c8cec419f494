/**
 * The two search boxes: the term is lower-cased and trimmed, and the list is
 * filtered, in order, by a case-insensitive substring test.
 */
module Search {
  import opened Text
  import opened Catalog

  /** `xs.filter(p)`: the elements satisfying `p`, in their original order. */
  function Filter<T>(xs: seq<T>, p: T -> bool): (r: seq<T>)
    ensures |r| <= |xs|
  {
    if xs == [] then [] else (if p(xs[0]) then [xs[0]] else []) + Filter(xs[1..], p)
  }

  /** `a` is `b` with some elements left out, the rest kept in order. */
  predicate IsSubsequence<T(==)>(a: seq<T>, b: seq<T>)
    decreases |b|
  {
    if a == [] then true
    else if b == [] then false
    else (a[0] == b[0] && IsSubsequence(a[1..], b[1..])) || IsSubsequence(a, b[1..])
  }

  lemma {:induction false} SubsequenceLength<T>(a: seq<T>, b: seq<T>)
    requires IsSubsequence(a, b)
    ensures |a| <= |b|
    decreases |b|
  {
    if a != [] {
      if a[0] == b[0] && IsSubsequence(a[1..], b[1..]) {
        SubsequenceLength(a[1..], b[1..]);
      } else {
        SubsequenceLength(a, b[1..]);
      }
    }
  }

  lemma {:induction false} SubsequenceReflexive<T>(a: seq<T>)
    ensures IsSubsequence(a, a)
  {
    if a != [] {
      SubsequenceReflexive(a[1..]);
    }
  }

  /** Any single element, on its own, is a subsequence of the list. */
  lemma {:induction false} SingletonSubsequence<T>(xs: seq<T>, i: nat)
    requires i < |xs|
    ensures IsSubsequence([xs[i]], xs)
  {
    if i > 0 {
      SingletonSubsequence(xs[1..], i - 1);
    }
  }

  /**
   * `Filter` keeps order, keeps exactly the elements that satisfy `p`, and
   * keeps every copy of them.
   */
  lemma {:induction false} FilterSpec<T>(xs: seq<T>, p: T -> bool)
    ensures IsSubsequence(Filter(xs, p), xs)
    ensures forall x :: x in Filter(xs, p) <==> x in xs && p(x)
    ensures forall x :: multiset(Filter(xs, p))[x] == (if p(x) then multiset(xs)[x] else 0)
  {
    if xs != [] {
      FilterSpec(xs[1..], p);
      assert xs == [xs[0]] + xs[1..];
      var r := Filter(xs[1..], p);
      if !p(xs[0]) {
        assert Filter(xs, p) == r;
      }
    }
  }

  /** When every element satisfies `p`, nothing is filtered out. */
  lemma {:induction false} FilterKeepsAll<T>(xs: seq<T>, p: T -> bool)
    requires forall i :: 0 <= i < |xs| ==> p(xs[i])
    ensures Filter(xs, p) == xs
  {
    if xs != [] {
      FilterKeepsAll(xs[1..], p);
    }
  }

  /** Filtering twice by the same test is filtering once. */
  lemma {:induction false} FilterIdempotent<T>(xs: seq<T>, p: T -> bool)
    ensures Filter(Filter(xs, p), p) == Filter(xs, p)
  {
    if xs != [] {
      FilterIdempotent(xs[1..], p);
      var f := Filter(xs[1..], p);
      if p(xs[0]) {
        assert Filter(xs, p) == [xs[0]] + f;
        assert ([xs[0]] + f)[1..] == f;
      } else {
        assert Filter(xs, p) == f;
      }
    }
  }

  /** `value.toLowerCase().trim()`: the term both searches look for. */
  function Normalize(query: string): (r: string)
  {
    Trim(Lower(query))
  }

  /** The normalised term is empty exactly when the query is all white space. */
  lemma NormalizeBlank(query: string)
    ensures Normalize(query) == [] <==> AllSpace(query)
  {
    LowerKeepsSpace(query);
    TrimSpec(Lower(query));
  }

  /** A show matches when its lower-cased name contains the term; nothing else is looked at. */
  predicate ShowMatches(show: Show, term: string)
  {
    Contains(Lower(show.name), term)
  }

  /**
   * An episode matches when its lower-cased name contains the term, or when
   * it has a summary whose lower-cased text contains it; a missing summary
   * never matches.
   */
  predicate EpisodeMatches(episode: Episode, term: string)
  {
    || Contains(Lower(episode.name), term)
    || (episode.summary.Some? && Contains(Lower(episode.summary.value), term))
  }

  function ShowTest(term: string): Show -> bool
  {
    show => ShowMatches(show, term)
  }

  function EpisodeTest(term: string): Episode -> bool
  {
    episode => EpisodeMatches(episode, term)
  }

  /** The show search. */
  function FilterShows(shows: seq<Show>, query: string): (r: seq<Show>)
  {
    Filter(shows, ShowTest(Normalize(query)))
  }

  /** The episode search. */
  function FilterEpisodes(episodes: seq<Episode>, query: string): (r: seq<Episode>)
  {
    Filter(episodes, EpisodeTest(Normalize(query)))
  }

  /**
   * The show search keeps, in order and with every copy, exactly the shows
   * whose lower-cased name contains the normalised term.
   */
  lemma FilterShowsSpec(shows: seq<Show>, query: string)
    ensures IsSubsequence(FilterShows(shows, query), shows)
    ensures forall s :: s in FilterShows(shows, query) <==> s in shows && ShowMatches(s, Normalize(query))
    ensures forall s :: multiset(FilterShows(shows, query))[s] == (if ShowMatches(s, Normalize(query)) then multiset(shows)[s] else 0)
  {
    FilterSpec(shows, ShowTest(Normalize(query)));
  }

  /** A query that is empty or all white space returns every show. */
  lemma BlankQueryKeepsShows(shows: seq<Show>, query: string)
    requires AllSpace(query)
    ensures FilterShows(shows, query) == shows
  {
    NormalizeBlank(query);
    forall i | 0 <= i < |shows| ensures ShowTest(Normalize(query))(shows[i]) {
      ContainsEmpty(Lower(shows[i].name));
    }
    FilterKeepsAll(shows, ShowTest(Normalize(query)));
  }

  /** Searching the result of a show search again, with the same query, changes nothing. */
  lemma FilterShowsIdempotent(shows: seq<Show>, query: string)
    ensures FilterShows(FilterShows(shows, query), query) == FilterShows(shows, query)
  {
    FilterIdempotent(shows, ShowTest(Normalize(query)));
  }

  /**
   * The episode search keeps, in order and with every copy, exactly the
   * episodes whose name, or whose summary when present, contains the term.
   */
  lemma FilterEpisodesSpec(episodes: seq<Episode>, query: string)
    ensures IsSubsequence(FilterEpisodes(episodes, query), episodes)
    ensures forall e :: e in FilterEpisodes(episodes, query) <==> e in episodes && EpisodeMatches(e, Normalize(query))
    ensures forall e :: multiset(FilterEpisodes(episodes, query))[e] == (if EpisodeMatches(e, Normalize(query)) then multiset(episodes)[e] else 0)
  {
    FilterSpec(episodes, EpisodeTest(Normalize(query)));
  }

  /** A query that is empty or all white space returns every episode. */
  lemma BlankQueryKeepsEpisodes(episodes: seq<Episode>, query: string)
    requires AllSpace(query)
    ensures FilterEpisodes(episodes, query) == episodes
  {
    NormalizeBlank(query);
    forall i | 0 <= i < |episodes| ensures EpisodeTest(Normalize(query))(episodes[i]) {
      ContainsEmpty(Lower(episodes[i].name));
    }
    FilterKeepsAll(episodes, EpisodeTest(Normalize(query)));
  }

  /** Searching the result of an episode search again, with the same query, changes nothing. */
  lemma FilterEpisodesIdempotent(episodes: seq<Episode>, query: string)
    ensures FilterEpisodes(FilterEpisodes(episodes, query), query) == FilterEpisodes(episodes, query)
  {
    FilterIdempotent(episodes, EpisodeTest(Normalize(query)));
  }
}
