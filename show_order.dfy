/**
 * The order `loadShows` puts the catalogue in before caching it: by
 * lower-cased name, with equal names kept in their original order (as
 * `Array.prototype.sort` does). Names are compared character code by
 * character code; the locale's collation is not modelled.
 */
module ShowOrder {
  import opened Text
  import opened Catalog

  /** Lexicographic order on strings by character code. */
  predicate LexLeq(a: string, b: string)
    decreases |a|
  {
    a == [] || (b != [] && (a[0] < b[0] || (a[0] == b[0] && LexLeq(a[1..], b[1..]))))
  }

  lemma {:induction false} LexTotal(a: string, b: string)
    ensures LexLeq(a, b) || LexLeq(b, a)
    decreases |a|
  {
    if a != [] && b != [] && a[0] == b[0] {
      LexTotal(a[1..], b[1..]);
    }
  }

  lemma {:induction false} LexTransitive(a: string, b: string, c: string)
    requires LexLeq(a, b) && LexLeq(b, c)
    ensures LexLeq(a, c)
    decreases |a|
  {
    if a != [] && a[0] == b[0] && b[0] == c[0] {
      LexTransitive(a[1..], b[1..], c[1..]);
    }
  }

  /** The comparison the sort uses: lower-cased names. */
  predicate NameLeq(x: Show, y: Show)
  {
    LexLeq(Lower(x.name), Lower(y.name))
  }

  predicate SortedByName(s: seq<Show>)
  {
    forall i, j :: 0 <= i < j < |s| ==> NameLeq(s[i], s[j])
  }

  /** Puts `x` into the sorted list `s` after every show whose name is not greater. */
  function Insert(x: Show, s: seq<Show>): seq<Show>
  {
    if s == [] then [x]
    else if !NameLeq(s[0], x) then [x] + s
    else [s[0]] + Insert(x, s[1..])
  }

  /** Insertion sort by name. */
  function SortByName(s: seq<Show>): (r: seq<Show>)
  {
    if s == [] then [] else Insert(s[|s| - 1], SortByName(s[..|s| - 1]))
  }

  lemma {:induction false} InsertSpec(x: Show, s: seq<Show>)
    requires SortedByName(s)
    ensures SortedByName(Insert(x, s))
    ensures multiset(Insert(x, s)) == multiset(s) + multiset{x}
  {
    if s == [] {
    } else if !NameLeq(s[0], x) {
      LexTotal(Lower(s[0].name), Lower(x.name));
      var r := [x] + s;
      forall i, j | 0 <= i < j < |r| ensures NameLeq(r[i], r[j]) {
        if i == 0 && j > 1 {
          LexTransitive(Lower(x.name), Lower(s[0].name), Lower(s[j - 1].name));
        }
      }
      assert s == [s[0]] + s[1..];
    } else {
      InsertSpec(x, s[1..]);
      var t := Insert(x, s[1..]);
      var r := [s[0]] + t;
      forall i, j | 0 <= i < j < |r| ensures NameLeq(r[i], r[j]) {
        if i == 0 {
          assert r[j] in multiset(t);
          assert r[j] in s[1..] || r[j] == x;
        }
      }
      assert s == [s[0]] + s[1..];
    }
  }

  /** The sort returns the same shows, each as often as before, in name order. */
  lemma {:induction false} SortByNameSpec(s: seq<Show>)
    ensures SortedByName(SortByName(s))
    ensures multiset(SortByName(s)) == multiset(s)
  {
    if s != [] {
      SortByNameSpec(s[..|s| - 1]);
      InsertSpec(s[|s| - 1], SortByName(s[..|s| - 1]));
      assert s == s[..|s| - 1] + [s[|s| - 1]];
    }
  }
}
