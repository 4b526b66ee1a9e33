/** The order in which strings sort: by code point, a prefix first. */
module Text {
  predicate SortsBefore(a: string, b: string)
    decreases |a|
  {
    b != "" && (a == "" || a[0] < b[0] || (a[0] == b[0] && SortsBefore(a[1..], b[1..])))
  }

  lemma {:induction false} BeforeIsTotal(a: string, b: string)
    ensures SortsBefore(a, b) || a == b || SortsBefore(b, a)
    ensures !(SortsBefore(a, b) && SortsBefore(b, a)) && !SortsBefore(a, a)
    decreases |a|
  {
    if a != "" {
      BeforeIsTotal(a[1..], a[1..]);
    }
    if a != "" && b != "" {
      BeforeIsTotal(a[1..], b[1..]);
      assert a == [a[0]] + a[1..] && b == [b[0]] + b[1..];
    }
  }

  lemma {:induction false} BeforeIsTransitive(a: string, b: string, c: string)
    requires SortsBefore(a, b) && SortsBefore(b, c)
    ensures SortsBefore(a, c)
    decreases |a|
  {
    if a != "" && a[0] == b[0] == c[0] {
      BeforeIsTransitive(a[1..], b[1..], c[1..]);
    }
  }

  /** Strings that agree up to `n` and then differ sort as they do there. */
  lemma {:induction false} FirstDifference(a: string, b: string, n: nat)
    requires n < |a| && n < |b| && a[..n] == b[..n] && a[n] != b[n]
    ensures SortsBefore(a, b) <==> a[n] < b[n]
    decreases n
  {
    if n > 0 {
      assert a[0] == a[..n][0] == b[..n][0] == b[0];
      assert a[1..][..n - 1] == a[..n][1..] == b[..n][1..] == b[1..][..n - 1];
      FirstDifference(a[1..], b[1..], n - 1);
    }
  }

  /** `a` sorts before every other string of the set. */
  predicate IsFirst(a: string, s: set<string>) {
    a in s && forall b | b in s && b != a :: SortsBefore(a, b)
  }

  lemma AnotherFirst(s: set<string>, any: string, first: string)
    requires any in s && IsFirst(first, s - {any})
    ensures IsFirst(if SortsBefore(any, first) then any else first, s)
  {
    BeforeIsTotal(any, first);
    if SortsBefore(any, first) {
      forall b | b in s && b != any ensures SortsBefore(any, b) {
        if b != first {
          BeforeIsTransitive(any, first, b);
        }
      }
    }
  }

  /** Every set of strings has a first. */
  lemma {:induction false} FirstExists(s: set<string>)
    requires s != {}
    ensures exists a :: IsFirst(a, s)
  {
    var any :| any in s;
    if s - {any} == {} {
      assert s == {any};
      assert IsFirst(any, s);
    } else {
      FirstExists(s - {any});
      var first :| IsFirst(first, s - {any});
      AnotherFirst(s, any, first);
    }
  }

  predicate Ascending(s: seq<string>) {
    forall i, j | 0 <= i < j < |s| :: SortsBefore(s[i], s[j])
  }

  /** The strings of a set, each once and in their order. */
  function Sorted(s: set<string>): (sorted: seq<string>)
    ensures Ascending(sorted) && forall a :: a in sorted <==> a in s
  {
    if s == {} then []
    else
      FirstExists(s);
      FirstIsUnique(s);
      var first :| first in s && IsFirst(first, s);
      [first] + Sorted(s - {first})
  }

  lemma FirstIsUnique(s: set<string>)
    ensures forall a, b | IsFirst(a, s) && IsFirst(b, s) :: a == b
  {
    forall a, b | IsFirst(a, s) && IsFirst(b, s) ensures a == b {
      BeforeIsTotal(a, b);
    }
  }
}
