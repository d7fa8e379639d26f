/** Sorting strings as sort.Strings does. */
module Sorting {

  /** Byte-wise order of strings, as sort.Strings uses. */
  predicate Below(a: string, b: string) {
    a == "" || (b != "" && (a[0] < b[0] || (a[0] == b[0] && Below(a[1..], b[1..]))))
  }

  predicate Sorted(xs: seq<string>) {
    forall i, j :: 0 <= i < j < |xs| ==> Below(xs[i], xs[j])
  }

  function Insert(x: string, xs: seq<string>): seq<string> {
    if xs == [] then [x]
    else if Below(x, xs[0]) then [x] + xs
    else [xs[0]] + Insert(x, xs[1..])
  }

  function Sort(xs: seq<string>): seq<string> {
    if xs == [] then [] else Insert(xs[0], Sort(xs[1..]))
  }

  lemma {:induction false} BelowTotal(a: string, b: string)
    ensures Below(a, b) || Below(b, a)
  {
    if a != "" && b != "" && a[0] == b[0] {
      BelowTotal(a[1..], b[1..]);
    }
  }

  lemma {:induction false} BelowTransitive(a: string, b: string, c: string)
    requires Below(a, b) && Below(b, c)
    ensures Below(a, c)
  {
    if a != "" && a[0] == b[0] == c[0] {
      BelowTransitive(a[1..], b[1..], c[1..]);
    }
  }

  lemma {:induction false} InsertKeeps(x: string, xs: seq<string>)
    ensures multiset(Insert(x, xs)) == multiset(xs) + multiset{x}
  {
    hide Below;
    if xs != [] {
      assert xs == [xs[0]] + xs[1..];
      if !Below(x, xs[0]) {
        InsertKeeps(x, xs[1..]);
      }
    }
  }

  lemma SortedCons(x: string, xs: seq<string>)
    requires Sorted(xs) && forall j :: 0 <= j < |xs| ==> Below(x, xs[j])
    ensures Sorted([x] + xs)
  {
    hide Below;
  }

  lemma InsertedMember(x: string, xs: seq<string>, y: string)
    requires y in Insert(x, xs)
    ensures y == x || y in xs
  {
    InsertKeeps(x, xs);
    assert y in multiset(Insert(x, xs));
  }

  lemma {:induction false} InsertSorts(x: string, xs: seq<string>)
    requires Sorted(xs)
    ensures Sorted(Insert(x, xs)) && multiset(Insert(x, xs)) == multiset(xs) + multiset{x}
  {
    InsertKeeps(x, xs);
    hide Below;
    if xs != [] {
      if Below(x, xs[0]) {
        forall j | 0 <= j < |xs| ensures Below(x, xs[j]) {
          if j > 0 {
            BelowTransitive(x, xs[0], xs[j]);
          }
        }
        SortedCons(x, xs);
      } else {
        BelowTotal(x, xs[0]);
        InsertSorts(x, xs[1..]);
        var r := Insert(x, xs[1..]);
        forall j | 0 <= j < |r| ensures Below(xs[0], r[j]) {
          InsertedMember(x, xs[1..], r[j]);
        }
        SortedCons(xs[0], r);
      }
    }
  }

  lemma {:induction false} SortSorts(xs: seq<string>)
    ensures Sorted(Sort(xs)) && multiset(Sort(xs)) == multiset(xs)
  {
    if xs != [] {
      SortSorts(xs[1..]);
      InsertSorts(xs[0], Sort(xs[1..]));
      assert xs == [xs[0]] + xs[1..];
    }
  }

  lemma SortKeepsMembers(xs: seq<string>, x: string)
    ensures x in Sort(xs) <==> x in xs
  {
    SortSorts(xs);
    assert x in Sort(xs) <==> x in multiset(Sort(xs));
    assert x in xs <==> x in multiset(xs);
  }

  lemma SortLength(xs: seq<string>)
    ensures |Sort(xs)| == |xs|
  {
    SortSorts(xs);
    assert |multiset(Sort(xs))| == |Sort(xs)| && |multiset(xs)| == |xs|;
  }

  lemma {:induction false} BelowAntisymmetric(a: string, b: string)
    requires Below(a, b) && Below(b, a)
    ensures a == b
  {
    if a != "" && b != "" {
      BelowAntisymmetric(a[1..], b[1..]);
      assert a == [a[0]] + a[1..] && b == [b[0]] + b[1..];
    }
  }

  predicate Distinct(xs: seq<string>) {
    forall i, j :: 0 <= i < j < |xs| ==> xs[i] != xs[j]
  }

  lemma {:induction false} InsertKeepsDistinct(x: string, xs: seq<string>)
    requires Distinct(xs) && x !in xs
    ensures Distinct(Insert(x, xs))
  {
    hide Below;
    if xs != [] && !Below(x, xs[0]) {
      InsertKeepsDistinct(x, xs[1..]);
      var r := Insert(x, xs[1..]);
      forall j | 0 <= j < |r| ensures r[j] != xs[0] {
        InsertedMember(x, xs[1..], r[j]);
      }
    }
  }

  lemma {:induction false} SortKeepsDistinct(xs: seq<string>)
    requires Distinct(xs)
    ensures Distinct(Sort(xs))
  {
    if xs != [] {
      SortKeepsDistinct(xs[1..]);
      SortKeepsMembers(xs[1..], xs[0]);
      InsertKeepsDistinct(xs[0], Sort(xs[1..]));
    }
  }
}
