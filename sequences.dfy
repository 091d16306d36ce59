/**
 * What a query set does to the rows of a table, stated on sequences: a
 * `filter(...)` keeps the rows that satisfy a condition, in table order, and
 * an `order_by(...)` puts them in an order that respects a comparison.
 */
module Sequences {

  /** `queryset.filter(p)`: the rows that satisfy `p`, in their original order. */
  function Filter<T(!new)>(s: seq<T>, p: T -> bool): (r: seq<T>)
    ensures |r| <= |s|
  {
    if s == [] then []
    else
      var rest := Filter(s[1..], p);
      assert s == [s[0]] + s[1..];
      if p(s[0]) then [s[0]] + rest else rest
  }

  /** A comparison that can order any two rows and is transitive. */
  ghost predicate TotalPreorder<T(!new)>(le: (T, T) -> bool) {
    && (forall a, b :: le(a, b) || le(b, a))
    && (forall a, b, c :: le(a, b) && le(b, c) ==> le(a, c))
  }

  predicate SortedBy<T>(s: seq<T>, le: (T, T) -> bool) {
    forall i, j :: 0 <= i < j < |s| ==> le(s[i], s[j])
  }

  function Insert<T(!new)>(x: T, s: seq<T>, le: (T, T) -> bool): (r: seq<T>)
    requires TotalPreorder(le)
    requires SortedBy(s, le)
    ensures SortedBy(r, le)
    ensures multiset(r) == multiset(s) + multiset{x}
  {
    if s == [] then [x]
    else if le(x, s[0]) then
      assert forall j :: 0 < j < |s| ==> le(s[0], s[j]);
      [x] + s
    else
      var rest := Insert(x, s[1..], le);
      assert s == [s[0]] + s[1..];
      assert forall y :: y in rest ==> y == x || y in s[1..] by {
        forall y | y in rest ensures y == x || y in s[1..] {
          assert y in multiset(rest);
        }
      }
      assert forall j :: 0 <= j < |rest| ==> le(s[0], rest[j]) by {
        forall j | 0 <= j < |rest| ensures le(s[0], rest[j]) {
          assert rest[j] in rest;
          if rest[j] != x {
            var k :| 0 <= k < |s[1..]| && s[1..][k] == rest[j];
            assert s[k + 1] == rest[j];
          }
        }
      }
      [s[0]] + rest
  }

  /** `queryset.order_by(...)`: a rearrangement of the rows that respects `le`.
      Rows that compare equal come out in some order; the database leaves
      their order unspecified. */
  function Sort<T(!new)>(s: seq<T>, le: (T, T) -> bool): (r: seq<T>)
    requires TotalPreorder(le)
    ensures SortedBy(r, le)
    ensures multiset(r) == multiset(s)
  {
    if s == [] then []
    else
      assert s == [s[0]] + s[1..];
      Insert(s[0], Sort(s[1..], le), le)
  }

  /** A filter keeps every row that satisfies the condition as often as it
      occurs, and drops every other row. */
  lemma {:induction false} FilterCount<T(!new)>(s: seq<T>, p: T -> bool)
    ensures forall x :: multiset(Filter(s, p))[x] == if p(x) then multiset(s)[x] else 0
  {
    if s != [] {
      FilterCount(s[1..], p);
      assert s == [s[0]] + s[1..];
    }
  }

  /** `s` holds exactly the elements of `rows` that satisfy `P`, each as
      often as in `rows`: what a chain of filters leaves of a table. */
  ghost predicate Narrowed<T(!new)>(s: seq<T>, rows: seq<T>, P: T -> bool) {
    multiset(s) == multiset(Filter(rows, P))
  }

  lemma NarrowedStart<T(!new)>(rows: seq<T>, P: T -> bool)
    requires forall x :: P(x)
    ensures Narrowed(rows, rows, P)
  {
    FilterCount(rows, P);
    assert multiset(rows) == multiset(Filter(rows, P));
  }

  /** One more filter narrows by one more condition. */
  lemma FilterNarrows<T(!new)>(s: seq<T>, rows: seq<T>, P: T -> bool, p: T -> bool, Q: T -> bool)
    requires Narrowed(s, rows, P)
    requires forall x :: Q(x) <==> P(x) && p(x)
    ensures Narrowed(Filter(s, p), rows, Q)
  {
    FilterCount(s, p);
    FilterCount(rows, P);
    FilterCount(rows, Q);
    assert multiset(Filter(s, p)) == multiset(Filter(rows, Q));
  }

  /** A filter that is not applied narrows by a condition that already held. */
  lemma NarrowedSame<T(!new)>(s: seq<T>, rows: seq<T>, P: T -> bool, Q: T -> bool)
    requires Narrowed(s, rows, P)
    requires forall x :: Q(x) <==> P(x)
    ensures Narrowed(s, rows, Q)
  {
    FilterCount(rows, P);
    FilterCount(rows, Q);
    assert multiset(Filter(rows, P)) == multiset(Filter(rows, Q));
  }

  /** Reordering keeps what a chain of filters kept: each row of the table
      that satisfies the condition, as often as in the table, and nothing
      else. */
  lemma NarrowedPermuted<T(!new)>(s: seq<T>, t: seq<T>, rows: seq<T>, P: T -> bool)
    requires Narrowed(s, rows, P)
    requires multiset(t) == multiset(s)
    ensures forall x :: multiset(t)[x] == if P(x) then multiset(rows)[x] else 0
    ensures forall x :: x in t ==> x in rows && P(x)
  {
    FilterCount(rows, P);
    forall x | x in t ensures x in rows && P(x) {
      assert multiset(t)[x] > 0;
    }
  }
}
