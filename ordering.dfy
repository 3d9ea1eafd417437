/** The total order Rust uses on `String` (byte-wise lexicographic on UTF-8,
    which agrees with lexicographic order on code points) and the sort and
    filter-then-truncate pagination the registry builds on it. */
module Ordering {
  import opened Common

  /** `a < b` on strings. */
  predicate Less(a: string, b: string)
    decreases |a|
  {
    if |a| == 0 then |b| > 0
    else if |b| == 0 then false
    else a[0] < b[0] || (a[0] == b[0] && Less(a[1..], b[1..]))
  }

  predicate LessEq(a: string, b: string)
  {
    a == b || Less(a, b)
  }

  lemma {:induction false} LessIrreflexive(a: string)
    ensures !Less(a, a)
    decreases |a|
  {
    if |a| > 0 { LessIrreflexive(a[1..]); }
  }

  lemma {:induction false} LessTrans(a: string, b: string, c: string)
    requires Less(a, b) && Less(b, c)
    ensures Less(a, c)
    decreases |a|
  {
    if |a| > 0 && a[0] == b[0] && b[0] == c[0] {
      LessTrans(a[1..], b[1..], c[1..]);
    }
  }

  lemma {:induction false} LessTotal(a: string, b: string)
    ensures a == b || Less(a, b) || Less(b, a)
    decreases |a|
  {
    if |a| > 0 && |b| > 0 && a[0] == b[0] {
      LessTotal(a[1..], b[1..]);
      if a[1..] == b[1..] {
        assert a == [a[0]] + a[1..] && b == [b[0]] + b[1..];
      }
    }
  }

  lemma LessAsym(a: string, b: string)
    requires Less(a, b)
    ensures !Less(b, a)
  {
    if Less(b, a) {
      LessTrans(a, b, a);
      LessIrreflexive(a);
    }
  }

  lemma LessEqTrans(a: string, b: string, c: string)
    requires LessEq(a, b) && LessEq(b, c)
    ensures LessEq(a, c)
  {
    if a != b && b != c { LessTrans(a, b, c); }
  }

  ghost predicate Sorted(s: seq<string>)
  {
    forall i, j :: 0 <= i < j < |s| ==> LessEq(s[i], s[j])
  }

  /** Inserts `x` before the first element not below it. */
  function Insert(x: string, s: seq<string>): (r: seq<string>)
    requires Sorted(s)
    ensures Sorted(r)
    ensures multiset(r) == multiset(s) + multiset{x}
    decreases |s|
  {
    if s == [] then [x]
    else if LessEq(x, s[0]) then
      InsertFront(x, s);
      [x] + s
    else
      var t := Insert(x, s[1..]);
      LessTotal(x, s[0]);
      InsertBehind(s[0], x, s[1..], t);
      assert s == [s[0]] + s[1..];
      [s[0]] + t
  }

  lemma InsertFront(x: string, s: seq<string>)
    requires Sorted(s) && |s| > 0 && LessEq(x, s[0])
    ensures Sorted([x] + s)
  {
    forall i, j | 0 <= i < j < |[x] + s|
      ensures LessEq(([x] + s)[i], ([x] + s)[j])
    {
      if i == 0 && j > 1 { LessEqTrans(x, s[0], s[j - 1]); }
    }
  }

  lemma InsertBehind(h: string, x: string, rest: seq<string>, t: seq<string>)
    requires Sorted([h] + rest) && Less(h, x) && Sorted(t)
    requires multiset(t) == multiset(rest) + multiset{x}
    ensures Sorted([h] + t)
  {
    forall j | 0 <= j < |t|
      ensures LessEq(h, t[j])
    {
      assert t[j] in multiset(t);
      if t[j] != x {
        assert t[j] in multiset(rest);
        var k :| 0 <= k < |rest| && rest[k] == t[j];
        assert ([h] + rest)[0] == h && ([h] + rest)[k + 1] == rest[k];
      }
    }
    forall i, j | 0 <= i < j < |[h] + t|
      ensures LessEq(([h] + t)[i], ([h] + t)[j])
    {
      if i == 0 { assert ([h] + t)[j] == t[j - 1]; }
    }
  }

  /** Insertion sort: an ordered permutation of `s` (what `Vec::sort` yields). */
  function Sort(s: seq<string>): (r: seq<string>)
    ensures Sorted(r)
    ensures multiset(r) == multiset(s)
    decreases |s|
  {
    if s == [] then []
    else
      assert s == [s[0]] + s[1..];
      Insert(s[0], Sort(s[1..]))
  }

  /** The pagination filter: every item when no `last` is given, else the items above it. */
  predicate AfterLast(last: Option<string>, x: string)
  {
    last.None? || Less(last.value, x)
  }

  /** The items strictly after `last`, in order (the `filter` of the paginated listings). */
  function After(items: seq<string>, last: Option<string>): (r: seq<string>)
    ensures forall x :: x in r <==> x in items && AfterLast(last, x)
    ensures |r| <= |items|
    ensures Distinct(items) ==> Distinct(r)
    decreases |items|
  {
    if items == [] then []
    else
      var rest := After(items[1..], last);
      assert forall x :: x in items <==> x == items[0] || x in items[1..];
      if AfterLast(last, items[0]) then
        assert Distinct(items) ==> items[0] !in items[1..];
        [items[0]] + rest
      else rest
  }

  /** The eligible members of a set of names. */
  function Eligible(names: set<string>, last: Option<string>): set<string>
  {
    set x | x in names && AfterLast(last, x)
  }

  /** For a listing without repeats, the filter keeps exactly the eligible names. */
  lemma AfterCount(items: seq<string>, last: Option<string>)
    requires Distinct(items)
    ensures |After(items, last)| == |Eligible(Elems(items), last)|
  {
    var f := After(items, last);
    assert Elems(f) == Eligible(Elems(items), last);
    DistinctCard(f);
  }

  /** The length of a page: `n` when fewer than all, else all of them. */
  function Cap(n: Option<nat>, total: nat): nat
  {
    if n.Some? && n.value < total then n.value else total
  }

  /** Filter by `last`, sort, and truncate to `n` when given. */
  function Paginate(items: seq<string>, n: Option<nat>, last: Option<string>): seq<string>
  {
    var sorted := Sort(After(items, last));
    if n.Some? && n.value < |sorted| then sorted[..n.value] else sorted
  }

  /** A page holds only items after `last`, in order; it is as long as `n`
      allows; and every eligible item left off it comes after everything on
      it, so the next page (with `last` set to this page's final entry)
      continues where this one stops. */
  lemma PaginateSpec(items: seq<string>, n: Option<nat>, last: Option<string>)
    ensures var r := Paginate(items, n, last);
      && Sorted(r)
      && (forall x :: x in r ==> x in items && AfterLast(last, x))
      && |r| == Cap(n, |After(items, last)|)
      && (forall x :: x in items && AfterLast(last, x) && x !in r ==>
            forall k :: 0 <= k < |r| ==> Less(r[k], x))
      && (Distinct(items) ==> Distinct(r))
  {
    var f := After(items, last);
    var sorted := Sort(f);
    var r := Paginate(items, n, last);
    assert |sorted| == |f| by {
      assert |multiset(sorted)| == |multiset(f)|;
    }
    assert r == sorted[..|r|];
    forall x | x in r
      ensures x in items && AfterLast(last, x)
    {
      assert x in multiset(sorted);
    }
    forall x | x in items && AfterLast(last, x) && x !in r
      ensures forall k :: 0 <= k < |r| ==> Less(r[k], x)
    {
      assert x in multiset(f);
      assert x in multiset(sorted);
      var m :| 0 <= m < |sorted| && sorted[m] == x;
      assert m >= |r|;
      forall k | 0 <= k < |r|
        ensures Less(r[k], x)
      {
        assert r[k] == sorted[k];
        assert LessEq(sorted[k], sorted[m]);
      }
    }
    if Distinct(items) {
      PermutationDistinct(f, sorted);
      assert Distinct(r) by {
        forall i, j | 0 <= i < j < |r| ensures r[i] != r[j] {
          assert r[i] == sorted[i] && r[j] == sorted[j];
        }
      }
    }
  }
}
