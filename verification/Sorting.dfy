/**
 Python's stable `sorted` for a strict "comes before" test, as repeated insertion.

 Two settings occur.  Manifests, changes and records are sorted by keys that decide every pair, so
 the result rises strictly and is determined by its members.  Closure lines are sorted by a total
 order and may repeat, so the result is determined by the multiset of its members.
 */
module Sorting {

  function Insert<T>(before: (T, T) -> bool, items: seq<T>, x: T): (r: seq<T>)
    ensures multiset(r) == multiset(items) + multiset{x}
  {
    if items == [] || !before(x, items[|items| - 1]) then items + [x]
    else
      assert items == items[..|items| - 1] + [items[|items| - 1]];
      Insert(before, items[..|items| - 1], x) + [items[|items| - 1]]
  }

  function Sort<T>(before: (T, T) -> bool, items: seq<T>): (r: seq<T>)
    ensures multiset(r) == multiset(items)
  {
    if items == [] then []
    else
      assert items == items[..|items| - 1] + [items[|items| - 1]];
      Insert(before, Sort(before, items[..|items| - 1]), items[|items| - 1])
  }

  lemma SortMembers<T>(before: (T, T) -> bool, items: seq<T>, x: T)
    ensures x in Sort(before, items) <==> x in items
    ensures |Sort(before, items)| == |items|
  {
    assert x in multiset(Sort(before, items)) <==> x in multiset(items);
    assert |multiset(Sort(before, items))| == |multiset(items)|;
  }

  predicate Rising<T>(before: (T, T) -> bool, items: seq<T>) {
    forall i, j | 0 <= i < j < |items| :: before(items[i], items[j])
  }

  /** Any two items at different places are ordered one way and not the other. */
  predicate Decided<T>(before: (T, T) -> bool, items: seq<T>) {
    forall i, j | 0 <= i < j < |items| :: before(items[i], items[j]) <==> !before(items[j], items[i])
  }

  ghost predicate IsTransitive<T(!new)>(before: (T, T) -> bool) {
    forall a, b, c :: before(a, b) && before(b, c) ==> before(a, c)
  }

  lemma Inserted<T>(before: (T, T) -> bool, items: seq<T>, x: T, y: T)
    ensures y in Insert(before, items, x) <==> y == x || y in items
  {
    assert y in multiset(Insert(before, items, x)) <==> y in multiset(items) + multiset{x};
  }

  /** A list whose last item comes after all others rises when the others do. */
  lemma RisesToLast<T>(before: (T, T) -> bool, items: seq<T>, last: T)
    requires Rising(before, items) && forall y | y in items :: before(y, last)
    ensures Rising(before, items + [last])
  {
  }

  lemma {:induction false} InsertRises<T(!new)>(before: (T, T) -> bool, items: seq<T>, x: T)
    requires IsTransitive(before) && Rising(before, items)
    requires forall y | y in items :: before(x, y) <==> !before(y, x)
    ensures Rising(before, Insert(before, items, x))
  {
    if items == [] {
      assert Insert(before, items, x) == [x];
    } else {
      var n := |items| - 1;
      var init, last := items[..n], items[n];
      assert last in items;
      forall y | y in init ensures before(y, last) {
        var i :| 0 <= i < n && init[i] == y;
        assert before(items[i], items[n]);
      }
      if before(x, last) {
        InsertRises(before, init, x);
        forall y | y in Insert(before, init, x) ensures before(y, last) {
          Inserted(before, init, x, y);
        }
        RisesToLast(before, Insert(before, init, x), last);
      } else {
        assert items == init + [last];
        RisesToLast(before, items, x);
      }
    }
  }

  lemma {:induction false} SortRises<T(!new)>(before: (T, T) -> bool, items: seq<T>)
    requires IsTransitive(before) && Decided(before, items)
    ensures Rising(before, Sort(before, items))
  {
    if items != [] {
      var n := |items| - 1;
      var init := items[..n];
      SortRises(before, init);
      forall y | y in Sort(before, init) ensures before(items[n], y) <==> !before(y, items[n]) {
        SortMembers(before, init, y);
        var i :| 0 <= i < n && init[i] == y;
        assert before(items[i], items[n]) <==> !before(items[n], items[i]);
      }
      InsertRises(before, Sort(before, init), items[n]);
    }
  }

  /** A strictly rising list is determined by its members. */
  lemma {:induction false} RisingIsUnique<T(!new)>(before: (T, T) -> bool, a: seq<T>, b: seq<T>)
    requires Rising(before, a) && Rising(before, b)
    requires forall x, y | x in a && y in a :: !(before(x, y) && before(y, x))
    requires forall x :: x in a <==> x in b
    ensures a == b
    decreases |a|
  {
    assert |a| > 0 ==> a[0] in b;
    assert |b| > 0 ==> b[0] in a;
    if a != [] {
      FirstLeads(before, a, b[0]);
      FirstLeads(before, b, a[0]);
      assert a[0] == b[0];
      forall x ensures x in a[1..] <==> x in b[1..] {
        if x in a[1..] { RestDiffers(before, a, x); assert x in b; }
        if x in b[1..] { RestDiffers(before, b, x); assert x in a; }
      }
      RisingIsUnique(before, a[1..], b[1..]);
    }
  }

  lemma FirstLeads<T>(before: (T, T) -> bool, a: seq<T>, x: T)
    requires Rising(before, a) && x in a
    ensures a[0] == x || before(a[0], x)
  {
  }

  lemma RestDiffers<T>(before: (T, T) -> bool, a: seq<T>, x: T)
    requires Rising(before, a) && a != [] && x in a[1..] && !(before(a[0], a[0]) && before(a[0], a[0]))
    ensures x != a[0]
  {
    var i :| 0 <= i < |a[1..]| && a[1..][i] == x;
    assert before(a[0], a[i + 1]);
  }

  // ---- Lists without repetitions ----

  predicate NoRepeats<T(==)>(s: seq<T>) {
    forall i, j | 0 <= i < j < |s| :: s[i] != s[j]
  }

  lemma NoRepeatsConcat<T>(a: seq<T>, b: seq<T>)
    requires NoRepeats(a) && NoRepeats(b) && forall x | x in a :: x !in b
    ensures NoRepeats(a + b)
  {
    forall i, j | 0 <= i < j < |a + b| ensures (a + b)[i] != (a + b)[j] {
      if i < |a| <= j {
        assert a[i] in a && b[j - |a|] in b;
      }
    }
  }

  lemma {:induction false} CountedOnce<T(!new)>(s: seq<T>)
    ensures NoRepeats(s) <==> forall x | x in s :: multiset(s)[x] == 1
    decreases |s|
  {
    if s != [] {
      var n := |s| - 1;
      var init, last := s[..n], s[n];
      assert s == init + [last];
      CountedOnce(init);
      if NoRepeats(s) {
        forall x | x in s ensures multiset(s)[x] == 1 {
          if x in init {
            var i :| 0 <= i < n && init[i] == x;
            assert s[i] != s[n];
          }
        }
      }
      if forall x | x in s :: multiset(s)[x] == 1 {
        assert multiset(s)[last] == multiset(init)[last] + 1;
        forall x | x in init ensures multiset(init)[x] == 1 {
          assert x in s;
        }
      }
    }
  }

  lemma SortRepeatsNothing<T(!new)>(before: (T, T) -> bool, items: seq<T>)
    requires NoRepeats(items)
    ensures NoRepeats(Sort(before, items))
  {
    CountedOnce(items);
    CountedOnce(Sort(before, items));
    forall x | x in Sort(before, items) ensures multiset(Sort(before, items))[x] == 1 {
      SortMembers(before, items, x);
    }
  }

  lemma {:induction false} CountDistinct<T>(list: seq<T>, members: set<T>)
    requires NoRepeats(list) && forall x | x in list :: x in members
    requires forall x | x in members :: x in list
    ensures |members| == |list|
    decreases |list|
  {
    if list == [] {
      assert members == {};
    } else {
      var n := |list| - 1;
      assert list == list[..n] + [list[n]];
      CountDistinct(list[..n], members - {list[n]});
    }
  }

  // ---- Total orders ----

  ghost predicate IsTotal<T(!new)>(before: (T, T) -> bool) {
    && IsTransitive(before)
    && (forall x, y :: x == y || before(x, y) || before(y, x))
    && forall x, y :: !(before(x, y) && before(y, x))
  }

  predicate Ordered<T>(before: (T, T) -> bool, items: seq<T>) {
    forall i, j | 0 <= i < j < |items| :: !before(items[j], items[i])
  }

  lemma OrderedToLast<T>(before: (T, T) -> bool, items: seq<T>, last: T)
    requires Ordered(before, items) && forall y | y in items :: !before(last, y)
    ensures Ordered(before, items + [last])
  {
  }

  lemma {:induction false} InsertOrders<T(!new)>(before: (T, T) -> bool, items: seq<T>, x: T)
    requires IsTotal(before) && Ordered(before, items)
    ensures Ordered(before, Insert(before, items, x))
  {
    if items == [] {
      assert Insert(before, items, x) == [x];
    } else {
      var n := |items| - 1;
      var init, last := items[..n], items[n];
      forall y | y in init ensures !before(last, y) {
        var i :| 0 <= i < n && init[i] == y;
        assert !before(items[n], items[i]);
      }
      if before(x, last) {
        InsertOrders(before, init, x);
        forall y | y in Insert(before, init, x) ensures !before(last, y) {
          Inserted(before, init, x, y);
        }
        OrderedToLast(before, Insert(before, init, x), last);
      } else {
        assert items == init + [last];
        OrderedToLast(before, items, x);
      }
    }
  }

  lemma {:induction false} SortOrders<T(!new)>(before: (T, T) -> bool, items: seq<T>)
    requires IsTotal(before)
    ensures Ordered(before, Sort(before, items))
  {
    if items != [] {
      SortOrders(before, items[..|items| - 1]);
      InsertOrders(before, Sort(before, items[..|items| - 1]), items[|items| - 1]);
    }
  }

  lemma {:induction false} OrderedIsUnique<T(!new)>(before: (T, T) -> bool, a: seq<T>, b: seq<T>)
    requires IsTotal(before) && Ordered(before, a) && Ordered(before, b) && multiset(a) == multiset(b)
    ensures a == b
    decreases |a|
  {
    assert |multiset(a)| == |a| && |multiset(b)| == |b|;
    if a != [] {
      SameLast(before, a, b);
      OrderedIsUnique(before, a[..|a| - 1], b[..|b| - 1]);
    }
  }

  lemma SameLast<T(!new)>(before: (T, T) -> bool, a: seq<T>, b: seq<T>)
    requires IsTotal(before) && Ordered(before, a) && Ordered(before, b) && multiset(a) == multiset(b) && |a| == |b| > 0
    ensures var n := |a| - 1; a == a[..n] + [a[n]] && b == b[..n] + [a[n]] && multiset(a[..n]) == multiset(b[..n])
  {
    var x, y := a[|a| - 1], b[|b| - 1];
    WithoutLast(a);
    WithoutLast(b);
    assert x in multiset(b) && y in multiset(a);
    assert !before(x, y) by { LastIsGreatest(before, a, y); }
    assert !before(y, x) by { LastIsGreatest(before, b, x); }
    assert x == y;
  }

  lemma WithoutLast<T>(s: seq<T>)
    requires s != []
    ensures var n := |s| - 1; s == s[..n] + [s[n]] && multiset(s[..n]) == multiset(s) - multiset{s[n]}
  {
    assert s == s[..|s| - 1] + [s[|s| - 1]];
  }

  lemma LastIsGreatest<T(!new)>(before: (T, T) -> bool, a: seq<T>, x: T)
    requires IsTotal(before) && Ordered(before, a) && a != [] && x in multiset(a)
    ensures !before(a[|a| - 1], x)
  {
    var i :| 0 <= i < |a| && a[i] == x;
  }

  /** Sorting by a total order depends only on which items there are, and how often. */
  lemma {:induction false} SortIsCanonical<T(!new)>(before: (T, T) -> bool, a: seq<T>, b: seq<T>)
    requires IsTotal(before) && multiset(a) == multiset(b)
    ensures Sort(before, a) == Sort(before, b)
  {
    SortOrders(before, a);
    SortOrders(before, b);
    OrderedIsUnique(before, Sort(before, a), Sort(before, b));
  }
}
