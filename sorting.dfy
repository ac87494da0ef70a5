/**
 * Python's `sorted(xs, key=...)` and `list.sort(key=..., reverse=...)` are
 * stable sorts. Both are modelled by one stable insertion sort over an
 * ordering `le` ("may come before"), which must be a total preorder.
 */
module Sorting {

  /** `le` is total and transitive: a key comparison. */
  ghost predicate TotalPreorder<T(!new)>(le: (T, T) -> bool) {
    && (forall x, y :: le(x, y) || le(y, x))
    && (forall x, y, z :: le(x, y) && le(y, z) ==> le(x, z))
  }

  /** Every element may come before every later one. */
  ghost predicate Sorted<T>(s: seq<T>, le: (T, T) -> bool) {
    forall i, j :: 0 <= i < j < |s| ==> le(s[i], s[j])
  }

  /** `x` and `y` have equal keys. */
  predicate Tied<T>(le: (T, T) -> bool, x: T, y: T) {
    le(x, y) && le(y, x)
  }

  /** The elements of `s` whose key equals that of `x`, in their order in `s`. */
  function TiedWith<T>(s: seq<T>, le: (T, T) -> bool, x: T): seq<T> {
    if s == [] then []
    else (if Tied(le, x, s[0]) then [s[0]] else []) + TiedWith(s[1..], le, x)
  }

  /** Puts `x` in front of the first element it may come before. */
  function Insert<T>(x: T, s: seq<T>, le: (T, T) -> bool): (r: seq<T>)
    ensures multiset(r) == multiset(s) + multiset{x}
    ensures |r| == |s| + 1
  {
    if s == [] || le(x, s[0]) then [x] + s
    else
      assert s == [s[0]] + s[1..];
      [s[0]] + Insert(x, s[1..], le)
  }

  /** The stable sort of `s` by `le`. */
  function SortBy<T>(s: seq<T>, le: (T, T) -> bool): (r: seq<T>)
    ensures multiset(r) == multiset(s)
    ensures |r| == |s|
  {
    if s == [] then []
    else
      assert s == [s[0]] + s[1..];
      Insert(s[0], SortBy(s[1..], le), le)
  }

  lemma {:induction false} InsertSorted<T(!new)>(x: T, s: seq<T>, le: (T, T) -> bool)
    requires TotalPreorder(le) && Sorted(s, le)
    ensures Sorted(Insert(x, s, le), le)
  {
    if s != [] && !le(x, s[0]) {
      var t := Insert(x, s[1..], le);
      InsertSorted(x, s[1..], le);
      forall j | 0 <= j < |t| ensures le(s[0], t[j]) {
        assert t[j] in multiset(t);
        if t[j] != x {
          assert t[j] in multiset(s[1..]);
          var k :| 0 <= k < |s[1..]| && s[1..][k] == t[j];
          assert s[k + 1] == t[j];
        }
      }
    }
  }

  /** The result of `SortBy` is ordered by `le`. */
  lemma {:induction false} SortBySorted<T(!new)>(s: seq<T>, le: (T, T) -> bool)
    requires TotalPreorder(le)
    ensures Sorted(SortBy(s, le), le)
  {
    if s != [] {
      SortBySorted(s[1..], le);
      InsertSorted(s[0], SortBy(s[1..], le), le);
    }
  }

  /** Inserting `y` lets it overtake no element whose key ties with its own. */
  lemma {:induction false} InsertTiedWith<T(!new)>(y: T, s: seq<T>, le: (T, T) -> bool, x: T)
    requires TotalPreorder(le)
    ensures TiedWith(Insert(y, s, le), le, x)
         == (if Tied(le, x, y) then [y] else []) + TiedWith(s, le, x)
  {
    if s == [] || le(y, s[0]) {
      assert ([y] + s)[1..] == s;
    } else {
      var r := [s[0]] + Insert(y, s[1..], le);
      assert r[0] == s[0] && r[1..] == Insert(y, s[1..], le);
      var head := if Tied(le, x, s[0]) then [s[0]] else [];
      var ins := if Tied(le, x, y) then [y] else [];
      assert TiedWith(r, le, x) == head + TiedWith(Insert(y, s[1..], le), le, x);
      InsertTiedWith(y, s[1..], le, x);
      assert TiedWith(s, le, x) == head + TiedWith(s[1..], le, x);
      assert head + ins == ins + head;
    }
  }

  /** Stability: elements with equal keys keep their relative order. */
  lemma {:induction false} SortByStable<T(!new)>(s: seq<T>, le: (T, T) -> bool, x: T)
    requires TotalPreorder(le)
    ensures TiedWith(SortBy(s, le), le, x) == TiedWith(s, le, x)
  {
    if s != [] {
      SortByStable(s[1..], le, x);
      InsertTiedWith(s[0], SortBy(s[1..], le), le, x);
    }
  }

  /** The first element of a sorted sequence may come before any of its elements. */
  lemma SortedHeadFirst<T(!new)>(t: seq<T>, le: (T, T) -> bool, z: T)
    requires TotalPreorder(le) && Sorted(t, le) && z in t
    ensures le(t[0], z)
  {
    var i :| 0 <= i < |t| && t[i] == z;
    if i == 0 {
      assert le(z, z) || le(z, z);
    }
  }

  /**
   * A sorted arrangement of a multiset is unique when no two of its
   * distinct elements have equal keys.
   */
  lemma {:induction false} SortedUnique<T(!new)>(r: seq<T>, t: seq<T>, le: (T, T) -> bool)
    requires TotalPreorder(le)
    requires Sorted(r, le) && Sorted(t, le) && multiset(r) == multiset(t)
    requires forall x, y :: x in r && y in r && Tied(le, x, y) ==> x == y
    ensures r == t
  {
    if r == [] {
      assert |t| == |multiset(t)| == 0;
    } else {
      SortedHeadsEqual(r, t, le);
      TailsSameMultiset(r, t);
      SortedUnique(r[1..], t[1..], le);
    }
  }

  /** Two sorted arrangements of one multiset, without ties, start alike. */
  lemma SortedHeadsEqual<T(!new)>(r: seq<T>, t: seq<T>, le: (T, T) -> bool)
    requires TotalPreorder(le)
    requires Sorted(r, le) && Sorted(t, le) && multiset(r) == multiset(t) && r != []
    requires forall x, y :: x in r && y in r && Tied(le, x, y) ==> x == y
    ensures t != [] && r[0] == t[0]
  {
    assert r[0] in multiset(t);
    assert t != [];
    assert t[0] in multiset(r);
    SortedHeadFirst(t, le, r[0]);
    SortedHeadFirst(r, le, t[0]);
    assert Tied(le, r[0], t[0]);
  }

  /** Removing equal heads from two arrangements of one multiset leaves equal multisets. */
  lemma TailsSameMultiset<T>(r: seq<T>, t: seq<T>)
    requires multiset(r) == multiset(t) && r != [] && t != [] && r[0] == t[0]
    ensures multiset(r[1..]) == multiset(t[1..])
  {
    assert r == [r[0]] + r[1..] && t == [t[0]] + t[1..];
    assert multiset(r) == multiset{r[0]} + multiset(r[1..]);
    assert multiset(t) == multiset{t[0]} + multiset(t[1..]);
    assert multiset(r[1..]) == multiset(r) - multiset{r[0]};
  }
}
