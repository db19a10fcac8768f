/** Comparators, and the sorting contracts the program relies on. Strings are
    compared byte by byte; a stable sort is described by its result being sorted
    and by the ties of every element keeping their order, which leaves exactly
    one possible result. */
module Ordering {

  /** Three-way lexicographic comparison of byte strings. */
  function StrCmp(a: string, b: string): int {
    if a == [] && b == [] then 0
    else if a == [] then -1
    else if b == [] then 1
    else if a[0] < b[0] then -1
    else if a[0] > b[0] then 1
    else StrCmp(a[1..], b[1..])
  }

  lemma {:induction false} StrCmpFlip(a: string, b: string)
    ensures StrCmp(a, b) == -StrCmp(b, a)
    ensures StrCmp(a, b) == 0 <==> a == b
  {
    if a != [] && b != [] && a[0] == b[0] {
      StrCmpFlip(a[1..], b[1..]);
      assert a == [a[0]] + a[1..] && b == [b[0]] + b[1..];
    }
  }

  lemma {:induction false} StrCmpTrans(a: string, b: string, c: string)
    requires StrCmp(a, b) <= 0 && StrCmp(b, c) <= 0
    ensures StrCmp(a, c) <= 0
  {
    if a != [] && b != [] && c != [] && a[0] == b[0] == c[0] {
      StrCmpTrans(a[1..], b[1..], c[1..]);
    }
  }

  /** a comes before b byte by byte: a proper prefix, or smaller at the first
      byte that differs. */
  ghost predicate BytesBefore(a: string, b: string) {
    || (|a| < |b| && a == b[..|a|])
    || exists k :: 0 <= k < |a| && k < |b| && a[..k] == b[..k] && a[k] < b[k]
  }

  lemma HeadSlice(x: char, a: string, b: string, n: nat)
    requires n <= |a| && n <= |b|
    ensures ([x] + a)[..n + 1] == ([x] + b)[..n + 1] <==> a[..n] == b[..n]
  {
    assert ([x] + a)[..n + 1] == [x] + a[..n] && ([x] + b)[..n + 1] == [x] + b[..n];
    assert ([x] + a[..n])[1..] == a[..n] && ([x] + b[..n])[1..] == b[..n];
  }

  lemma BeforeLonger(x: char, a: string, b: string)
    requires BytesBefore(a, b)
    ensures BytesBefore([x] + a, [x] + b)
  {
    if |a| < |b| && a == b[..|a|] {
      HeadSlice(x, a, b, |a|);
    } else {
      var k :| 0 <= k < |a| && k < |b| && a[..k] == b[..k] && a[k] < b[k];
      HeadSlice(x, a, b, k);
      assert ([x] + a)[k + 1] < ([x] + b)[k + 1];
    }
  }

  lemma BeforeShorter(x: char, a: string, b: string)
    requires BytesBefore([x] + a, [x] + b)
    ensures BytesBefore(a, b)
  {
    var c, d := [x] + a, [x] + b;
    if |c| < |d| && c == d[..|c|] {
      HeadSlice(x, a, b, |a|);
      assert a[..|a|] == a;
    } else {
      var k :| 0 <= k < |c| && k < |d| && c[..k] == d[..k] && c[k] < d[k];
      HeadSlice(x, a, b, k - 1);
      assert a[k - 1] < b[k - 1];
    }
  }

  lemma BeforeOtherHead(a: string, b: string)
    requires a != [] && b != [] && a[0] != b[0]
    ensures BytesBefore(a, b) <==> a[0] < b[0]
  {
    assert a[..0] == b[..0];
    forall k | 0 < k < |a| && k < |b| ensures a[..k] != b[..k] {
      assert a[..k][0] != b[..k][0];
    }
  }

  lemma {:induction false} StrCmpBefore(a: string, b: string)
    ensures StrCmp(a, b) < 0 <==> BytesBefore(a, b)
  {
    if a != [] && b != [] {
      if a[0] == b[0] {
        var c, d := a[1..], b[1..];
        StrCmpBefore(c, d);
        assert a == [a[0]] + c && b == [a[0]] + d;
        if BytesBefore(c, d) {
          BeforeLonger(a[0], c, d);
        }
        if BytesBefore(a, b) {
          BeforeShorter(a[0], c, d);
        }
      } else {
        BeforeOtherHead(a, b);
      }
      hide BytesBefore;
    }
  }

  /** The comparison is that order. */
  lemma StrCmpMeaning(a: string, b: string)
    ensures StrCmp(a, b) < 0 <==>
            || (|a| < |b| && a == b[..|a|])
            || exists k :: 0 <= k < |a| && k < |b| && a[..k] == b[..k] && a[k] < b[k]
    ensures StrCmp(a, b) < 0 <==> BytesBefore(a, b)
    ensures StrCmp(a, b) == 0 <==> a == b
  {
    StrCmpBefore(a, b);
    StrCmpFlip(a, b);
    hide StrCmp;
  }

  /** What lies below a smaller string lies below a larger one. */
  lemma StrCmpBelow(a: string, b: string, key: string)
    requires StrCmp(a, b) <= 0
    ensures StrCmp(b, key) < 0 ==> StrCmp(a, key) < 0
    ensures StrCmp(a, key) > 0 ==> StrCmp(b, key) > 0
  {
    StrCmpFlip(a, key);
    StrCmpFlip(b, key);
    if StrCmp(key, a) <= 0 {
      StrCmpTrans(key, a, b);
    }
    if StrCmp(b, key) <= 0 {
      StrCmpTrans(a, b, key);
    }
  }

  /** A comparator that orders its arguments consistently. */
  ghost predicate TotalPreorder<T(!new)>(cmp: (T, T) -> int) {
    && (forall a, b :: cmp(a, b) <= 0 || cmp(b, a) <= 0)
    && (forall a, b :: cmp(a, b) < 0 <==> cmp(b, a) > 0)
    && (forall a, b, c :: cmp(a, b) <= 0 && cmp(b, c) <= 0 ==> cmp(a, c) <= 0)
  }

  ghost predicate Sorted<T>(cmp: (T, T) -> int, s: seq<T>) {
    forall i, j :: 0 <= i < j < |s| ==> cmp(s[i], s[j]) <= 0
  }

  /** The elements of s that compare equal to x, in order. */
  function Ties<T>(cmp: (T, T) -> int, s: seq<T>, x: T): seq<T> {
    if s == [] then []
    else (if cmp(x, s[0]) == 0 then [s[0]] else []) + Ties(cmp, s[1..], x)
  }

  /** r is sorted and keeps equal elements in the order s has them. */
  ghost predicate IsStableSort<T(!new)>(cmp: (T, T) -> int, s: seq<T>, r: seq<T>) {
    Sorted(cmp, r) && forall x :: Ties(cmp, r, x) == Ties(cmp, s, x)
  }

  /** Inserts x before the first element it does not exceed. */
  function Insert<T>(cmp: (T, T) -> int, x: T, s: seq<T>): (r: seq<T>)
    ensures |r| == |s| + 1 && multiset(r) == multiset(s) + multiset{x}
  {
    if s == [] || cmp(x, s[0]) <= 0 then [x] + s
    else
      assert s == [s[0]] + s[1..];
      [s[0]] + Insert(cmp, x, s[1..])
  }

  function StableSort<T>(cmp: (T, T) -> int, s: seq<T>): (r: seq<T>)
    ensures |r| == |s| && multiset(r) == multiset(s)
  {
    if s == [] then []
    else
      assert s == [s[0]] + s[1..];
      Insert(cmp, s[0], StableSort(cmp, s[1..]))
  }

  lemma SortedTail<T>(cmp: (T, T) -> int, s: seq<T>)
    requires Sorted(cmp, s) && s != []
    ensures Sorted(cmp, s[1..])
  {
  }

  lemma SortedCons<T(!new)>(cmp: (T, T) -> int, x: T, s: seq<T>)
    requires TotalPreorder(cmp) && Sorted(cmp, s) && (s == [] || cmp(x, s[0]) <= 0)
    ensures Sorted(cmp, [x] + s)
  {
    forall j | 0 <= j < |s| ensures cmp(x, s[j]) <= 0 {
      assert j > 0 ==> cmp(s[0], s[j]) <= 0;
    }
  }

  lemma {:induction false} InsertSorted<T(!new)>(cmp: (T, T) -> int, x: T, s: seq<T>)
    requires TotalPreorder(cmp) && Sorted(cmp, s)
    ensures Sorted(cmp, Insert(cmp, x, s))
  {
    if s == [] || cmp(x, s[0]) <= 0 {
      SortedCons(cmp, x, s);
    } else {
      SortedTail(cmp, s);
      InsertSorted(cmp, x, s[1..]);
      var r := Insert(cmp, x, s[1..]);
      assert r[0] == x || (s[1..] != [] && r[0] == s[1]);
      SortedCons(cmp, s[0], r);
    }
  }

  lemma TieTrans<T(!new)>(cmp: (T, T) -> int, x: T, y: T, z: T)
    requires TotalPreorder(cmp)
    ensures cmp(y, x) == 0 && cmp(y, z) == 0 ==> cmp(x, z) <= 0
  {
    assert cmp(y, x) == 0 ==> cmp(x, y) <= 0;
  }

  lemma {:induction false} InsertTies<T(!new)>(cmp: (T, T) -> int, x: T, s: seq<T>, y: T)
    requires TotalPreorder(cmp) && Sorted(cmp, s)
    ensures Ties(cmp, Insert(cmp, x, s), y) == Ties(cmp, [x] + s, y)
  {
    if s != [] && cmp(x, s[0]) > 0 {
      SortedTail(cmp, s);
      InsertTies(cmp, x, s[1..], y);
      var r := Insert(cmp, x, s);
      assert r[1..] == Insert(cmp, x, s[1..]);
      assert ([x] + s)[1..] == s;
      assert ([x] + s[1..])[1..] == s[1..];
      TieTrans(cmp, x, y, s[0]);
    }
  }

  /** Insertion from the right is a stable sort. */
  lemma {:induction false} StableSortIsStable<T(!new)>(cmp: (T, T) -> int, s: seq<T>)
    requires TotalPreorder(cmp)
    ensures IsStableSort(cmp, s, StableSort(cmp, s))
  {
    if s != [] {
      StableSortIsStable(cmp, s[1..]);
      var t := StableSort(cmp, s[1..]);
      InsertSorted(cmp, s[0], t);
      forall x ensures Ties(cmp, StableSort(cmp, s), x) == Ties(cmp, s, x) {
        InsertTies(cmp, s[0], t, x);
        assert ([s[0]] + t)[1..] == t;
      }
    }
  }

  lemma {:induction false} TiesMember<T(!new)>(cmp: (T, T) -> int, s: seq<T>, x: T)
    requires TotalPreorder(cmp)
    ensures Ties(cmp, s, x) == [] <==> forall i :: 0 <= i < |s| ==> cmp(x, s[i]) != 0
  {
    if s != [] {
      TiesMember(cmp, s[1..], x);
      assert forall i :: 0 < i < |s| ==> s[i] == s[1..][i - 1];
    }
  }

  lemma OwnTie<T(!new)>(cmp: (T, T) -> int, s: seq<T>)
    requires TotalPreorder(cmp)
    ensures s != [] ==> Ties(cmp, s, s[0]) != []
  {
    if s != [] {
      TiesMember(cmp, s, s[0]);
    }
  }

  /** The stable sort of a sequence is unique, so the contract pins it down. */
  lemma {:induction false} StableSortUnique<T(!new)>(cmp: (T, T) -> int, s: seq<T>, r: seq<T>, t: seq<T>)
    requires TotalPreorder(cmp) && IsStableSort(cmp, s, r) && IsStableSort(cmp, s, t)
    ensures r == t
    decreases |r|
  {
    SameTiesSame(cmp, r, t);
  }

  lemma TiesHead<T(!new)>(cmp: (T, T) -> int, s: seq<T>, x: T)
    requires s != [] && cmp(x, s[0]) == 0
    ensures Ties(cmp, s, x) != [] && Ties(cmp, s, x)[0] == s[0]
  {
  }

  lemma {:induction false} SameTiesSame<T(!new)>(cmp: (T, T) -> int, r: seq<T>, t: seq<T>)
    requires TotalPreorder(cmp) && Sorted(cmp, r) && Sorted(cmp, t)
    requires forall x :: Ties(cmp, r, x) == Ties(cmp, t, x)
    ensures r == t
  {
    OwnTie(cmp, t);
    if r == [] {
      assert t == [];
    } else {
      var a := r[0];
      OwnTie(cmp, r);
      TiesMember(cmp, t, a);
      HeadsTie(cmp, r, t);
      assert cmp(a, a) == 0;
      TiesHead(cmp, r, a);
      TiesHead(cmp, t, a);
      SortedTail(cmp, r);
      SortedTail(cmp, t);
      hide Sorted, TotalPreorder;
      forall x ensures Ties(cmp, r[1..], x) == Ties(cmp, t[1..], x) {
        TailTies(cmp, r, x);
        TailTies(cmp, t, x);
      }
      hide Ties;
      SameTiesSame(cmp, r[1..], t[1..]);
      assert r == [a] + r[1..] && t == [a] + t[1..];
    }
  }

  lemma TailTies<T>(cmp: (T, T) -> int, s: seq<T>, x: T)
    requires s != []
    ensures Ties(cmp, s[1..], x) == if cmp(x, s[0]) == 0 then Ties(cmp, s, x)[1..] else Ties(cmp, s, x)
  {
  }

  lemma HeadsTie<T(!new)>(cmp: (T, T) -> int, r: seq<T>, t: seq<T>)
    requires TotalPreorder(cmp) && Sorted(cmp, r) && Sorted(cmp, t) && r != [] && t != []
    requires Ties(cmp, r, r[0]) == Ties(cmp, t, r[0]) && Ties(cmp, r, t[0]) == Ties(cmp, t, t[0])
    ensures cmp(r[0], t[0]) == 0
  {
    TiesMember(cmp, r, r[0]);
    TiesMember(cmp, t, r[0]);
    TiesMember(cmp, r, t[0]);
    TiesMember(cmp, t, t[0]);
    assert cmp(r[0], r[0]) == 0 && cmp(t[0], t[0]) == 0;
    var i :| 0 <= i < |t| && cmp(r[0], t[i]) == 0;
    var j :| 0 <= j < |r| && cmp(t[0], r[j]) == 0;
    assert cmp(t[0], t[i]) <= 0 && cmp(t[i], r[0]) <= 0;
    assert cmp(r[0], r[j]) <= 0 && cmp(r[j], t[0]) <= 0;
  }

  /** The contract of an unstable in-place sort. */
  method SortFunc<T(!new)>(a: array<T>, cmp: (T, T) -> int)
    requires TotalPreorder(cmp)
    modifies a
    ensures Sorted(cmp, a[..]) && multiset(a[..]) == multiset(old(a[..]))
  {
    SortStableFunc(a, cmp);
  }

  /** The contract of a stable in-place sort. */
  method SortStableFunc<T(!new)>(a: array<T>, cmp: (T, T) -> int)
    requires TotalPreorder(cmp)
    modifies a
    ensures a[..] == StableSort(cmp, old(a[..]))
    ensures IsStableSort(cmp, old(a[..]), a[..]) && multiset(a[..]) == multiset(old(a[..]))
  {
    var r := StableSort(cmp, a[..]);
    StableSortIsStable(cmp, a[..]);
    hide StableSort, IsStableSort, TotalPreorder;
    forall i | 0 <= i < a.Length {
      a[i] := r[i];
    }
    assert a[..] == r;
  }
}
