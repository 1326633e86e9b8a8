/** Python's ordering of strings, its stable sort, and `sorted` over a set. */
module Ordering {

  /** `a <= b`, comparing code points left to right. */
  predicate StrLe(a: string, b: string) {
    |a| == 0 || (|b| != 0 && (a[0] < b[0] || (a[0] == b[0] && StrLe(a[1..], b[1..]))))
  }

  lemma {:induction false} StrLeTotal(a: string, b: string)
    ensures StrLe(a, b) || StrLe(b, a)
    ensures StrLe(a, a)
  {
    if |a| != 0 {
      StrLeTotal(a[1..], if |b| != 0 then b[1..] else b);
    }
  }

  lemma {:induction false} StrLeAntisymmetric(a: string, b: string)
    requires StrLe(a, b) && StrLe(b, a)
    ensures a == b
  {
    if |a| != 0 && |b| != 0 {
      StrLeAntisymmetric(a[1..], b[1..]);
      assert a == [a[0]] + a[1..] && b == [b[0]] + b[1..];
    }
  }

  lemma {:induction false} StrLeTransitive(a: string, b: string, c: string)
    requires StrLe(a, b) && StrLe(b, c)
    ensures StrLe(a, c)
  {
    if |a| != 0 && a[0] == b[0] == c[0] {
      StrLeTransitive(a[1..], b[1..], c[1..]);
    }
  }

  /** Strings compare where they first differ; a proper prefix comes first. */
  lemma {:induction false} StrLeMeans(a: string, b: string)
    ensures StrLe(a, b) <==> a <= b || exists k :: 0 <= k < |a| && k < |b| && a[..k] == b[..k] && a[k] < b[k]
  {
    if |a| != 0 && |b| != 0 && a[0] == b[0] {
      StrLeMeans(a[1..], b[1..]);
      assert a == [a[0]] + a[1..] && b == [b[0]] + b[1..];
      if k :| 0 <= k < |a[1..]| && k < |b[1..]| && a[1..][..k] == b[1..][..k] && a[1..][k] < b[1..][k] {
        assert a[..k + 1] == [a[0]] + a[1..][..k] && b[..k + 1] == [b[0]] + b[1..][..k];
        assert a[k + 1] < b[k + 1];
      }
      if k :| 0 <= k < |a| && k < |b| && a[..k] == b[..k] && a[k] < b[k] {
        assert k > 0;
        assert a[1..][..k - 1] == a[..k][1..] && b[1..][..k - 1] == b[..k][1..];
        assert a[1..][k - 1] < b[1..][k - 1];
      }
    } else if |a| != 0 && |b| != 0 {
      assert a[..0] == b[..0];
      assert forall k :: 0 < k < |a| && k < |b| && a[..k] == b[..k] ==> a[..k][0] == b[..k][0];
    }
  }

  ghost predicate TotalPreorder<T(!new)>(le: (T, T) -> bool) {
    && (forall x, y :: le(x, y) || le(y, x))
    && (forall x, y, z :: le(x, y) && le(y, z) ==> le(x, z))
  }

  /** Sorted, stated on neighbours-or-further pairs. */
  ghost predicate Sorted<T(!new)>(s: seq<T>, le: (T, T) -> bool) {
    forall i, j :: 0 <= i < j < |s| ==> le(s[i], s[j])
  }

  function Insert<T>(x: T, s: seq<T>, le: (T, T) -> bool): (r: seq<T>)
    ensures multiset(r) == multiset{x} + multiset(s)
    ensures |r| == |s| + 1
  {
    if |s| == 0 || le(x, s[0]) then [x] + s
    else
      assert s == [s[0]] + s[1..];
      [s[0]] + Insert(x, s[1..], le)
  }

  /** The stable sort behind `list.sort` and `sorted`. */
  function Sort<T>(s: seq<T>, le: (T, T) -> bool): (r: seq<T>)
    ensures multiset(r) == multiset(s)
    ensures |r| == |s|
  {
    if |s| == 0 then []
    else
      assert s == [s[0]] + s[1..];
      Insert(s[0], Sort(s[1..], le), le)
  }

  lemma {:induction false} InsertSorted<T(!new)>(x: T, s: seq<T>, le: (T, T) -> bool)
    requires TotalPreorder(le) && Sorted(s, le)
    ensures Sorted(Insert(x, s, le), le)
  {
    if |s| != 0 && !le(x, s[0]) {
      InsertSorted(x, s[1..], le);
      var rest := Insert(x, s[1..], le);
      forall j | 0 <= j < |rest| ensures le(s[0], rest[j]) {
        assert rest[j] in multiset(rest);
        assert rest[j] in multiset{x} + multiset(s[1..]);
      }
    }
  }

  lemma {:induction false} SortSorted<T(!new)>(s: seq<T>, le: (T, T) -> bool)
    requires TotalPreorder(le)
    ensures Sorted(Sort(s, le), le)
  {
    if |s| != 0 {
      SortSorted(s[1..], le);
      InsertSorted(s[0], Sort(s[1..], le), le);
    }
  }

  /** Sorting what is sorted already changes nothing, duplicates included. */
  lemma {:induction false} SortIdempotent<T(!new)>(s: seq<T>, le: (T, T) -> bool)
    requires Sorted(s, le)
    ensures Sort(s, le) == s
  {
    if |s| != 0 {
      SortIdempotent(s[1..], le);
      assert s == [s[0]] + s[1..];
    }
  }

  /** The same set of elements, in any order and multiplicity. */
  ghost predicate SameElements<T(!new)>(s: seq<T>, t: seq<T>) {
    forall x :: x in s <==> x in t
  }

  /** A symmetric relation between all distinct positions. */
  ghost predicate Pairwise<T(!new)>(s: seq<T>, differ: (T, T) -> bool) {
    forall i, j :: 0 <= i < |s| && 0 <= j < |s| && i != j ==> differ(s[i], s[j])
  }

  lemma {:induction false} InsertPairwise<T(!new)>(x: T, s: seq<T>, le: (T, T) -> bool, differ: (T, T) -> bool)
    requires Pairwise(s, differ) && forall i :: 0 <= i < |s| ==> differ(x, s[i]) && differ(s[i], x)
    ensures Pairwise(Insert(x, s, le), differ)
  {
    if |s| != 0 && !le(x, s[0]) {
      InsertPairwise(x, s[1..], le, differ);
      var rest := Insert(x, s[1..], le);
      forall j | 0 <= j < |rest| ensures differ(s[0], rest[j]) && differ(rest[j], s[0]) {
        assert rest[j] in multiset(rest);
        if rest[j] != x {
          assert rest[j] in s[1..];
        }
      }
    }
  }

  /** Sorting keeps what holds between all pairs. */
  lemma {:induction false} SortPairwise<T(!new)>(s: seq<T>, le: (T, T) -> bool, differ: (T, T) -> bool)
    requires Pairwise(s, differ)
    ensures Pairwise(Sort(s, le), differ)
  {
    if |s| != 0 {
      SortPairwise(s[1..], le, differ);
      var rest := Sort(s[1..], le);
      forall i | 0 <= i < |rest| ensures differ(s[0], rest[i]) && differ(rest[i], s[0]) {
        assert rest[i] in multiset(rest);
        assert rest[i] in s[1..];
      }
      InsertPairwise(s[0], rest, le, differ);
    }
  }

  ghost predicate StrictlySorted<T(!new)>(s: seq<T>, le: (T, T) -> bool) {
    forall i, j :: 0 <= i < j < |s| ==> le(s[i], s[j]) && !le(s[j], s[i])
  }

  lemma HasMember<T>(s: seq<T>)
    ensures s == [] || exists x :: x in s
  {
    if s != [] { assert s[0] in s; }
  }

  /** A strictly sorted sequence is determined by its set of elements. */
  lemma {:induction false} StrictlySortedUnique<T(!new)>(s: seq<T>, t: seq<T>, le: (T, T) -> bool)
    requires StrictlySorted(s, le) && StrictlySorted(t, le)
    requires forall x :: x in s <==> x in t
    ensures s == t
  {
    if |s| == 0 {
      HasMember(t);
    } else {
      assert s[0] in t;
      assert t[0] in s;
      assert s[0] == t[0];
      forall x ensures x in s[1..] <==> x in t[1..] {
        assert s == [s[0]] + s[1..] && t == [t[0]] + t[1..];
        if x in s[1..] {
          var i :| 1 <= i < |s| && s[i] == x;
          assert le(s[0], s[i]) && !le(s[i], s[0]);
          assert x in t;
        }
        if x in t[1..] {
          var i :| 1 <= i < |t| && t[i] == x;
          assert le(t[0], t[i]) && !le(t[i], t[0]);
          assert x in s;
        }
      }
      StrictlySortedUnique(s[1..], t[1..], le);
      assert s == [s[0]] + s[1..] && t == [t[0]] + t[1..];
    }
  }

  /** `sorted(set(s))` for strings under a given order. */
  function InsertUnique(x: string, s: seq<string>, le: (string, string) -> bool): seq<string> {
    if |s| == 0 then [x]
    else if x == s[0] then s
    else if le(x, s[0]) then [x] + s
    else [s[0]] + InsertUnique(x, s[1..], le)
  }

  function SortedSet(s: seq<string>, le: (string, string) -> bool): seq<string> {
    if |s| == 0 then [] else InsertUnique(s[0], SortedSet(s[1..], le), le)
  }

  ghost predicate TotalOrder<T(!new)>(le: (T, T) -> bool) {
    TotalPreorder(le) && forall x, y :: le(x, y) && le(y, x) ==> x == y
  }

  lemma StrLeOrder()
    ensures TotalOrder(StrLe)
  {
    forall x: string, y: string ensures StrLe(x, y) || StrLe(y, x) { StrLeTotal(x, y); }
    forall x, y, z | StrLe(x, y) && StrLe(y, z) ensures StrLe(x, z) { StrLeTransitive(x, y, z); }
    forall x, y | StrLe(x, y) && StrLe(y, x) ensures x == y { StrLeAntisymmetric(x, y); }
  }

  lemma {:induction false} InsertUniqueSorted(x: string, s: seq<string>, le: (string, string) -> bool)
    requires TotalOrder(le) && StrictlySorted(s, le)
    ensures StrictlySorted(InsertUnique(x, s, le), le)
    ensures forall y :: y in InsertUnique(x, s, le) <==> y == x || y in s
  {
    if |s| == 0 || x == s[0] {
    } else if le(x, s[0]) {
      forall j | 0 <= j < |s| ensures le(x, s[j]) && !le(s[j], x) {
        assert j > 0 ==> le(s[0], s[j]) && !le(s[j], s[0]);
      }
    } else {
      InsertUniqueSorted(x, s[1..], le);
      assert s == [s[0]] + s[1..];
      var rest := InsertUnique(x, s[1..], le);
      forall j | 0 <= j < |rest| ensures le(s[0], rest[j]) && !le(rest[j], s[0]) {
        assert rest[j] in rest;
        if rest[j] != x {
          var i :| 1 <= i < |s| && s[i] == rest[j];
        }
      }
    }
  }

  lemma {:induction false} SortedSetSorted(s: seq<string>, le: (string, string) -> bool)
    requires TotalOrder(le)
    ensures StrictlySorted(SortedSet(s, le), le)
    ensures forall y :: y in SortedSet(s, le) <==> y in s
  {
    if |s| != 0 {
      SortedSetSorted(s[1..], le);
      InsertUniqueSorted(s[0], SortedSet(s[1..], le), le);
      assert s == [s[0]] + s[1..];
    }
  }

  /** `sorted(set(..))` depends on nothing but the set. */
  lemma SortedSetCanonical(s: seq<string>, t: seq<string>, le: (string, string) -> bool)
    requires TotalOrder(le)
    requires forall x :: x in s <==> x in t
    ensures SortedSet(s, le) == SortedSet(t, le)
  {
    SortedSetSorted(s, le);
    SortedSetSorted(t, le);
    StrictlySortedUnique(SortedSet(s, le), SortedSet(t, le), le);
  }
}
