/**
 * Dictionaries that merge values with equal keys, as the run service and the pipeline use them for
 * candidates (by hash) and for content items (by identity), and why the order of arrival is immaterial.
 */
module Grouping {
  import opened Ordering

  /** Appends, in order, the elements of `other` not yet present: how `merge_from` joins evidence and rankings. */
  function AppendMissing<T(==)>(mine: seq<T>, other: seq<T>): seq<T>
    decreases |other|
  {
    if |other| == 0 then mine
    else AppendMissing(if other[0] in mine then mine else mine + [other[0]], other[1..])
  }

  lemma {:induction false} AppendMissingUnion<T(!new)>(mine: seq<T>, other: seq<T>)
    ensures forall e :: e in AppendMissing(mine, other) <==> e in mine || e in other
    decreases |other|
  {
    if |other| != 0 {
      AppendMissingUnion(if other[0] in mine then mine else mine + [other[0]], other[1..]);
      assert other == [other[0]] + other[1..];
    }
  }

  /** What is held stays in front, and one element more is appended if it is new. */
  lemma {:induction false} AppendMissingOrder<T>(mine: seq<T>, other: seq<T>, x: T)
    ensures mine <= AppendMissing(mine, other)
    ensures var before := AppendMissing(mine, other);
            AppendMissing(mine, other + [x]) == if x in before then before else before + [x]
    decreases |other|
  {
    if |other| == 0 {
      assert ([] + [x])[1..] == [];
    } else {
      AppendMissingOrder(if other[0] in mine then mine else mine + [other[0]], other[1..], x);
      assert (other + [x])[1..] == other[1..] + [x];
    }
  }

  /** Puts a value into the dictionary, joining it onto the value already held for its key. */
  function MergeInto<T, K(==)>(merged: seq<T>, c: T, key: T -> K, join: (T, T) -> T): seq<T> {
    if |merged| == 0 then [c]
    else if key(merged[0]) == key(c) then [join(merged[0], c)] + merged[1..]
    else [merged[0]] + MergeInto(merged[1..], c, key, join)
  }

  /** The dictionary's values in insertion order after a whole batch. */
  function Merged<T, K(==)>(batch: seq<T>, key: T -> K, join: (T, T) -> T): seq<T> {
    if |batch| == 0 then []
    else MergeInto(Merged(batch[..|batch| - 1], key, join), batch[|batch| - 1], key, join)
  }

  /** The members of a batch with a given key, in order. */
  function Group<T, K(==)>(batch: seq<T>, k: K, key: T -> K): seq<T> {
    if |batch| == 0 then []
    else
      var n := |batch| - 1;
      Group(batch[..n], k, key) + if key(batch[n]) == k then [batch[n]] else []
  }

  /** Everything in a group joined onto its first member. */
  function JoinAll<T>(group: seq<T>, join: (T, T) -> T): T
    requires |group| > 0
  {
    if |group| == 1 then group[0] else join(JoinAll(group[..|group| - 1], join), group[|group| - 1])
  }

  ghost predicate KeepsKey<T(!new), K(!new)>(key: T -> K, join: (T, T) -> T) {
    forall a, b :: key(join(a, b)) == key(a)
  }

  ghost predicate DistinctKeys<T, K>(cs: seq<T>, key: T -> K) {
    forall i, j :: 0 <= i < j < |cs| ==> key(cs[i]) != key(cs[j])
  }

  ghost predicate HasKey<T, K>(cs: seq<T>, key: T -> K, k: K) {
    exists i :: 0 <= i < |cs| && key(cs[i]) == k
  }

  lemma {:induction false} GroupMembers<T, K>(batch: seq<T>, k: K, key: T -> K)
    ensures forall i :: 0 <= i < |Group(batch, k, key)|
              ==> Group(batch, k, key)[i] in batch && key(Group(batch, k, key)[i]) == k
    ensures forall i :: 0 <= i < |batch| && key(batch[i]) == k ==> batch[i] in Group(batch, k, key)
    ensures Group(batch, k, key) != [] <==> HasKey(batch, key, k)
  {
    if |batch| != 0 {
      var n := |batch| - 1;
      GroupMembers(batch[..n], k, key);
      forall i | 0 <= i < |batch| && key(batch[i]) == k ensures batch[i] in Group(batch, k, key) {
        if i < n { assert batch[i] == batch[..n][i]; }
      }
    }
  }

  /** What one insertion does: the positions, keys and values of the dictionary. */
  lemma {:induction false} MergeIntoSpec<T(!new), K(!new)>(merged: seq<T>, c: T, key: T -> K, join: (T, T) -> T)
    requires KeepsKey(key, join) && DistinctKeys(merged, key)
    ensures var r := MergeInto(merged, c, key, join);
            && |merged| <= |r| <= |merged| + 1
            && (|r| == |merged| <==> HasKey(merged, key, key(c)))
            && (forall i :: 0 <= i < |merged| ==>
                  r[i] == if key(merged[i]) == key(c) then join(merged[i], c) else merged[i])
            && (|r| > |merged| ==> r[|merged|] == c)
  {
    if |merged| != 0 {
      if key(merged[0]) == key(c) {
      } else {
        MergeIntoSpec(merged[1..], c, key, join);
        if HasKey(merged[1..], key, key(c)) {
          var i :| 0 <= i < |merged[1..]| && key(merged[1..][i]) == key(c);
          assert key(merged[i + 1]) == key(c);
        }
        if HasKey(merged, key, key(c)) {
          var i :| 0 <= i < |merged| && key(merged[i]) == key(c);
          assert key(merged[1..][i - 1]) == key(c);
        }
      }
    }
  }

  /** The dictionary holds each key of the batch once, with that key's group joined in order. */
  ghost predicate MergeOf<T, K>(cs: seq<T>, batch: seq<T>, key: T -> K, join: (T, T) -> T) {
    && DistinctKeys(cs, key)
    && (forall i :: 0 <= i < |batch| ==> HasKey(cs, key, key(batch[i])))
    && (forall i :: 0 <= i < |cs| ==>
          && |Group(batch, key(cs[i]), key)| > 0
          && cs[i] == JoinAll(Group(batch, key(cs[i]), key), join))
  }

  lemma {:induction false} MergedSpec<T(!new), K(!new)>(batch: seq<T>, key: T -> K, join: (T, T) -> T)
    requires KeepsKey(key, join)
    ensures MergeOf(Merged(batch, key, join), batch, key, join)
  {
    if |batch| != 0 {
      var n := |batch| - 1;
      MergedSpec(batch[..n], key, join);
      MergeStep(Merged(batch[..n], key, join), batch, key, join);
    }
  }

  lemma NoGroup<T, K>(merged: seq<T>, batch: seq<T>, k: K, key: T -> K)
    requires forall i :: 0 <= i < |batch| ==> HasKey(merged, key, key(batch[i]))
    requires !HasKey(merged, key, k)
    ensures Group(batch, k, key) == []
  {
    GroupMembers(batch, k, key);
  }

  lemma MergeStep<T(!new), K(!new)>(before: seq<T>, batch: seq<T>, key: T -> K, join: (T, T) -> T)
    requires KeepsKey(key, join) && |batch| > 0
    requires MergeOf(before, batch[..|batch| - 1], key, join)
    ensures MergeOf(MergeInto(before, batch[|batch| - 1], key, join), batch, key, join)
  {
    var n := |batch| - 1;
    var init, c := batch[..n], batch[n];
    var r := MergeInto(before, c, key, join);
    MergeIntoSpec(before, c, key, join);
    forall i | 0 <= i < |before| ensures key(r[i]) == key(before[i]) {
    }
    forall i | 0 <= i < |batch| ensures HasKey(r, key, key(batch[i])) {
      if i < n {
        assert init[i] == batch[i];
        var j :| 0 <= j < |before| && key(before[j]) == key(batch[i]);
        assert key(r[j]) == key(batch[i]);
      } else if HasKey(before, key, key(c)) {
        var j :| 0 <= j < |before| && key(before[j]) == key(c);
        assert key(r[j]) == key(c);
      } else {
        assert key(r[|before|]) == key(c);
      }
    }
    forall i | 0 <= i < |r|
      ensures |Group(batch, key(r[i]), key)| > 0 && r[i] == JoinAll(Group(batch, key(r[i]), key), join)
    {
      var group, group' := Group(init, key(r[i]), key), Group(batch, key(r[i]), key);
      if i < |before| {
        if key(r[i]) == key(c) {
          assert group' == group + [c];
          assert group'[..|group'| - 1] == group;
        } else {
          assert group' == group;
        }
      } else {
        NoGroup(before, init, key(c), key);
        assert group' == [c];
      }
    }
  }

  // ---- The order of arrival ----

  lemma GroupsAgree<T(!new), K>(b1: seq<T>, b2: seq<T>, k: K, key: T -> K)
    requires SameElements(b1, b2)
    ensures SameElements(Group(b1, k, key), Group(b2, k, key))
  {
    GroupMembers(b1, k, key);
    GroupMembers(b2, k, key);
    forall x ensures x in Group(b1, k, key) <==> x in Group(b2, k, key) {
      GroupMember(b1, k, key, x);
      GroupMember(b2, k, key, x);
    }
  }

  lemma GroupMember<T, K>(batch: seq<T>, k: K, key: T -> K, x: T)
    ensures x in Group(batch, k, key) <==> x in batch && key(x) == k
  {
    GroupMembers(batch, k, key);
    if x in batch && key(x) == k {
      var i :| 0 <= i < |batch| && batch[i] == x;
    }
    if x in Group(batch, k, key) {
      var i :| 0 <= i < |Group(batch, k, key)| && Group(batch, k, key)[i] == x;
    }
  }

  function MapAll<T, E>(s: seq<T>, f: T -> E): (r: seq<E>)
    ensures |r| == |s| && forall i :: 0 <= i < |s| ==> r[i] == f(s[i])
  {
    if |s| == 0 then [] else [f(s[0])] + MapAll(s[1..], f)
  }

  /**
   * What sorting a merged batch shows. `view` reads from a merged value everything that is displayed and
   * ranked by; it must depend only on the set of values merged, and rank distinct keys apart.
   */
  ghost predicate ViewOfSet<T(!new), K(!new), V(!new)>(view: T -> V, key: T -> K, join: (T, T) -> T) {
    forall g, h :: |g| > 0 && |h| > 0 && SingleKey(g, key) && SameElements(g, h)
                   ==> view(JoinAll(g, join)) == view(JoinAll(h, join))
  }

  ghost predicate SingleKey<T, K>(g: seq<T>, key: T -> K) {
    forall i, j :: 0 <= i < |g| && 0 <= j < |g| ==> key(g[i]) == key(g[j])
  }

  ghost predicate RanksKeysApart<T(!new), K(!new), V(!new)>(view: T -> V, key: T -> K, le: (V, V) -> bool) {
    forall a, b :: le(view(a), view(b)) && le(view(b), view(a)) ==> key(a) == key(b)
  }

  lemma MergedKeysDistinct<T(!new), K(!new)>(batch: seq<T>, key: T -> K, join: (T, T) -> T)
    requires KeepsKey(key, join)
    ensures DistinctKeys(Merged(batch, key, join), key)
  {
    MergedSpec(batch, key, join);
  }

  /** The sorted views of the merged batch, and that they are strictly sorted. */
  lemma SortedViews<T(!new), K(!new), V(!new)>(batch: seq<T>, key: T -> K, join: (T, T) -> T, view: T -> V,
                                               le: (V, V) -> bool)
    requires KeepsKey(key, join) && TotalPreorder(le) && RanksKeysApart(view, key, le)
    ensures var views := MapAll(Merged(batch, key, join), view);
            && StrictlySorted(Sort(views, le), le)
            && forall v :: v in Sort(views, le) <==> v in views
  {
    hide Merged, MergeOf, Sort, Insert;
    var merged := Merged(batch, key, join);
    var views := MapAll(merged, view);
    MergedKeysDistinct(batch, key, join);
    SortSorted(views, le);
    var differ := (a, b) => !(le(a, b) && le(b, a));
    assert Pairwise(views, differ) by {
      forall i, j | 0 <= i < |views| && 0 <= j < |views| && i != j ensures differ(views[i], views[j]) {
        assert key(merged[i]) != key(merged[j]);
      }
    }
    SortPairwise(views, le, differ);
    var sorted := Sort(views, le);
    forall i, j | 0 <= i < j < |sorted| ensures le(sorted[i], sorted[j]) && !le(sorted[j], sorted[i]) {
      assert differ(sorted[i], sorted[j]);
    }
    forall v ensures v in sorted <==> v in views {
      assert v in sorted <==> v in multiset(sorted);
      assert v in views <==> v in multiset(views);
    }
  }

  lemma ViewCarries<T(!new), K(!new), V(!new)>(b1: seq<T>, b2: seq<T>, key: T -> K, join: (T, T) -> T, view: T -> V,
                                               i: nat)
    requires KeepsKey(key, join) && ViewOfSet(view, key, join) && SameElements(b1, b2)
    requires i < |Merged(b1, key, join)|
    ensures view(Merged(b1, key, join)[i]) in MapAll(Merged(b2, key, join), view)
  {
    hide Merged;
    var m1, m2 := Merged(b1, key, join), Merged(b2, key, join);
    MergedSpec(b1, key, join);
    MergedSpec(b2, key, join);
    var k := key(m1[i]);
    GroupMembers(b1, k, key);
    GroupsAgree(b1, b2, k, key);
    var g1, g2 := Group(b1, k, key), Group(b2, k, key);
    assert g1[0] in g1;
    assert g1[0] in g2;
    GroupMembers(b2, k, key);
    var x :| 0 <= x < |b2| && key(b2[x]) == k;
    assert HasKey(m2, key, key(b2[x]));
    var j :| 0 <= j < |m2| && key(m2[j]) == k;
    assert view(JoinAll(g1, join)) == view(JoinAll(g2, join));
    assert MapAll(m2, view)[j] == view(m2[j]);
  }

  /** Batches with the same elements, in any order and multiplicity, merge and sort to identical views. */
  lemma OrderIsImmaterial<T(!new), K(!new), V(!new)>(b1: seq<T>, b2: seq<T>, key: T -> K, join: (T, T) -> T,
                                                     view: T -> V, le: (V, V) -> bool)
    requires KeepsKey(key, join) && TotalPreorder(le) && RanksKeysApart(view, key, le)
    requires ViewOfSet(view, key, join) && SameElements(b1, b2)
    ensures Sort(MapAll(Merged(b1, key, join), view), le) == Sort(MapAll(Merged(b2, key, join), view), le)
  {
    hide Merged;
    SortedViews(b1, key, join, view, le);
    SortedViews(b2, key, join, view, le);
    var v1, v2 := MapAll(Merged(b1, key, join), view), MapAll(Merged(b2, key, join), view);
    forall v ensures v in v1 <==> v in v2 {
      if v in v1 {
        var i :| 0 <= i < |v1| && v1[i] == v;
        ViewCarries(b1, b2, key, join, view, i);
      }
      if v in v2 {
        var i :| 0 <= i < |v2| && v2[i] == v;
        ViewCarries(b2, b1, key, join, view, i);
      }
    }
    StrictlySortedUnique(Sort(v1, le), Sort(v2, le), le);
  }

  /** Sorting and viewing commute when the sort looks at the view only. */
  lemma {:induction false} InsertCommutes<E, V>(x: E, s: seq<E>, row: E -> V, leE: (E, E) -> bool, leV: (V, V) -> bool)
    requires forall i :: 0 <= i < |s| ==> leE(x, s[i]) == leV(row(x), row(s[i]))
    ensures MapAll(Insert(x, s, leE), row) == Insert(row(x), MapAll(s, row), leV)
  {
    if |s| != 0 {
      assert MapAll(s, row)[1..] == MapAll(s[1..], row);
      if !leE(x, s[0]) {
        InsertCommutes(x, s[1..], row, leE, leV);
      }
    }
  }

  ghost predicate SameOrder<E(!new), V(!new)>(row: E -> V, leE: (E, E) -> bool, leV: (V, V) -> bool) {
    forall a, b :: leE(a, b) == leV(row(a), row(b))
  }

  lemma {:induction false} SortCommutes<E(!new), V(!new)>(s: seq<E>, row: E -> V, leE: (E, E) -> bool,
                                                          leV: (V, V) -> bool)
    requires SameOrder(row, leE, leV)
    ensures MapAll(Sort(s, leE), row) == Sort(MapAll(s, row), leV)
  {
    if |s| != 0 {
      SortCommutes(s[1..], row, leE, leV);
      InsertCommutes(s[0], Sort(s[1..], leE), row, leE, leV);
      assert MapAll(s, row)[1..] == MapAll(s[1..], row);
    }
  }
}
