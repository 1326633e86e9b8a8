/**
 * The items a run works on: discovery results merged by identity, ranked and cut to the first few (models.py,
 * runs/service.py).
 */
module Discovery {
  import opened Ordering
  import opened Evidence
  import opened Grouping
  import Btih

  type Identity = (string, string)

  datatype Ranking = Ranking(source: string, rank: nat, rawKey: string, scope: string)

  /** An item is never without ranking evidence. */
  type Rankings = s: seq<Ranking> | |s| > 0 witness [Ranking("s", 1, "k", "")]

  datatype ContentItem = ContentItem(namespace: string, rawKey: string, normalizedKey: string, rankings: Rankings,
                                     title: string)

  /** `ContentItem.identity`. */
  function IdentityOf(fold: string -> string): ContentItem -> Identity {
    (c: ContentItem) => (fold(Btih.Strip(c.namespace)), fold(Btih.Strip(c.normalizedKey)))
  }

  function MinRank(rankings: Rankings): nat {
    if |rankings| == 1 then rankings[0].rank
    else
      var rest := MinRank(rankings[1..]);
      if rankings[0].rank < rest then rankings[0].rank else rest
  }

  /** What `merge_from` makes of an item, metadata aside. */
  function JoinItems(fold: string -> string): (ContentItem, ContentItem) -> ContentItem {
    (a, b) => Join(fold, a, b)
  }

  function Join(fold: string -> string, a: ContentItem, b: ContentItem): ContentItem {
    AppendMissingUnion(a.rankings, b.rankings);
    assert a.rankings[0] in AppendMissing(a.rankings, b.rankings);
    a.(rankings := AppendMissing(a.rankings, b.rankings),
       title := if TitleLe(fold, b.title, a.title) then a.title else b.title)
  }

  /** What the ranked list shows of an item. */
  datatype Row = Row(identity: Identity, bestRank: nat, title: string)

  function RowOf(fold: string -> string): ContentItem -> Row {
    (c: ContentItem) => Row(IdentityOf(fold)(c), MinRank(c.rankings), c.title)
  }

  /** Tuple order: best rank first, then namespace, then key. */
  predicate RowLe(a: Row, b: Row) {
    if a.bestRank != b.bestRank then a.bestRank < b.bestRank
    else if a.identity.0 != b.identity.0 then StrLe(a.identity.0, b.identity.0)
    else StrLe(a.identity.1, b.identity.1)
  }

  predicate ItemLe(fold: string -> string, a: ContentItem, b: ContentItem) {
    RowLe(RowOf(fold)(a), RowOf(fold)(b))
  }

  /** `_merge_items(values)[:top_n]`. */
  function TopItems(fold: string -> string, values: seq<ContentItem>, topN: nat): seq<ContentItem> {
    var sorted := Sort(Merged(values, IdentityOf(fold), JoinItems(fold)), (a, b) => ItemLe(fold, a, b));
    if topN < |sorted| then sorted[..topN] else sorted
  }

  /** An item as `_merge_items` holds it: `merge_from` extends it in place. */
  class ItemObject {
    const namespace: string
    const rawKey: string
    const normalizedKey: string
    var rankings: Rankings
    var title: string

    constructor (c: ContentItem)
      ensures Value() == c
    {
      namespace, rawKey, normalizedKey := c.namespace, c.rawKey, c.normalizedKey;
      rankings, title := c.rankings, c.title;
    }

    function Value(): ContentItem
      reads this
    {
      ContentItem(namespace, rawKey, normalizedKey, rankings, title)
    }

    method MergeFrom(fold: string -> string, other: ContentItem) returns (ok: bool)
      modifies this
      ensures ok <==> IdentityOf(fold)(old(Value())) == IdentityOf(fold)(other)
      ensures Value() == if ok then Join(fold, old(Value()), other) else old(Value())
    {
      hide TitleLe;
      if IdentityOf(fold)(Value()) != IdentityOf(fold)(other) {
        return false;
      }
      ok := true;
      for i := 0 to |other.rankings|
        invariant title == old(title)
        invariant AppendMissing(rankings, other.rankings[i..]) == AppendMissing(old(rankings), other.rankings)
      {
        assert other.rankings[i..][0] == other.rankings[i] && other.rankings[i..][1..] == other.rankings[i + 1..];
        if other.rankings[i] !in rankings {
          rankings := rankings + [other.rankings[i]];
        }
      }
      assert other.rankings[|other.rankings|..] == [];
      if !TitleLe(fold, other.title, title) {
        title := other.title;
      }
    }
  }

  /** `_merge_items`. */
  method MergeItems(fold: string -> string, values: seq<ContentItem>, topN: nat) returns (items: seq<ContentItem>)
    ensures items == TopItems(fold, values, topN)
  {
    hide MergeInto, ItemLe;
    var merged: seq<ContentItem> := [];
    for i := 0 to |values|
      invariant merged == Merged(values[..i], IdentityOf(fold), JoinItems(fold))
    {
      assert values[..i + 1][..i] == values[..i];
      merged := MergeInto(merged, values[i], IdentityOf(fold), JoinItems(fold));
    }
    assert values[..|values|] == values;
    items := Sort(merged, (a, b) => ItemLe(fold, a, b));
    if topN < |items| {
      items := items[..topN];
    }
  }

  // ---- The result does not depend on discovery order ----

  lemma {:induction false} MinRankIsMin(rankings: Rankings)
    ensures exists r :: r in rankings && r.rank == MinRank(rankings)
    ensures forall r :: r in rankings ==> MinRank(rankings) <= r.rank
  {
    assert rankings[0] in rankings;
    if |rankings| > 1 {
      MinRankIsMin(rankings[1..]);
      assert rankings == [rankings[0]] + rankings[1..];
    }
  }

  lemma MinRankCanonical(r1: Rankings, r2: Rankings)
    requires SameElements(r1, r2)
    ensures MinRank(r1) == MinRank(r2)
  {
    MinRankIsMin(r1);
    MinRankIsMin(r2);
  }

  /** Joining a group collects the rankings of its members and the greatest of their titles. */
  lemma {:induction false} JoinedGroup(fold: string -> string, g: seq<ContentItem>)
    requires |g| > 0
    ensures var all := JoinAll(g, JoinItems(fold));
            && IdentityOf(fold)(all) == IdentityOf(fold)(g[0])
            && (forall r :: r in all.rankings <==> exists c :: c in g && r in c.rankings)
            && (exists c :: c in g && c.title == all.title)
            && (forall c :: c in g ==> TitleLe(fold, c.title, all.title))
  {
    hide TitleLe, AppendMissing;
    TitleLeOrder(fold);
    if |g| > 1 {
      var init, last := g[..|g| - 1], g[|g| - 1];
      JoinedGroup(fold, init);
      AppendMissingUnion(JoinAll(init, JoinItems(fold)).rankings, last.rankings);
      assert g == init + [last];
      assert last in g;
    } else {
      assert g[0] in g;
      assert forall c :: c in g ==> c == g[0];
    }
  }

  lemma RowsOfSet(fold: string -> string)
    ensures ViewOfSet(RowOf(fold), IdentityOf(fold), JoinItems(fold))
  {
    hide TitleLe, JoinAll, MinRank;
    forall g: seq<ContentItem>, h: seq<ContentItem>
      | |g| > 0 && |h| > 0 && SingleKey(g, IdentityOf(fold)) && SameElements(g, h)
      ensures RowOf(fold)(JoinAll(g, JoinItems(fold))) == RowOf(fold)(JoinAll(h, JoinItems(fold)))
    {
      JoinedGroup(fold, g);
      JoinedGroup(fold, h);
      assert h[0] in h;
      assert h[0] in g;
      MinRankCanonical(JoinAll(g, JoinItems(fold)).rankings, JoinAll(h, JoinItems(fold)).rankings);
      TitleLeOrder(fold);
    }
  }

  lemma RowLeOrder(fold: string -> string)
    ensures TotalPreorder(RowLe)
    ensures RanksKeysApart(RowOf(fold), IdentityOf(fold), RowLe)
  {
    hide MinRank;
    StrLeOrder();
  }

  /** The rows of the first `topN` items are the first `topN` of the sorted rows. */
  lemma TopRows(fold: string -> string, values: seq<ContentItem>, topN: nat)
    ensures var rows := Sort(MapAll(Merged(values, IdentityOf(fold), JoinItems(fold)), RowOf(fold)), RowLe);
            MapAll(TopItems(fold, values, topN), RowOf(fold)) == if topN < |rows| then rows[..topN] else rows
  {
    hide RowLe, Merged;
    SortCommutes(Merged(values, IdentityOf(fold), JoinItems(fold)), RowOf(fold), (a, b) => ItemLe(fold, a, b), RowLe);
  }

  /** Identities, best ranks and titles of the chosen items are the same for every order of discovery. */
  lemma DiscoveryOrderIsImmaterial(fold: string -> string, v1: seq<ContentItem>, v2: seq<ContentItem>, topN: nat)
    requires SameElements(v1, v2)
    ensures MapAll(TopItems(fold, v1, topN), RowOf(fold)) == MapAll(TopItems(fold, v2, topN), RowOf(fold))
  {
    hide RowLe, Merged, TopItems, IdentityOf, RowOf;
    JoinKeepsIdentity(fold);
    RowLeOrder(fold);
    RowsOfSet(fold);
    OrderIsImmaterial(v1, v2, IdentityOf(fold), JoinItems(fold), RowOf(fold), RowLe);
    TopRows(fold, v1, topN);
    TopRows(fold, v2, topN);
  }

  lemma JoinKeepsIdentity(fold: string -> string)
    ensures KeepsKey(IdentityOf(fold), JoinItems(fold))
  {
  }

  /** The chosen items are the first of the merged ones: as many as allowed, and none left out has a better rank. */
  lemma TopItemsLead(fold: string -> string, values: seq<ContentItem>, topN: nat)
    ensures var merged, top := Merged(values, IdentityOf(fold), JoinItems(fold)), TopItems(fold, values, topN);
            && |top| == (if topN < |merged| then topN else |merged|)
            && (forall a :: a in top ==> a in merged)
            && (forall a, b :: a in top && b in merged && b !in top ==> MinRank(a.rankings) <= MinRank(b.rankings))
  {
    hide Merged, MinRank, IdentityOf, RowLe, ItemLe, Sort, Insert;
    var le := (a: ContentItem, b: ContentItem) => ItemLe(fold, a, b);
    var merged, top := Merged(values, IdentityOf(fold), JoinItems(fold)), TopItems(fold, values, topN);
    var sorted := Sort(merged, le);
    ItemLeOrder(fold);
    SortSorted(merged, le);
    forall x ensures x in sorted <==> x in merged {
      assert x in multiset(sorted) <==> x in multiset(merged);
    }
    forall a, b | a in top && b in merged && b !in top ensures MinRank(a.rankings) <= MinRank(b.rankings) {
      var i :| 0 <= i < |top| && top[i] == a;
      var j :| 0 <= j < |sorted| && sorted[j] == b;
      assert j >= |top|;
      assert le(sorted[i], sorted[j]);
      ItemLeRank(fold, a, b);
    }
  }

  lemma ItemLeOrder(fold: string -> string)
    ensures TotalPreorder((a: ContentItem, b: ContentItem) => ItemLe(fold, a, b))
  {
    hide RowLe, RowOf;
    RowLeOrder(fold);
  }

  lemma ItemLeRank(fold: string -> string, a: ContentItem, b: ContentItem)
    requires ItemLe(fold, a, b)
    ensures MinRank(a.rankings) <= MinRank(b.rankings)
  {
  }

  // ---- What the merged items are ----

  /** Two items are one if namespace and key agree, blanks around them and case aside. */
  ghost predicate Same(fold: string -> string, a: ContentItem, b: ContentItem) {
    && fold(Btih.Strip(a.namespace)) == fold(Btih.Strip(b.namespace))
    && fold(Btih.Strip(a.normalizedKey)) == fold(Btih.Strip(b.normalizedKey))
  }

  ghost predicate NoBetterTitle(fold: string -> string, title: string, other: string) {
    && |other| <= |title|
    && (|other| == |title| ==> StrLe(fold(other), fold(title)))
    && (|other| == |title| && fold(other) == fold(title) ==> StrLe(other, title))
  }

  /** A merged item holds the rankings of all its reports, and the best of their titles. */
  ghost predicate Merges(fold: string -> string, values: seq<ContentItem>, m: ContentItem) {
    && (forall r :: r in m.rankings <==> exists v :: v in values && Same(fold, v, m) && r in v.rankings)
    && (exists v :: v in values && Same(fold, v, m) && v.title == m.title)
    && (forall v :: v in values && Same(fold, v, m) ==> NoBetterTitle(fold, m.title, v.title))
  }

  /** Merging leaves each item once, with everything reported of it. */
  lemma MergedItemsMean(fold: string -> string, values: seq<ContentItem>)
    ensures var merged := Merged(values, IdentityOf(fold), JoinItems(fold));
            && (forall i, j :: 0 <= i < j < |merged| ==> !Same(fold, merged[i], merged[j]))
            && (forall v :: v in values ==> exists m :: m in merged && Same(fold, v, m))
            && (forall m :: m in merged ==> Merges(fold, values, m))
  {
    hide Merged, JoinAll, JoinItems, Group, Merges;
    var merged := Merged(values, IdentityOf(fold), JoinItems(fold));
    JoinKeepsIdentity(fold);
    MergedSpec(values, IdentityOf(fold), JoinItems(fold));
    forall i, j | 0 <= i < j < |merged| ensures !Same(fold, merged[i], merged[j]) {
      assert IdentityOf(fold)(merged[i]) != IdentityOf(fold)(merged[j]);
    }
    forall v | v in values ensures exists m :: m in merged && Same(fold, v, m) {
      var i :| 0 <= i < |values| && values[i] == v;
      assert HasKey(merged, IdentityOf(fold), IdentityOf(fold)(values[i]));
      var j :| 0 <= j < |merged| && IdentityOf(fold)(merged[j]) == IdentityOf(fold)(v);
      assert merged[j] in merged;
    }
    forall m | m in merged ensures Merges(fold, values, m) {
      var i :| 0 <= i < |merged| && merged[i] == m;
      MergesGroup(fold, values, m);
    }
  }

  lemma MergesGroup(fold: string -> string, values: seq<ContentItem>, m: ContentItem)
    requires var group := Group(values, IdentityOf(fold)(m), IdentityOf(fold));
             |group| > 0 && m == JoinAll(group, JoinItems(fold))
    ensures Merges(fold, values, m)
  {
    hide JoinAll, JoinItems, Group;
    var group := Group(values, IdentityOf(fold)(m), IdentityOf(fold));
    JoinedGroup(fold, group);
    GroupMembers(values, IdentityOf(fold)(m), IdentityOf(fold));
    forall v ensures v in group <==> v in values && Same(fold, v, m) {
      if v in group {
        var i :| 0 <= i < |group| && group[i] == v;
        assert group[i] in values && IdentityOf(fold)(group[i]) == IdentityOf(fold)(m);
      }
      if v in values && Same(fold, v, m) {
        var i :| 0 <= i < |values| && values[i] == v;
        assert values[i] in group;
      }
    }
  }

  ghost predicate BestRanking(c: ContentItem, r: Ranking) {
    r in c.rankings && forall x :: x in c.rankings ==> r.rank <= x.rank
  }

  /** `a` may come before `b`: a better best rank, or the same and an earlier namespace, or an earlier key. */
  ghost predicate Leads(fold: string -> string, a: ContentItem, b: ContentItem) {
    var namespace, namespace' := fold(Btih.Strip(a.namespace)), fold(Btih.Strip(b.namespace));
    var key, key' := fold(Btih.Strip(a.normalizedKey)), fold(Btih.Strip(b.normalizedKey));
    exists r, s :: BestRanking(a, r) && BestRanking(b, s) &&
                   if r.rank != s.rank then r.rank < s.rank
                   else if namespace != namespace' then StrLe(namespace, namespace')
                   else StrLe(key, key')
  }

  lemma ItemLeLeads(fold: string -> string, a: ContentItem, b: ContentItem)
    requires ItemLe(fold, a, b)
    ensures Leads(fold, a, b)
  {
    hide MinRank, StrLe;
    MinRankIsMin(a.rankings);
    MinRankIsMin(b.rankings);
    var r :| r in a.rankings && r.rank == MinRank(a.rankings);
    var s :| s in b.rankings && s.rank == MinRank(b.rankings);
    assert BestRanking(a, r) && BestRanking(b, s);
    var x, y := RowOf(fold)(a), RowOf(fold)(b);
    assert x.bestRank == r.rank && y.bestRank == s.rank;
    assert x.identity == IdentityOf(fold)(a) && y.identity == IdentityOf(fold)(b);
    assert RowLe(x, y);
  }

  /** The chosen items are in order of best rank, then namespace, then key. */
  lemma TopItemsOrdered(fold: string -> string, values: seq<ContentItem>, topN: nat, i: nat, j: nat)
    requires i < j < |TopItems(fold, values, topN)|
    ensures var top := TopItems(fold, values, topN); Leads(fold, top[i], top[j])
  {
    hide Merged, ItemLe, Sort, Insert, Leads;
    var le := (a: ContentItem, b: ContentItem) => ItemLe(fold, a, b);
    var merged := Merged(values, IdentityOf(fold), JoinItems(fold));
    ItemLeOrder(fold);
    SortSorted(merged, le);
    var sorted := Sort(merged, le);
    assert le(sorted[i], sorted[j]);
    ItemLeLeads(fold, sorted[i], sorted[j]);
  }
}
