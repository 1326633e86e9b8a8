/**
 * What several providers report about one magnet, and the aggregates read off it (models.py), together
 * with the second implementation of the same aggregates over stored rows (db/repository.py).
 * `fold` stands for Unicode case folding throughout.
 */
module Evidence {
  import opened Wrappers
  import opened Ordering
  import Paths

  datatype Truth = Yes | No | Unknown

  datatype Evidence = Evidence(
    source: string,
    magnetUri: string,
    title: string,
    size: Option<real>,
    seeders: Option<nat>,
    chineseSubtitles: Truth,
    uncensored: Truth,
    uhd: Truth,
    notes: seq<string>)

  // ---- Orders on titles ----

  /** By case-folded text, then by the text itself. */
  predicate FoldedLe(fold: string -> string, a: string, b: string) {
    StrLe(fold(a), fold(b)) && (fold(a) == fold(b) ==> StrLe(a, b))
  }

  /** By length, then by case-folded text, then by the text itself. */
  predicate TitleLe(fold: string -> string, a: string, b: string) {
    |a| < |b| || (|a| == |b| && FoldedLe(fold, a, b))
  }

  lemma FoldedLeOrder(fold: string -> string)
    ensures TotalOrder((a, b) => FoldedLe(fold, a, b))
    ensures forall a, b :: FoldedLe(fold, a, b) || FoldedLe(fold, b, a)
    ensures forall a, b, c :: FoldedLe(fold, a, b) && FoldedLe(fold, b, c) ==> FoldedLe(fold, a, c)
    ensures forall a, b :: FoldedLe(fold, a, b) && FoldedLe(fold, b, a) ==> a == b
  {
    StrLeOrder();
    forall a, b, c | FoldedLe(fold, a, b) && FoldedLe(fold, b, c) ensures FoldedLe(fold, a, c) {
      assert StrLe(fold(a), fold(c));
    }
  }

  lemma TitleLeOrder(fold: string -> string)
    ensures forall a, b :: TitleLe(fold, a, b) || TitleLe(fold, b, a)
    ensures forall a, b, c :: TitleLe(fold, a, b) && TitleLe(fold, b, c) ==> TitleLe(fold, a, c)
    ensures forall a, b :: TitleLe(fold, a, b) && TitleLe(fold, b, a) ==> a == b
  {
    FoldedLeOrder(fold);
  }

  // ---- Aggregates of a list of evidence ----

  function Titles(evidence: seq<Evidence>): seq<string> {
    if |evidence| == 0 then [] else [evidence[0].title] + Titles(evidence[1..])
  }

  function MaxTitle(fold: string -> string, titles: seq<string>): string {
    if |titles| == 0 then ""
    else
      var rest := MaxTitle(fold, titles[1..]);
      if TitleLe(fold, titles[0], rest) then rest else titles[0]
  }

  /** `Candidate.title`: the greatest non-empty title. */
  function Title(fold: string -> string, evidence: seq<Evidence>): string {
    MaxTitle(fold, Paths.NonEmpty(Titles(evidence)))
  }

  /** The distinct non-empty titles. */
  function Lines(fold: string -> string, evidence: seq<Evidence>): seq<string> {
    SortedSet(Paths.NonEmpty(Titles(evidence)), (a, b) => FoldedLe(fold, a, b))
  }

  /** `Candidate.search_text`: one title a line. */
  function SearchText(fold: string -> string, evidence: seq<Evidence>): string {
    Paths.Join(Lines(fold, evidence), '\n')
  }

  function SourceNames(evidence: seq<Evidence>): seq<string> {
    if |evidence| == 0 then [] else [evidence[0].source] + SourceNames(evidence[1..])
  }

  /** `Candidate.sources`. */
  function Sources(fold: string -> string, evidence: seq<Evidence>): seq<string> {
    SortedSet(SourceNames(evidence), (a, b) => FoldedLe(fold, a, b))
  }

  /** The only element of a set that has exactly one. */
  function Unanimous<T(==)>(values: seq<T>): Option<T> {
    if |values| != 0 && forall i :: 0 <= i < |values| ==> values[i] == values[0] then Some(values[0]) else None
  }

  function Sizes(evidence: seq<Evidence>): seq<real> {
    if |evidence| == 0 then []
    else (if evidence[0].size.Some? then [evidence[0].size.value] else []) + Sizes(evidence[1..])
  }

  /** `Candidate.size_mb`. */
  function Size(evidence: seq<Evidence>): Option<real> {
    Unanimous(Sizes(evidence))
  }

  /** `Candidate.seeders`: the greatest known count. */
  function Seeders(evidence: seq<Evidence>): Option<nat> {
    if |evidence| == 0 then None
    else
      var rest := Seeders(evidence[1..]);
      if evidence[0].seeders.None? then rest
      else if rest.None? || evidence[0].seeders.value > rest.value then evidence[0].seeders else rest
  }

  datatype Field = ChineseSubtitles | Uncensored | Uhd

  function TruthOf(e: Evidence, field: Field): Truth {
    match field
    case ChineseSubtitles => e.chineseSubtitles
    case Uncensored => e.uncensored
    case Uhd => e.uhd
  }

  function Known(evidence: seq<Evidence>, field: Field): seq<Truth> {
    if |evidence| == 0 then []
    else
      (if TruthOf(evidence[0], field) != Unknown then [TruthOf(evidence[0], field)] else [])
      + Known(evidence[1..], field)
  }

  /** `Candidate._truth_value`: the value all sources that know agree on. */
  function Agreed(evidence: seq<Evidence>, field: Field): Truth {
    var r := Unanimous(Known(evidence, field));
    if r.Some? then r.value else Unknown
  }

  /** Everything a candidate's rank, verdict and display depend on. */
  datatype Aggregate = Aggregate(
    title: string,
    searchText: string,
    sources: seq<string>,
    size: Option<real>,
    seeders: Option<nat>,
    chineseSubtitles: Truth,
    uncensored: Truth,
    uhd: Truth)

  function AggregateOf(fold: string -> string, evidence: seq<Evidence>): Aggregate {
    Aggregate(Title(fold, evidence), SearchText(fold, evidence), Sources(fold, evidence),
              Size(evidence), Seeders(evidence),
              Agreed(evidence, ChineseSubtitles), Agreed(evidence, Uncensored), Agreed(evidence, Uhd))
  }

  // ---- Aggregates depend on the set of evidence only ----

  lemma {:induction false} TitlesMembers(evidence: seq<Evidence>)
    ensures forall x :: x in Titles(evidence) <==> exists e :: e in evidence && e.title == x
  {
    if |evidence| != 0 {
      TitlesMembers(evidence[1..]);
      assert evidence == [evidence[0]] + evidence[1..];
    }
  }

  lemma {:induction false} SourceMembers(evidence: seq<Evidence>)
    ensures forall x :: x in SourceNames(evidence) <==> exists e :: e in evidence && e.source == x
  {
    if |evidence| != 0 {
      SourceMembers(evidence[1..]);
      assert evidence == [evidence[0]] + evidence[1..];
    }
  }

  lemma {:induction false} SizesMembers(evidence: seq<Evidence>)
    ensures forall x :: x in Sizes(evidence) <==> exists e :: e in evidence && e.size == Some(x)
  {
    if |evidence| != 0 {
      SizesMembers(evidence[1..]);
      assert evidence == [evidence[0]] + evidence[1..];
    }
  }

  lemma {:induction false} KnownMembers(evidence: seq<Evidence>, field: Field)
    ensures forall x :: x in Known(evidence, field)
              <==> x != Unknown && exists e :: e in evidence && TruthOf(e, field) == x
  {
    if |evidence| != 0 {
      KnownMembers(evidence[1..], field);
      assert evidence == [evidence[0]] + evidence[1..];
    }
  }

  lemma {:induction false} MaxTitleIsMax(fold: string -> string, titles: seq<string>)
    ensures titles == [] ==> MaxTitle(fold, titles) == ""
    ensures titles != [] ==> MaxTitle(fold, titles) in titles
    ensures forall x :: x in titles ==> TitleLe(fold, x, MaxTitle(fold, titles))
  {
    TitleLeOrder(fold);
    if |titles| != 0 {
      MaxTitleIsMax(fold, titles[1..]);
      assert titles == [titles[0]] + titles[1..];
      assert TitleLe(fold, titles[0], titles[0]);
      if |titles| == 1 {
        assert titles[1..] == [];
        if TitleLe(fold, titles[0], "") {
          assert titles[0] == "";
        }
      }
    }
  }

  lemma MaxTitleCanonical(fold: string -> string, s: seq<string>, t: seq<string>)
    requires SameElements(s, t)
    ensures MaxTitle(fold, s) == MaxTitle(fold, t)
  {
    TitleLeOrder(fold);
    MaxTitleIsMax(fold, s);
    MaxTitleIsMax(fold, t);
    HasMember(s);
    HasMember(t);
  }

  lemma UnanimousCanonical<T(!new)>(s: seq<T>, t: seq<T>)
    requires SameElements(s, t)
    ensures Unanimous(s) == Unanimous(t)
  {
    HasMember(s);
    HasMember(t);
    UnanimousMeans(s);
    UnanimousMeans(t);
  }

  /** Unanimity means the set of values is a singleton. */
  lemma UnanimousMeans<T(!new)>(s: seq<T>)
    ensures Unanimous(s).Some? ==> Unanimous(s).value in s && forall x :: x in s ==> x == Unanimous(s).value
    ensures Unanimous(s).None? && s != [] ==> exists x, y :: x in s && y in s && x != y
  {
    if Unanimous(s).None? && s != [] {
      var i :| 0 <= i < |s| && s[i] != s[0];
      assert s[i] in s && s[0] in s;
    }
  }

  lemma {:induction false} SeedersIsMax(evidence: seq<Evidence>)
    ensures Seeders(evidence).Some? ==> exists e :: e in evidence && e.seeders == Seeders(evidence)
    ensures forall e :: e in evidence && e.seeders.Some? ==>
              Seeders(evidence).Some? && e.seeders.value <= Seeders(evidence).value
  {
    if |evidence| != 0 {
      SeedersIsMax(evidence[1..]);
      assert evidence == [evidence[0]] + evidence[1..];
    }
  }

  lemma TitlesCanonical(s: seq<Evidence>, t: seq<Evidence>)
    requires SameElements(s, t)
    ensures SameElements(Paths.NonEmpty(Titles(s)), Paths.NonEmpty(Titles(t)))
  {
    TitlesMembers(s);
    TitlesMembers(t);
    Paths.NonEmptyParts(Titles(s));
    Paths.NonEmptyParts(Titles(t));
  }

  lemma SearchTextCanonical(fold: string -> string, s: seq<Evidence>, t: seq<Evidence>)
    requires SameElements(s, t)
    ensures SearchText(fold, s) == SearchText(fold, t)
  {
    hide FoldedLe, SortedSet, Titles;
    FoldedLeOrder(fold);
    TitlesCanonical(s, t);
    var le := (a, b) => FoldedLe(fold, a, b);
    SortedSetCanonical(Paths.NonEmpty(Titles(s)), Paths.NonEmpty(Titles(t)), le);
  }

  lemma SourcesCanonical(fold: string -> string, s: seq<Evidence>, t: seq<Evidence>)
    requires SameElements(s, t)
    ensures Sources(fold, s) == Sources(fold, t)
  {
    hide FoldedLe, SortedSet;
    FoldedLeOrder(fold);
    SourceMembers(s);
    SourceMembers(t);
    var le := (a, b) => FoldedLe(fold, a, b);
    SortedSetCanonical(SourceNames(s), SourceNames(t), le);
  }

  lemma SizeCanonical(s: seq<Evidence>, t: seq<Evidence>)
    requires SameElements(s, t)
    ensures Size(s) == Size(t)
  {
    SizesMembers(s);
    SizesMembers(t);
    forall x: real ensures x in Sizes(s) <==> x in Sizes(t) {
      if x in Sizes(s) {
        var e :| e in s && e.size == Some(x);
        assert e in t;
      }
      if x in Sizes(t) {
        var e :| e in t && e.size == Some(x);
        assert e in s;
      }
    }
    UnanimousCanonical(Sizes(s), Sizes(t));
  }

  lemma SeedersCanonical(s: seq<Evidence>, t: seq<Evidence>)
    requires SameElements(s, t)
    ensures Seeders(s) == Seeders(t)
  {
    SeedersIsMax(s);
    SeedersIsMax(t);
  }

  /** Two evidence lists with the same elements, in any order and multiplicity, have the same aggregates. */
  lemma AggregateCanonical(fold: string -> string, s: seq<Evidence>, t: seq<Evidence>)
    requires SameElements(s, t)
    ensures AggregateOf(fold, s) == AggregateOf(fold, t)
  {
    hide MaxTitle, Titles, SearchText, Sources, Size, Seeders, Agreed, SameElements;
    TitlesCanonical(s, t);
    MaxTitleCanonical(fold, Paths.NonEmpty(Titles(s)), Paths.NonEmpty(Titles(t)));
    SearchTextCanonical(fold, s, t);
    SourcesCanonical(fold, s, t);
    SizeCanonical(s, t);
    SeedersCanonical(s, t);
    AgreedCanonical(s, t, ChineseSubtitles);
    AgreedCanonical(s, t, Uncensored);
    AgreedCanonical(s, t, Uhd);
  }

  lemma AgreedCanonical(s: seq<Evidence>, t: seq<Evidence>, field: Field)
    requires SameElements(s, t)
    ensures Agreed(s, field) == Agreed(t, field)
  {
    KnownMembers(s, field);
    KnownMembers(t, field);
    UnanimousCanonical(Known(s, field), Known(t, field));
  }

  // ---- What the aggregates say ----

  /** `e` reports a title, and no source reports a longer one, or a later one of the same length. */
  ghost predicate BestTitle(fold: string -> string, evidence: seq<Evidence>, e: Evidence) {
    && e in evidence && e.title != ""
    && forall f :: f in evidence ==>
         && |f.title| <= |e.title|
         && (|f.title| == |e.title| ==> StrLe(fold(f.title), fold(e.title)))
         && (|f.title| == |e.title| && fold(f.title) == fold(e.title) ==> StrLe(f.title, e.title))
  }

  /** The best title, or none if no source reports one. */
  lemma TitleMeans(fold: string -> string, evidence: seq<Evidence>)
    ensures var title := Title(fold, evidence);
            || (exists e :: BestTitle(fold, evidence, e) && e.title == title)
            || (title == "" && forall e :: e in evidence ==> e.title == "")
  {
    hide Titles, MaxTitle;
    var titles := Paths.NonEmpty(Titles(evidence));
    TitlesMembers(evidence);
    Paths.NonEmptyParts(Titles(evidence));
    MaxTitleIsMax(fold, titles);
    var title := Title(fold, evidence);
    if titles == [] {
      forall e | e in evidence ensures e.title == "" {
        assert e.title in Titles(evidence);
        assert e.title != "" ==> e.title in titles;
      }
    } else {
      assert title in titles;
      var e :| e in evidence && e.title == title;
      forall f | f in evidence ensures TitleLe(fold, f.title, title) {
        assert f.title in Titles(evidence);
        assert f.title != "" ==> f.title in titles;
      }
      assert BestTitle(fold, evidence, e);
    }
  }

  /** A size is known if every source that knows it says the same. */
  lemma SizeMeans(evidence: seq<Evidence>, size: real)
    ensures Size(evidence) == Some(size) <==>
              && (exists e :: e in evidence && e.size == Some(size))
              && forall e :: e in evidence && e.size.Some? ==> e.size.value == size
  {
    UnanimousMeans(Sizes(evidence));
    forall x: real ensures x in Sizes(evidence) <==> exists e :: e in evidence && e.size == Some(x) {
      SizesMembers(evidence);
    }
    forall e | e in evidence && e.size.Some? ensures e.size.value in Sizes(evidence) {
      var x: real := e.size.value;
      assert e.size == Some(x);
    }
  }

  /** A truth value is known if every source that knows it says the same. */
  lemma AgreedMeans(evidence: seq<Evidence>, field: Field, value: Truth)
    requires value != Unknown
    ensures Agreed(evidence, field) == value <==>
              && (exists e :: e in evidence && TruthOf(e, field) == value)
              && forall e :: e in evidence ==> TruthOf(e, field) == value || TruthOf(e, field) == Unknown
  {
    KnownMembers(evidence, field);
    UnanimousMeans(Known(evidence, field));
    forall e | e in evidence && TruthOf(e, field) != Unknown ensures TruthOf(e, field) in Known(evidence, field) {
    }
  }

  /** By case-folded text, then by the text; no two alike. */
  ghost predicate InFoldedOrder(fold: string -> string, s: seq<string>) {
    forall i, j :: 0 <= i < j < |s| ==>
      s[i] != s[j] && StrLe(fold(s[i]), fold(s[j])) && (fold(s[i]) == fold(s[j]) ==> StrLe(s[i], s[j]))
  }

  lemma SortedByFold(fold: string -> string, s: seq<string>)
    ensures var sorted := SortedSet(s, (a, b) => FoldedLe(fold, a, b));
            InFoldedOrder(fold, sorted) && forall x :: x in sorted <==> x in s
  {
    hide SortedSet;
    FoldedLeOrder(fold);
    SortedSetSorted(s, (a, b) => FoldedLe(fold, a, b));
  }

  /** The sources are exactly the names reported, each once, in folded order. */
  lemma SourcesMean(fold: string -> string, evidence: seq<Evidence>)
    ensures InFoldedOrder(fold, Sources(fold, evidence))
    ensures forall x :: x in Sources(fold, evidence) <==> exists e :: e in evidence && e.source == x
  {
    hide SortedSet;
    SortedByFold(fold, SourceNames(evidence));
    SourceMembers(evidence);
  }

  /** Exactly the non-empty titles, each once, in folded order. */
  lemma LinesMean(fold: string -> string, evidence: seq<Evidence>)
    ensures InFoldedOrder(fold, Lines(fold, evidence))
    ensures forall x :: x in Lines(fold, evidence) <==> x != "" && exists e :: e in evidence && e.title == x
  {
    hide SortedSet;
    SortedByFold(fold, Paths.NonEmpty(Titles(evidence)));
    TitlesMembers(evidence);
    Paths.NonEmptyParts(Titles(evidence));
  }

  /**
   * Split at its line breaks, the search text is exactly the distinct non-empty titles in folded order, unless a
   * title has a line break itself.
   */
  lemma SearchTextMeans(fold: string -> string, evidence: seq<Evidence>)
    requires forall e :: e in evidence ==> '\n' !in e.title
    requires exists e :: e in evidence && e.title != ""
    ensures var lines := Paths.Split(SearchText(fold, evidence), '\n');
            && InFoldedOrder(fold, lines)
            && forall x :: x in lines <==> x != "" && exists e :: e in evidence && e.title == x
  {
    hide SortedSet, Titles, Lines;
    LinesMean(fold, evidence);
    var lines := Lines(fold, evidence);
    var e :| e in evidence && e.title != "";
    assert e.title in lines;
    forall i | 0 <= i < |lines| ensures '\n' !in lines[i] {
      assert lines[i] in lines;
    }
    Paths.SplitJoin(lines, '\n');
  }

  // ---- The aggregates rebuilt from stored rows ----

  function TruthText(t: Truth): string {
    match t case Yes => "yes" case No => "no" case Unknown => "unknown"
  }

  datatype StoredEvidence = StoredEvidence(
    source: string, magnetUri: string, title: string, size: Option<real>, seeders: Option<nat>,
    chineseSubtitles: string, uncensored: string, uhd: string, notes: seq<string>)

  /** `add_candidate_evidence`. */
  function StoredOf(e: Evidence): StoredEvidence {
    StoredEvidence(e.source, e.magnetUri, e.title, e.size, e.seeders,
                   TruthText(e.chineseSubtitles), TruthText(e.uncensored), TruthText(e.uhd), e.notes)
  }

  function StoreAll(evidence: seq<Evidence>): seq<StoredEvidence> {
    if |evidence| == 0 then [] else [StoredOf(evidence[0])] + StoreAll(evidence[1..])
  }

  function StoredText(e: StoredEvidence, field: Field): string {
    match field
    case ChineseSubtitles => e.chineseSubtitles
    case Uncensored => e.uncensored
    case Uhd => e.uhd
  }

  function StoredTitles(rows: seq<StoredEvidence>): seq<string> {
    if |rows| == 0 then [] else [rows[0].title] + StoredTitles(rows[1..])
  }

  function StoredSources(rows: seq<StoredEvidence>): seq<string> {
    if |rows| == 0 then [] else [rows[0].source] + StoredSources(rows[1..])
  }

  function StoredSizes(rows: seq<StoredEvidence>): seq<real> {
    if |rows| == 0 then []
    else (if rows[0].size.Some? then [rows[0].size.value] else []) + StoredSizes(rows[1..])
  }

  function StoredKnown(rows: seq<StoredEvidence>, field: Field): seq<string> {
    if |rows| == 0 then []
    else
      (if StoredText(rows[0], field) != "unknown" then [StoredText(rows[0], field)] else [])
      + StoredKnown(rows[1..], field)
  }

  function StoredAgreed(rows: seq<StoredEvidence>, field: Field): string {
    var r := Unanimous(StoredKnown(rows, field));
    if r.Some? then r.value else "unknown"
  }

  function StoredSeeders(rows: seq<StoredEvidence>): Option<nat> {
    if |rows| == 0 then None
    else
      var rest := StoredSeeders(rows[1..]);
      if rows[0].seeders.None? then rest
      else if rest.None? || rows[0].seeders.value > rest.value then rows[0].seeders else rest
  }

  datatype StoredAggregate = StoredAggregate(
    title: string, size: Option<real>, seeders: Option<nat>,
    chineseSubtitles: string, uncensored: string, uhd: string, sources: seq<string>)

  /** `_aggregate_evidence`: here the title ranges over empty titles too, and sources sort by code point. */
  function AggregateRows(fold: string -> string, rows: seq<StoredEvidence>): StoredAggregate {
    StoredAggregate(MaxTitle(fold, StoredTitles(rows)), Unanimous(StoredSizes(rows)), StoredSeeders(rows),
                    StoredAgreed(rows, ChineseSubtitles), StoredAgreed(rows, Uncensored), StoredAgreed(rows, Uhd),
                    SortedSet(StoredSources(rows), StrLe))
  }

  lemma {:induction false} EmptyTitleIsLeast(fold: string -> string, titles: seq<string>)
    ensures MaxTitle(fold, titles) == MaxTitle(fold, Paths.NonEmpty(titles))
  {
    TitleLeOrder(fold);
    MaxTitleIsMax(fold, titles);
    MaxTitleIsMax(fold, Paths.NonEmpty(titles));
    Paths.NonEmptyParts(titles);
    HasMember(titles);
    HasMember(Paths.NonEmpty(titles));
    assert forall x :: x != "" ==> !TitleLe(fold, x, "");
  }

  lemma {:induction false} StoredColumns(evidence: seq<Evidence>)
    ensures StoredTitles(StoreAll(evidence)) == Titles(evidence)
    ensures StoredSources(StoreAll(evidence)) == SourceNames(evidence)
    ensures StoredSizes(StoreAll(evidence)) == Sizes(evidence)
    ensures StoredSeeders(StoreAll(evidence)) == Seeders(evidence)
  {
    if |evidence| != 0 {
      StoredColumns(evidence[1..]);
      assert StoreAll(evidence)[1..] == StoreAll(evidence[1..]);
    }
  }

  function Texts(truths: seq<Truth>): (r: seq<string>)
    ensures |r| == |truths| && forall i :: 0 <= i < |r| ==> r[i] == TruthText(truths[i])
  {
    if |truths| == 0 then [] else [TruthText(truths[0])] + Texts(truths[1..])
  }

  lemma TruthTextInjective(a: Truth, b: Truth)
    ensures TruthText(a) == TruthText(b) <==> a == b
  {
    assert |TruthText(Yes)| == 3 && |TruthText(No)| == 2 && |TruthText(Unknown)| == 7;
  }

  lemma {:induction false} StoredKnownTexts(evidence: seq<Evidence>, field: Field)
    ensures StoredKnown(StoreAll(evidence), field) == Texts(Known(evidence, field))
  {
    if |evidence| != 0 {
      StoredKnownTexts(evidence[1..], field);
      assert StoreAll(evidence)[1..] == StoreAll(evidence[1..]);
      TruthTextInjective(TruthOf(evidence[0], field), Unknown);
    }
  }

  lemma StoredAgreedAgrees(evidence: seq<Evidence>, field: Field)
    ensures StoredAgreed(StoreAll(evidence), field) == TruthText(Agreed(evidence, field))
  {
    StoredKnownTexts(evidence, field);
    var known := Known(evidence, field);
    forall i | 0 <= i < |known| ensures Texts(known)[i] == Texts(known)[0] <==> known[i] == known[0] {
      TruthTextInjective(known[i], known[0]);
    }
  }

  /** The aggregate rebuilt from what was stored is the in-memory one, for every list of evidence. */
  lemma StoredAggregateAgrees(fold: string -> string, evidence: seq<Evidence>)
    ensures var stored := AggregateRows(fold, StoreAll(evidence));
            var memory := AggregateOf(fold, evidence);
            && stored.title == memory.title && stored.size == memory.size && stored.seeders == memory.seeders
            && stored.chineseSubtitles == TruthText(memory.chineseSubtitles)
            && stored.uncensored == TruthText(memory.uncensored)
            && stored.uhd == TruthText(memory.uhd)
            && SameElements(stored.sources, memory.sources) && StrictlySorted(stored.sources, StrLe)
  {
    StoredColumns(evidence);
    EmptyTitleIsLeast(fold, Titles(evidence));
    StoredAgreedAgrees(evidence, ChineseSubtitles);
    StoredAgreedAgrees(evidence, Uncensored);
    StoredAgreedAgrees(evidence, Uhd);
    StrLeOrder();
    FoldedLeOrder(fold);
    SortedSetSorted(SourceNames(evidence), StrLe);
    SortedSetSorted(SourceNames(evidence), (a, b) => FoldedLe(fold, a, b));
  }
}
