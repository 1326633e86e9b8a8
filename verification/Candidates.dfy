/**
 * Merging, judging and ranking the candidates of one content item (models.py, rules.py, selector.py,
 * pipeline.py).
 */
module Candidates {
  import opened Wrappers
  import opened Ordering
  import opened Evidence
  import opened Grouping
  import Btih
  import Paths

  type Identity = (string, string)

  datatype Candidate = Candidate(item: Identity, btih: string, evidence: seq<Evidence>)

  // ---- Merging ----

  /** A candidate as the pipeline holds it: `merge_from` extends its evidence in place. */
  class CandidateObject {
    const item: Identity
    const btih: string
    var evidence: seq<Evidence>

    constructor (c: Candidate)
      ensures Value() == c
    {
      item, btih, evidence := c.item, c.btih, c.evidence;
    }

    function Value(): Candidate
      reads this
    {
      Candidate(item, btih, evidence)
    }

    method MergeFrom(other: Candidate) returns (ok: bool)
      modifies this
      ensures ok <==> (item, btih) == (other.item, other.btih)
      ensures evidence == if ok then AppendMissing(old(evidence), other.evidence) else old(evidence)
    {
      if (item, btih) != (other.item, other.btih) {
        return false;
      }
      ok := true;
      for i := 0 to |other.evidence|
        invariant AppendMissing(evidence, other.evidence[i..]) == AppendMissing(old(evidence), other.evidence)
      {
        assert other.evidence[i..][0] == other.evidence[i] && other.evidence[i..][1..] == other.evidence[i + 1..];
        if other.evidence[i] !in evidence {
          evidence := evidence + [other.evidence[i]];
        }
      }
      assert other.evidence[|other.evidence|..] == [];
    }
  }

  function HashOf(c: Candidate): string {
    c.btih
  }

  /** What `merge_from` makes of a candidate. */
  function Joined(a: Candidate, b: Candidate): Candidate {
    a.(evidence := AppendMissing(a.evidence, b.evidence))
  }

  /** The candidates of a batch, one a hash, in order of first appearance. */
  function MergedBatch(batch: seq<Candidate>): seq<Candidate> {
    Merged(batch, HashOf, Joined)
  }

  /** Every candidate of the batch belongs to the item searched for. */
  predicate BelongTo(item: Identity, batch: seq<Candidate>) {
    forall i :: 0 <= i < |batch| ==> batch[i].item == item
  }

  // ---- Rules ----

  datatype Mode = AnyValue | Only | Exclude

  datatype RuleSet = RuleSet(
    chineseSubtitles: Mode,
    uncensored: Mode,
    uhd: Mode,
    minSize: Option<real>,
    maxSize: Option<real>,
    minSeeders: Option<nat>,
    includeKeywords: seq<string>,
    excludeKeywords: seq<string>)

  datatype Reason =
    | Required(field: Field)
    | Excluded(field: Field)
    | SizeUnknown
    | SizeBelowMin
    | SizeAboveMax
    | SeedersUnknown
    | SeedersBelowMin
    | KeywordRequired
    | KeywordExcluded(keyword: string)

  function TruthReasons(field: Field, mode: Mode, value: Truth): seq<Reason> {
    if mode == Only && value != Yes then [Required(field)]
    else if mode == Exclude && value == Yes then [Excluded(field)]
    else []
  }

  function SizeReasons(rules: RuleSet, size: Option<real>): seq<Reason> {
    if rules.minSize.None? && rules.maxSize.None? then []
    else if size.None? then [SizeUnknown]
    else
      (if rules.minSize.Some? && size.value < rules.minSize.value then [SizeBelowMin] else [])
      + (if rules.maxSize.Some? && size.value > rules.maxSize.value then [SizeAboveMax] else [])
  }

  function SeederReasons(rules: RuleSet, seeders: Option<nat>): seq<Reason> {
    if rules.minSeeders.None? then []
    else if seeders.None? then [SeedersUnknown]
    else if seeders.value < rules.minSeeders.value then [SeedersBelowMin]
    else []
  }

  predicate ContainsAt(text: string, word: string, i: nat) {
    i + |word| <= |text| && text[i..i + |word|] == word
  }

  /** Python's `word in text`. */
  predicate Contains(text: string, word: string) {
    exists i: nat :: i <= |text| && ContainsAt(text, word, i)
  }

  function Keywords(words: seq<string>): seq<string> {
    if |words| == 0 then []
    else (if Btih.Strip(words[0]) != "" then [Btih.Strip(words[0])] else []) + Keywords(words[1..])
  }

  function FirstHit(fold: string -> string, words: seq<string>, text: string): Option<string> {
    if |words| == 0 then None
    else if Contains(text, fold(words[0])) then Some(words[0])
    else FirstHit(fold, words[1..], text)
  }

  function KeywordReasons(fold: string -> string, rules: RuleSet, searchText: string): seq<Reason> {
    var text := fold(searchText);
    var required, forbidden := Keywords(rules.includeKeywords), Keywords(rules.excludeKeywords);
    var hit := FirstHit(fold, forbidden, text);
    (if required != [] && FirstHit(fold, required, text).None? then [KeywordRequired] else [])
    + (if hit.Some? then [KeywordExcluded(hit.value)] else [])
  }

  /** The reasons against a candidate, read off its aggregate. */
  function Reasons(fold: string -> string, rules: RuleSet, a: Aggregate): seq<Reason> {
    TruthReasons(ChineseSubtitles, rules.chineseSubtitles, a.chineseSubtitles)
    + TruthReasons(Uncensored, rules.uncensored, a.uncensored)
    + TruthReasons(Uhd, rules.uhd, a.uhd)
    + SizeReasons(rules, a.size)
    + SeederReasons(rules, a.seeders)
    + KeywordReasons(fold, rules, a.searchText)
  }

  // ---- Sort keys ----

  /** `evaluation_sort_key`. */
  datatype Key = Key(rejected: bool, noSeeders: bool, seeders: nat, noSize: bool, size: real, btih: string,
                     sources: seq<string>)

  function KeyOf(accepted: bool, btih: string, a: Aggregate): Key {
    Key(!accepted, a.seeders.None?, if a.seeders.Some? then a.seeders.value else 0,
        a.size.None?, if a.size.Some? then a.size.value else 0.0, btih, a.sources)
  }

  predicate NamesLe(a: seq<string>, b: seq<string>) {
    |a| == 0 || (|b| != 0 && StrLe(a[0], b[0]) && (a[0] == b[0] ==> NamesLe(a[1..], b[1..])))
  }

  /**
   * Tuple comparison: accepted first, known seeders first and more of them, known sizes first and smaller,
   * then hash, then sources.
   */
  predicate KeyLe(a: Key, b: Key) {
    if a.rejected != b.rejected then b.rejected
    else if a.noSeeders != b.noSeeders then b.noSeeders
    else if a.seeders != b.seeders then a.seeders > b.seeders
    else if a.noSize != b.noSize then b.noSize
    else if a.size != b.size then a.size < b.size
    else if a.btih != b.btih then StrLe(a.btih, b.btih)
    else NamesLe(a.sources, b.sources)
  }

  lemma {:induction false} NamesLeTotal(a: seq<string>, b: seq<string>)
    ensures NamesLe(a, b) || NamesLe(b, a)
  {
    if |a| != 0 && |b| != 0 {
      StrLeTotal(a[0], b[0]);
      NamesLeTotal(a[1..], b[1..]);
    }
  }

  lemma {:induction false} NamesLeTransitive(a: seq<string>, b: seq<string>, c: seq<string>)
    requires NamesLe(a, b) && NamesLe(b, c)
    ensures NamesLe(a, c)
  {
    if |a| != 0 {
      StrLeTransitive(a[0], b[0], c[0]);
      if a[0] == c[0] {
        StrLeAntisymmetric(a[0], b[0]);
        NamesLeTransitive(a[1..], b[1..], c[1..]);
      }
    }
  }

  lemma KeyLeTransitive(a: Key, b: Key, c: Key)
    requires KeyLe(a, b) && KeyLe(b, c)
    ensures KeyLe(a, c)
  {
    if a.btih == b.btih == c.btih && NamesLe(a.sources, b.sources) && NamesLe(b.sources, c.sources) {
      NamesLeTransitive(a.sources, b.sources, c.sources);
    }
    if StrLe(a.btih, b.btih) && StrLe(b.btih, c.btih) {
      StrLeTransitive(a.btih, b.btih, c.btih);
      if a.btih == c.btih {
        StrLeAntisymmetric(a.btih, b.btih);
      }
    }
  }

  lemma KeyLeTotal(a: Key, b: Key)
    ensures KeyLe(a, b) || KeyLe(b, a)
    ensures KeyLe(a, b) && KeyLe(b, a) ==> a.btih == b.btih
  {
    StrLeTotal(a.btih, b.btih);
    NamesLeTotal(a.sources, b.sources);
    if StrLe(a.btih, b.btih) && StrLe(b.btih, a.btih) {
      StrLeAntisymmetric(a.btih, b.btih);
    }
  }

  // ---- Ranking ----

  datatype Evaluation = Evaluation(candidate: Candidate, accepted: bool, reasons: seq<Reason>, key: Key)

  predicate RankLe(a: Evaluation, b: Evaluation) {
    KeyLe(a.key, b.key)
  }

  function Evaluate(fold: string -> string, rules: RuleSet, c: Candidate): Evaluation {
    var a := AggregateOf(fold, c.evidence);
    var reasons := Reasons(fold, rules, a);
    Evaluation(c, reasons == [], reasons, KeyOf(reasons == [], c.btih, a))
  }

  function EvaluateAll(fold: string -> string, rules: RuleSet, cs: seq<Candidate>): seq<Evaluation> {
    MapAll(cs, c => Evaluate(fold, rules, c))
  }

  /** The ranked evaluations of a batch. */
  function Ranked(fold: string -> string, rules: RuleSet, batch: seq<Candidate>): seq<Evaluation> {
    Sort(EvaluateAll(fold, rules, MergedBatch(batch)), RankLe)
  }

  function Accepted(evaluations: seq<Evaluation>): seq<Evaluation> {
    if |evaluations| == 0 then []
    else (if evaluations[0].accepted then [evaluations[0]] else []) + Accepted(evaluations[1..])
  }

  /** `select_candidate`: the first accepted evaluation's candidate. */
  function Select(evaluations: seq<Evaluation>): Option<Candidate> {
    if |evaluations| == 0 then None
    else if evaluations[0].accepted then Some(evaluations[0].candidate)
    else Select(evaluations[1..])
  }

  /** The code of `RuleSet.evaluate`: one list of reasons, appended to rule by rule. */
  method EvaluateRules(fold: string -> string, rules: RuleSet, c: Candidate) returns (e: Evaluation)
    ensures e == Evaluate(fold, rules, c)
  {
    hide AggregateOf, TruthReasons, SizeReasons, SeederReasons, KeywordReasons, KeyOf;
    var a := AggregateOf(fold, c.evidence);
    var reasons: seq<Reason> := [];
    reasons := EvaluateTruth(reasons, ChineseSubtitles, rules.chineseSubtitles, a.chineseSubtitles);
    reasons := EvaluateTruth(reasons, Uncensored, rules.uncensored, a.uncensored);
    reasons := EvaluateTruth(reasons, Uhd, rules.uhd, a.uhd);
    reasons := EvaluateNumbers(reasons, rules, a);
    reasons := EvaluateKeywords(fold, reasons, rules, a.searchText);
    e := Evaluation(c, reasons == [], reasons, KeyOf(reasons == [], c.btih, a));
  }

  method EvaluateNumbers(before: seq<Reason>, rules: RuleSet, a: Aggregate) returns (reasons: seq<Reason>)
    ensures reasons == before + SizeReasons(rules, a.size) + SeederReasons(rules, a.seeders)
  {
    reasons := before;
    if rules.minSize.Some? || rules.maxSize.Some? {
      if a.size.None? {
        reasons := reasons + [SizeUnknown];
      } else {
        if rules.minSize.Some? && a.size.value < rules.minSize.value {
          reasons := reasons + [SizeBelowMin];
        }
        if rules.maxSize.Some? && a.size.value > rules.maxSize.value {
          reasons := reasons + [SizeAboveMax];
        }
      }
    }
    assert reasons == before + SizeReasons(rules, a.size);
    if rules.minSeeders.Some? {
      if a.seeders.None? {
        reasons := reasons + [SeedersUnknown];
      } else if a.seeders.value < rules.minSeeders.value {
        reasons := reasons + [SeedersBelowMin];
      }
    }
  }

  method EvaluateKeywords(fold: string -> string, before: seq<Reason>, rules: RuleSet, searchText: string)
    returns (reasons: seq<Reason>)
    ensures reasons == before + KeywordReasons(fold, rules, searchText)
  {
    reasons := before;
    var text := fold(searchText);
    var required := Keywords(rules.includeKeywords);
    if required != [] && FirstHit(fold, required, text).None? {
      reasons := reasons + [KeywordRequired];
    }
    var hit := FirstHit(fold, Keywords(rules.excludeKeywords), text);
    if hit.Some? {
      reasons := reasons + [KeywordExcluded(hit.value)];
    }
  }

  method EvaluateTruth(before: seq<Reason>, field: Field, mode: Mode, value: Truth) returns (reasons: seq<Reason>)
    ensures reasons == before + TruthReasons(field, mode, value)
  {
    reasons := before;
    if mode == Only && value != Yes {
      reasons := reasons + [Required(field)];
    } else if mode == Exclude && value == Yes {
      reasons := reasons + [Excluded(field)];
    }
  }

  // ---- What the rules accept ----

  predicate Fits(mode: Mode, value: Truth) {
    (mode == Only ==> value == Yes) && (mode == Exclude ==> value != Yes)
  }

  /** A non-blank word that occurs in the text, both case-folded. */
  predicate Hits(fold: string -> string, word: string, text: string) {
    Btih.Strip(word) != "" && Contains(fold(text), fold(Btih.Strip(word)))
  }

  /** Some non-blank word of the list occurs in the text, both case-folded. */
  ghost predicate Mentions(fold: string -> string, words: seq<string>, text: string) {
    exists i :: 0 <= i < |words| && Hits(fold, words[i], text)
  }

  ghost predicate AllBlank(words: seq<string>) {
    forall i :: 0 <= i < |words| ==> Btih.Strip(words[i]) == ""
  }

  /** The rules as conditions on the aggregate; a bound on an unknown value is not met. */
  ghost predicate Accepts(fold: string -> string, rules: RuleSet, a: Aggregate) {
    && Fits(rules.chineseSubtitles, a.chineseSubtitles) && Fits(rules.uncensored, a.uncensored)
    && Fits(rules.uhd, a.uhd)
    && (rules.minSize.Some? ==> a.size.Some? && a.size.value >= rules.minSize.value)
    && (rules.maxSize.Some? ==> a.size.Some? && a.size.value <= rules.maxSize.value)
    && (rules.minSeeders.Some? ==> a.seeders.Some? && a.seeders.value >= rules.minSeeders.value)
    && (AllBlank(rules.includeKeywords) || Mentions(fold, rules.includeKeywords, a.searchText))
    && !Mentions(fold, rules.excludeKeywords, a.searchText)
  }

  lemma MentionsCons(fold: string -> string, words: seq<string>, text: string)
    requires |words| > 0
    ensures Mentions(fold, words, text) <==> Hits(fold, words[0], text) || Mentions(fold, words[1..], text)
    ensures AllBlank(words) <==> Btih.Strip(words[0]) == "" && AllBlank(words[1..])
  {
    hide Btih.Strip, Contains;
    assert words == [words[0]] + words[1..];
    if i :| 0 <= i < |words[1..]| && Hits(fold, words[1..][i], text) {
      assert Hits(fold, words[i + 1], text);
    }
    if i :| 0 <= i < |words| && Hits(fold, words[i], text) {
      assert i > 0 ==> Hits(fold, words[1..][i - 1], text);
    }
  }

  lemma {:induction false} KeywordsMention(fold: string -> string, words: seq<string>, text: string)
    ensures Keywords(words) == [] <==> AllBlank(words)
    ensures FirstHit(fold, Keywords(words), fold(text)).Some? <==> Mentions(fold, words, text)
  {
    hide Contains, Btih.Strip;
    if |words| != 0 {
      hide Mentions, AllBlank;
      KeywordsMention(fold, words[1..], text);
      MentionsCons(fold, words, text);
      var word, rest := Btih.Strip(words[0]), Keywords(words[1..]);
      if word == "" {
        assert Keywords(words) == rest;
      } else {
        assert Keywords(words) == [word] + rest;
        assert ([word] + rest)[1..] == rest;
      }
    }
  }

  /** A candidate without a reason against it is one that meets every configured rule, and the other way round. */
  lemma AcceptedIff(fold: string -> string, rules: RuleSet, c: Candidate)
    ensures Evaluate(fold, rules, c).accepted <==> Accepts(fold, rules, AggregateOf(fold, c.evidence))
  {
    hide AggregateOf, Keywords, FirstHit, Mentions, AllBlank;
    var a := AggregateOf(fold, c.evidence);
    KeywordsMention(fold, rules.includeKeywords, a.searchText);
    KeywordsMention(fold, rules.excludeKeywords, a.searchText);
  }

  // ---- What the reasons say ----

  /** The first word of the list that occurs in the text. */
  ghost predicate FirstMention(fold: string -> string, words: seq<string>, text: string, i: nat) {
    i < |words| && Hits(fold, words[i], text) && forall j :: 0 <= j < i ==> !Hits(fold, words[j], text)
  }

  lemma {:induction false} FirstHitMeans(fold: string -> string, words: seq<string>, text: string, keyword: string)
    ensures FirstHit(fold, Keywords(words), fold(text)) == Some(keyword) <==>
              exists i: nat :: FirstMention(fold, words, text, i) && Btih.Strip(words[i]) == keyword
  {
    hide Contains, Btih.Strip;
    if |words| != 0 {
      FirstHitMeans(fold, words[1..], text, keyword);
      var word, rest := Btih.Strip(words[0]), Keywords(words[1..]);
      assert word != "" ==> Keywords(words) == [word] + rest && ([word] + rest)[1..] == rest;
      assert word == "" ==> Keywords(words) == rest;
      if Hits(fold, words[0], text) {
        assert FirstMention(fold, words, text, 0);
      } else {
        if i: nat :| FirstMention(fold, words[1..], text, i) && Btih.Strip(words[1..][i]) == keyword {
          assert forall j :: 0 < j < i + 1 ==> words[j] == words[1..][j - 1];
          assert FirstMention(fold, words, text, i + 1);
        }
        if i: nat :| FirstMention(fold, words, text, i) && Btih.Strip(words[i]) == keyword {
          assert forall j :: 0 <= j < i - 1 ==> words[1..][j] == words[j + 1];
          assert i > 0 && FirstMention(fold, words[1..], text, i - 1);
        }
      }
    }
  }

  ghost function ModeOf(rules: RuleSet, field: Field): Mode {
    match field
    case ChineseSubtitles => rules.chineseSubtitles
    case Uncensored => rules.uncensored
    case Uhd => rules.uhd
  }

  ghost function ValueOf(a: Aggregate, field: Field): Truth {
    match field
    case ChineseSubtitles => a.chineseSubtitles
    case Uncensored => a.uncensored
    case Uhd => a.uhd
  }

  /** When a reason speaks against a candidate. */
  ghost predicate Speaks(fold: string -> string, rules: RuleSet, a: Aggregate, r: Reason) {
    match r
    case Required(field) => ModeOf(rules, field) == Only && ValueOf(a, field) != Yes
    case Excluded(field) => ModeOf(rules, field) == Exclude && ValueOf(a, field) == Yes
    case SizeUnknown => (rules.minSize.Some? || rules.maxSize.Some?) && a.size.None?
    case SizeBelowMin => rules.minSize.Some? && a.size.Some? && a.size.value < rules.minSize.value
    case SizeAboveMax => rules.maxSize.Some? && a.size.Some? && a.size.value > rules.maxSize.value
    case SeedersUnknown => rules.minSeeders.Some? && a.seeders.None?
    case SeedersBelowMin => rules.minSeeders.Some? && a.seeders.Some? && a.seeders.value < rules.minSeeders.value
    case KeywordRequired => !AllBlank(rules.includeKeywords) && !Mentions(fold, rules.includeKeywords, a.searchText)
    case KeywordExcluded(keyword) =>
      exists i: nat :: FirstMention(fold, rules.excludeKeywords, a.searchText, i)
                  && Btih.Strip(rules.excludeKeywords[i]) == keyword
  }

  /** The order of the rules. */
  ghost function Place(r: Reason): nat {
    match r
    case Required(field) => if field == ChineseSubtitles then 0 else if field == Uncensored then 1 else 2
    case Excluded(field) => if field == ChineseSubtitles then 0 else if field == Uncensored then 1 else 2
    case SizeUnknown => 3
    case SizeBelowMin => 3
    case SizeAboveMax => 4
    case SeedersUnknown => 5
    case SeedersBelowMin => 5
    case KeywordRequired => 6
    case KeywordExcluded(_) => 7
  }

  ghost predicate Placed(reasons: seq<Reason>, first: nat, last: nat) {
    && (forall i :: 0 <= i < |reasons| ==> first <= Place(reasons[i]) <= last)
    && forall i, j :: 0 <= i < j < |reasons| ==> Place(reasons[i]) < Place(reasons[j])
  }

  lemma PlacedConcat(a: seq<Reason>, b: seq<Reason>, first: nat, middle: nat, last: nat)
    requires Placed(a, first, middle) && Placed(b, middle + 1, last) && first <= middle < last
    ensures Placed(a + b, first, last)
  {
  }

  /** The reasons are exactly those that speak against the candidate, in the order of the rules. */
  lemma ReasonsMean(fold: string -> string, rules: RuleSet, a: Aggregate, r: Reason)
    ensures r in Reasons(fold, rules, a) <==> Speaks(fold, rules, a, r)
    ensures Placed(Reasons(fold, rules, a), 0, 7)
  {
    hide TruthReasons, SizeReasons, SeederReasons, KeywordReasons, Speaks, Placed;
    var t0 := TruthReasons(ChineseSubtitles, rules.chineseSubtitles, a.chineseSubtitles);
    var t1 := TruthReasons(Uncensored, rules.uncensored, a.uncensored);
    var t2 := TruthReasons(Uhd, rules.uhd, a.uhd);
    TruthReasonsMean(fold, rules, a, r);
    SizeReasonsMean(fold, rules, a, r);
    SeederReasonsMean(fold, rules, a, r);
    KeywordReasonsMean(fold, rules, a, r);
    PlacedConcat(t0, t1, 0, 0, 1);
    PlacedConcat(t0 + t1, t2, 0, 1, 2);
    PlacedConcat(t0 + t1 + t2, SizeReasons(rules, a.size), 0, 2, 4);
    PlacedConcat(t0 + t1 + t2 + SizeReasons(rules, a.size), SeederReasons(rules, a.seeders), 0, 4, 5);
    PlacedConcat(t0 + t1 + t2 + SizeReasons(rules, a.size) + SeederReasons(rules, a.seeders),
                 KeywordReasons(fold, rules, a.searchText), 0, 5, 7);
  }

  lemma TruthReasonsMean(fold: string -> string, rules: RuleSet, a: Aggregate, r: Reason)
    ensures var t0 := TruthReasons(ChineseSubtitles, rules.chineseSubtitles, a.chineseSubtitles);
            var t1 := TruthReasons(Uncensored, rules.uncensored, a.uncensored);
            var t2 := TruthReasons(Uhd, rules.uhd, a.uhd);
            && Placed(t0, 0, 0) && Placed(t1, 1, 1) && Placed(t2, 2, 2)
            && (r in t0 || r in t1 || r in t2 <==> (r.Required? || r.Excluded?) && Speaks(fold, rules, a, r))
  {
  }

  lemma SizeReasonsMean(fold: string -> string, rules: RuleSet, a: Aggregate, r: Reason)
    ensures Placed(SizeReasons(rules, a.size), 3, 4)
    ensures r in SizeReasons(rules, a.size) <==>
              (r.SizeUnknown? || r.SizeBelowMin? || r.SizeAboveMax?) && Speaks(fold, rules, a, r)
  {
    hide FirstMention, Mentions, AllBlank;
  }

  lemma SeederReasonsMean(fold: string -> string, rules: RuleSet, a: Aggregate, r: Reason)
    ensures Placed(SeederReasons(rules, a.seeders), 5, 5)
    ensures r in SeederReasons(rules, a.seeders) <==>
              (r.SeedersUnknown? || r.SeedersBelowMin?) && Speaks(fold, rules, a, r)
  {
    hide FirstMention, Mentions, AllBlank;
  }

  lemma KeywordReasonsMean(fold: string -> string, rules: RuleSet, a: Aggregate, r: Reason)
    ensures Placed(KeywordReasons(fold, rules, a.searchText), 6, 7)
    ensures r in KeywordReasons(fold, rules, a.searchText) <==>
              (r.KeywordRequired? || r.KeywordExcluded?) && Speaks(fold, rules, a, r)
  {
    hide Keywords, FirstHit, Mentions, AllBlank, FirstMention;
    KeywordsMention(fold, rules.includeKeywords, a.searchText);
    if r.KeywordExcluded? {
      FirstHitMeans(fold, rules.excludeKeywords, a.searchText, r.keyword);
    }
  }

  // ---- Keywords are looked for in every title ----

  lemma ContainsMeans(text: string, word: string)
    ensures Contains(text, word) <==> exists before, after :: text == before + word + after
  {
    if Contains(text, word) {
      var i: nat :| i <= |text| && ContainsAt(text, word, i);
      assert text == text[..i] + word + text[i + |word|..];
    }
    if before, after :| text == before + word + after {
      assert ContainsAt(text, word, |before|);
    }
  }

  /** Folding works character by character, drops none, and leaves line breaks alone, as Unicode case folding does. */
  ghost predicate Charwise(fold: string -> string) {
    && (forall s, t :: fold(s + t) == fold(s) + fold(t))
    && (forall s :: fold(s) == "" <==> s == "")
    && fold("\n") == "\n"
  }

  function FoldAll(fold: string -> string, parts: seq<string>): seq<string> {
    MapAll(parts, fold)
  }

  lemma {:induction false} FoldJoined(fold: string -> string, parts: seq<string>)
    requires Charwise(fold)
    ensures fold(Paths.Join(parts, '\n')) == Paths.Join(FoldAll(fold, parts), '\n')
  {
    if |parts| > 1 {
      FoldJoined(fold, parts[1..]);
      assert fold(parts[0] + "\n" + Paths.Join(parts[1..], '\n'))
          == fold(parts[0] + "\n") + fold(Paths.Join(parts[1..], '\n'));
      assert FoldAll(fold, parts)[1..] == FoldAll(fold, parts[1..]);
    } else if |parts| == 1 {
      assert FoldAll(fold, parts)[0] == fold(parts[0]);
    }
  }

  lemma Covered(text: string, word: string, i: nat, k: nat)
    requires ContainsAt(text, word, i) && i <= k < i + |word|
    ensures text[k] in word
  {
    assert word[k - i] == text[i..i + |word|][k - i];
  }

  /** A word without the separator occurs on one side of it. */
  lemma ContainsSplit(a: string, c: char, b: string, word: string)
    requires c !in word && word != ""
    ensures Contains(a + [c] + b, word) <==> Contains(a, word) || Contains(b, word)
  {
    var text := a + [c] + b;
    if Contains(a, word) {
      var i: nat :| i <= |a| && ContainsAt(a, word, i);
      assert text[i..i + |word|] == a[i..i + |word|];
      assert ContainsAt(text, word, i);
    }
    if Contains(b, word) {
      var i: nat :| i <= |b| && ContainsAt(b, word, i);
      assert text[|a| + 1 + i..|a| + 1 + i + |word|] == b[i..i + |word|];
      assert ContainsAt(text, word, |a| + 1 + i);
    }
    if Contains(text, word) {
      var i: nat :| i <= |text| && ContainsAt(text, word, i);
      if i + |word| <= |a| {
        assert text[i..i + |word|] == a[i..i + |word|];
        assert ContainsAt(a, word, i);
      } else if i > |a| {
        var j: nat := i - |a| - 1;
        assert text[i..i + |word|] == b[j..j + |word|];
        assert ContainsAt(b, word, j);
      } else {
        Covered(text, word, i, |a|);
      }
    }
  }

  lemma {:induction false} ContainsJoined(parts: seq<string>, c: char, word: string)
    requires c !in word && word != ""
    ensures Contains(Paths.Join(parts, c), word) <==> exists i :: 0 <= i < |parts| && Contains(parts[i], word)
  {
    hide Contains;
    if |parts| == 0 {
      NotInEmpty(word);
    } else if |parts| > 1 {
      ContainsJoined(parts[1..], c, word);
      ContainsSplit(parts[0], c, Paths.Join(parts[1..], c), word);
      if i :| 0 <= i < |parts[1..]| && Contains(parts[1..][i], word) {
        assert Contains(parts[i + 1], word);
      }
      if i :| 0 <= i < |parts| && Contains(parts[i], word) {
        assert i > 0 ==> Contains(parts[1..][i - 1], word);
      }
    }
  }

  lemma NotInEmpty(word: string)
    requires word != ""
    ensures !Contains("", word)
  {
  }

  /** A word is found in the search text exactly if some source's title has it, both case-folded. */
  lemma FoundInTitle(fold: string -> string, evidence: seq<Evidence>, word: string)
    requires Charwise(fold) && word != "" && '\n' !in fold(word)
    ensures Contains(fold(SearchText(fold, evidence)), fold(word))
            <==> exists e :: e in evidence && Contains(fold(e.title), fold(word))
  {
    hide Contains, Lines;
    var lines := Lines(fold, evidence);
    LinesMean(fold, evidence);
    FoldJoined(fold, lines);
    ContainsJoined(FoldAll(fold, lines), '\n', fold(word));
    NotInEmpty(fold(word));
    if i :| 0 <= i < |lines| && Contains(FoldAll(fold, lines)[i], fold(word)) {
      assert lines[i] in lines;
    }
    if e :| e in evidence && Contains(fold(e.title), fold(word)) {
      assert e.title in lines;
      var i :| 0 <= i < |lines| && lines[i] == e.title;
      assert Contains(FoldAll(fold, lines)[i], fold(word));
    }
  }

  /** Some source's title has one of the words, blanks around it aside and both case-folded. */
  ghost predicate Titled(fold: string -> string, words: seq<string>, evidence: seq<Evidence>) {
    exists i, e :: 0 <= i < |words| && e in evidence && Btih.Strip(words[i]) != ""
                   && Contains(fold(e.title), fold(Btih.Strip(words[i])))
  }

  ghost predicate OneLine(fold: string -> string, words: seq<string>) {
    forall i :: 0 <= i < |words| ==> '\n' !in fold(Btih.Strip(words[i]))
  }

  lemma MentionedInTitle(fold: string -> string, words: seq<string>, evidence: seq<Evidence>)
    requires Charwise(fold) && OneLine(fold, words)
    ensures Mentions(fold, words, SearchText(fold, evidence)) <==> Titled(fold, words, evidence)
  {
    hide Contains, SearchText, Btih.Strip;
    var text := SearchText(fold, evidence);
    forall i | 0 <= i < |words| && Btih.Strip(words[i]) != ""
      ensures Hits(fold, words[i], text) <==>
                exists e :: e in evidence && Contains(fold(e.title), fold(Btih.Strip(words[i])))
    {
      FoundInTitle(fold, evidence, Btih.Strip(words[i]));
    }
  }

  /** A known value all sources that know it agree on. */
  ghost predicate Claimed(evidence: seq<Evidence>, read: Evidence -> Truth, value: Truth) {
    && (exists e :: e in evidence && read(e) == value)
    && forall e :: e in evidence ==> read(e) == value || read(e) == Unknown
  }

  ghost predicate Suits(mode: Mode, evidence: seq<Evidence>, read: Evidence -> Truth) {
    && (mode == Only ==> Claimed(evidence, read, Yes))
    && (mode == Exclude ==> !Claimed(evidence, read, Yes))
  }

  ghost predicate KnownSize(evidence: seq<Evidence>, size: real) {
    && (exists e :: e in evidence && e.size == Some(size))
    && forall e :: e in evidence && e.size.Some? ==> e.size.value == size
  }

  /** The rules as conditions on what the sources report. */
  ghost predicate Acceptable(fold: string -> string, rules: RuleSet, evidence: seq<Evidence>) {
    && Suits(rules.chineseSubtitles, evidence, (e: Evidence) => e.chineseSubtitles)
    && Suits(rules.uncensored, evidence, (e: Evidence) => e.uncensored)
    && Suits(rules.uhd, evidence, (e: Evidence) => e.uhd)
    && (rules.minSize.Some? || rules.maxSize.Some? ==>
          exists size :: KnownSize(evidence, size)
                         && (rules.minSize.Some? ==> size >= rules.minSize.value)
                         && (rules.maxSize.Some? ==> size <= rules.maxSize.value))
    && (rules.minSeeders.Some? ==>
          exists e :: e in evidence && e.seeders.Some? && e.seeders.value >= rules.minSeeders.value)
    && (AllBlank(rules.includeKeywords) || Titled(fold, rules.includeKeywords, evidence))
    && !Titled(fold, rules.excludeKeywords, evidence)
  }

  lemma TruthFits(mode: Mode, evidence: seq<Evidence>, field: Field, read: Evidence -> Truth)
    requires forall e :: read(e) == TruthOf(e, field)
    ensures Fits(mode, Agreed(evidence, field)) <==> Suits(mode, evidence, read)
  {
    AgreedMeans(evidence, field, Yes);
  }

  lemma SizeFits(rules: RuleSet, evidence: seq<Evidence>)
    requires rules.minSize.Some? || rules.maxSize.Some?
    ensures (&& (rules.minSize.Some? ==> Size(evidence).Some? && Size(evidence).value >= rules.minSize.value)
             && (rules.maxSize.Some? ==> Size(evidence).Some? && Size(evidence).value <= rules.maxSize.value))
            <==> exists size :: KnownSize(evidence, size)
                                && (rules.minSize.Some? ==> size >= rules.minSize.value)
                                && (rules.maxSize.Some? ==> size <= rules.maxSize.value)
  {
    hide Size;
    forall size: real ensures Size(evidence) == Some(size) <==> KnownSize(evidence, size) {
      SizeMeans(evidence, size);
    }
  }

  /**
   * A candidate is accepted exactly if its sources' reports meet every rule. Keywords are looked for in every
   * title, not only in the one shown.
   */
  lemma AcceptedByEvidence(fold: string -> string, rules: RuleSet, c: Candidate)
    requires Charwise(fold) && OneLine(fold, rules.includeKeywords) && OneLine(fold, rules.excludeKeywords)
    ensures Evaluate(fold, rules, c).accepted <==> Acceptable(fold, rules, c.evidence)
  {
    hide Evaluate, Fits, Suits, Size, Seeders, Agreed, SearchText, KnownSize, Mentions, Titled, AllBlank, Charwise;
    hide OneLine;
    AcceptedIff(fold, rules, c);
    TruthFits(rules.chineseSubtitles, c.evidence, ChineseSubtitles, (e: Evidence) => e.chineseSubtitles);
    TruthFits(rules.uncensored, c.evidence, Uncensored, (e: Evidence) => e.uncensored);
    TruthFits(rules.uhd, c.evidence, Uhd, (e: Evidence) => e.uhd);
    if rules.minSize.Some? || rules.maxSize.Some? {
      SizeFits(rules, c.evidence);
    }
    SeedersIsMax(c.evidence);
    MentionedInTitle(fold, rules.includeKeywords, c.evidence);
    MentionedInTitle(fold, rules.excludeKeywords, c.evidence);
  }

  // ---- The result does not depend on provider order ----

  /** Joining a group collects exactly the evidence of its members. */
  lemma {:induction false} JoinedEvidence(g: seq<Candidate>)
    requires |g| > 0
    ensures JoinAll(g, Joined).btih == g[0].btih
    ensures forall e :: e in JoinAll(g, Joined).evidence <==> exists c :: c in g && e in c.evidence
  {
    if |g| > 1 {
      var init, last := g[..|g| - 1], g[|g| - 1];
      JoinedEvidence(init);
      AppendMissingUnion(JoinAll(init, Joined).evidence, last.evidence);
      assert g == init + [last];
      assert last in g;
    } else {
      assert g[0] in g;
      assert forall c :: c in g ==> c == g[0];
    }
  }

  /** Evidence that a member of the batch brings for a hash. */
  ghost predicate Brings(batch: seq<Candidate>, btih: string, e: Evidence) {
    exists b :: b in batch && b.btih == btih && e in b.evidence
  }

  ghost predicate Holds(batch: seq<Candidate>, btih: string) {
    exists b :: b in batch && b.btih == btih
  }

  /** A merged batch holds every hash of the batch once, with all the evidence for it and no other. */
  lemma MergedBatchMeans(batch: seq<Candidate>)
    ensures var merged := MergedBatch(batch);
            && (forall i, j :: 0 <= i < j < |merged| ==> merged[i].btih != merged[j].btih)
            && (forall btih :: Holds(merged, btih) <==> Holds(batch, btih))
            && (forall c, e :: c in merged ==> (e in c.evidence <==> Brings(batch, c.btih, e)))
  {
    hide Merged, JoinAll, Joined, Group;
    var merged := MergedBatch(batch);
    JoinKeepsHash();
    MergedSpec(batch, HashOf, Joined);
    forall i, j | 0 <= i < j < |merged| ensures merged[i].btih != merged[j].btih {
      assert HashOf(merged[i]) != HashOf(merged[j]);
    }
    forall i, e | 0 <= i < |merged| ensures e in merged[i].evidence <==> Brings(batch, merged[i].btih, e) {
      MergedEvidence(batch, merged[i], e);
    }
    forall c | c in merged ensures Holds(batch, c.btih) {
      var i :| 0 <= i < |merged| && merged[i] == c;
      GroupMembers(batch, HashOf(merged[i]), HashOf);
      assert Group(batch, HashOf(merged[i]), HashOf)[0] in batch;
    }
    forall b | b in batch ensures Holds(merged, b.btih) {
      var i :| 0 <= i < |batch| && batch[i] == b;
      assert HasKey(merged, HashOf, HashOf(batch[i]));
      var j :| 0 <= j < |merged| && HashOf(merged[j]) == b.btih;
      assert merged[j] in merged;
    }
  }

  lemma JoinKeepsHash()
    ensures KeepsKey(HashOf, Joined)
  {
  }

  lemma NothingMerged(batch: seq<Candidate>)
    ensures MergedBatch(batch) == [] <==> batch == []
  {
    MergedSpec(batch, HashOf, Joined);
    if batch != [] {
      assert HasKey(MergedBatch(batch), HashOf, HashOf(batch[0]));
    }
  }

  lemma MergedEvidence(batch: seq<Candidate>, c: Candidate, e: Evidence)
    requires var group := Group(batch, c.btih, HashOf); |group| > 0 && c == JoinAll(group, Joined)
    ensures e in c.evidence <==> Brings(batch, c.btih, e)
  {
    hide JoinAll, Joined, Group;
    var group := Group(batch, c.btih, HashOf);
    JoinedEvidence(group);
    GroupMembers(batch, c.btih, HashOf);
    if e in c.evidence {
      var b :| b in group && e in b.evidence;
      var i :| 0 <= i < |group| && group[i] == b;
      assert group[i] in batch && HashOf(group[i]) == c.btih;
    }
    if b :| b in batch && b.btih == c.btih && e in b.evidence {
      var i :| 0 <= i < |batch| && batch[i] == b;
      assert batch[i] in group;
    }
  }

  /** What a ranked list shows: hash, verdict, reasons, and the key it is ranked by. */
  datatype Row = Row(btih: string, accepted: bool, reasons: seq<Reason>, key: Key)

  function RowOf(e: Evaluation): Row {
    Row(e.candidate.btih, e.accepted, e.reasons, e.key)
  }

  function Rows(es: seq<Evaluation>): seq<Row> {
    MapAll(es, RowOf)
  }

  predicate RowLe(a: Row, b: Row) {
    KeyLe(a.key, b.key)
  }

  lemma KeyLePreorders()
    ensures TotalPreorder(RankLe) && TotalPreorder(RowLe)
  {
    forall x: Key, y: Key ensures KeyLe(x, y) || KeyLe(y, x) { KeyLeTotal(x, y); }
    forall x, y, z | KeyLe(x, y) && KeyLe(y, z) ensures KeyLe(x, z) { KeyLeTransitive(x, y, z); }
  }

  function ViewRow(fold: string -> string, rules: RuleSet): Candidate -> Row {
    c => RowOf(Evaluate(fold, rules, c))
  }

  lemma RowsOfSet(fold: string -> string, rules: RuleSet)
    ensures ViewOfSet(ViewRow(fold, rules), HashOf, Joined)
  {
    hide AggregateOf, Reasons, JoinAll;
    var view := ViewRow(fold, rules);
    forall g: seq<Candidate>, h: seq<Candidate> | |g| > 0 && |h| > 0 && SingleKey(g, HashOf) && SameElements(g, h)
      ensures view(JoinAll(g, Joined)) == view(JoinAll(h, Joined))
    {
      JoinedEvidence(g);
      JoinedEvidence(h);
      assert h[0] in h;
      assert h[0] in g;
      AggregateCanonical(fold, JoinAll(g, Joined).evidence, JoinAll(h, Joined).evidence);
    }
  }

  lemma HashesApart(fold: string -> string, rules: RuleSet)
    ensures RanksKeysApart(ViewRow(fold, rules), HashOf, RowLe)
    ensures RanksKeysApart((c: Candidate) => Evaluate(fold, rules, c), HashOf, RankLe)
  {
    hide AggregateOf, Reasons, KeyLe;
    forall a: Key, b: Key ensures KeyLe(a, b) && KeyLe(b, a) ==> a.btih == b.btih { KeyLeTotal(a, b); }
  }

  /**
   * Provider order never matters: two batches with the same candidates, in any order and multiplicity,
   * rank to the identical list of hashes, verdicts and reasons.
   */
  lemma RankingIgnoresOrder(fold: string -> string, rules: RuleSet, b1: seq<Candidate>, b2: seq<Candidate>)
    requires SameElements(b1, b2)
    ensures Rows(Ranked(fold, rules, b1)) == Rows(Ranked(fold, rules, b2))
  {
    hide KeyLe, Evaluate, Merged;
    KeyLePreorders();
    RowsOfSet(fold, rules);
    HashesApart(fold, rules);
    OrderIsImmaterial(b1, b2, HashOf, Joined, ViewRow(fold, rules), RowLe);
    RowsAreViews(fold, rules, MergedBatch(b1));
    RowsAreViews(fold, rules, MergedBatch(b2));
  }

  /** Ranking evaluations and showing their rows is sorting the rows. */
  lemma RowsAreViews(fold: string -> string, rules: RuleSet, cs: seq<Candidate>)
    ensures Rows(Sort(EvaluateAll(fold, rules, cs), RankLe)) == Sort(MapAll(cs, ViewRow(fold, rules)), RowLe)
  {
    hide KeyLe, Evaluate;
    SortCommutes(EvaluateAll(fold, rules, cs), RowOf, RankLe, RowLe);
    assert MapAll(EvaluateAll(fold, rules, cs), RowOf) == MapAll(cs, ViewRow(fold, rules));
  }

  /** The ranked list is strictly ordered, and it is the merged candidates, each evaluated. */
  lemma RankedSpec(fold: string -> string, rules: RuleSet, batch: seq<Candidate>)
    ensures var ranked := Ranked(fold, rules, batch);
            && StrictlySorted(ranked, RankLe)
            && (forall e :: e in ranked <==> exists c :: c in MergedBatch(batch) && e == Evaluate(fold, rules, c))
  {
    hide KeyLe, Evaluate, Merged, Sort, Insert, MapAll;
    KeyLePreorders();
    HashesApart(fold, rules);
    SortedViews(batch, HashOf, Joined, (c: Candidate) => Evaluate(fold, rules, c), RankLe);
    EvaluatedMembers(fold, rules, MergedBatch(batch));
  }

  lemma EvaluatedMembers(fold: string -> string, rules: RuleSet, cs: seq<Candidate>)
    ensures forall e :: e in EvaluateAll(fold, rules, cs) <==> exists c :: c in cs && e == Evaluate(fold, rules, c)
  {
    hide Evaluate, MapAll;
    var all := EvaluateAll(fold, rules, cs);
    forall c | c in cs ensures Evaluate(fold, rules, c) in all {
      var i :| 0 <= i < |cs| && cs[i] == c;
      assert all[i] == Evaluate(fold, rules, c);
    }
    forall e | e in all ensures exists c :: c in cs && e == Evaluate(fold, rules, c) {
      var i :| 0 <= i < |all| && all[i] == e;
      assert cs[i] in cs;
    }
  }

  lemma {:induction false} SelectFirst(es: seq<Evaluation>)
    ensures Select(es).None? <==> forall i :: 0 <= i < |es| ==> !es[i].accepted
    ensures Select(es).Some? ==>
              exists i :: 0 <= i < |es| && es[i].accepted && es[i].candidate == Select(es).value
                          && forall j :: 0 <= j < i ==> !es[j].accepted
  {
    if |es| != 0 {
      if es[0].accepted {
        assert es[0].candidate == Select(es).value;
      } else {
        SelectFirst(es[1..]);
        if Select(es).Some? {
          var i :| 0 <= i < |es[1..]| && es[1..][i].accepted && es[1..][i].candidate == Select(es).value
                   && forall j :: 0 <= j < i ==> !es[1..][j].accepted;
          assert es[i + 1] == es[1..][i];
          assert forall j :: 0 <= j < i + 1 ==> !es[j].accepted by {
            forall j | 0 <= j < i + 1 ensures !es[j].accepted {
              if j > 0 { assert es[j] == es[1..][j - 1]; }
            }
          }
        } else {
          forall i | 0 <= i < |es| ensures !es[i].accepted {
            if i > 0 { assert es[i] == es[1..][i - 1]; }
          }
        }
      }
    }
  }

  /** `c` ranks strictly before every other accepted candidate. */
  ghost predicate UniqueMinimum(c: Candidate, fold: string -> string, rules: RuleSet, cs: seq<Candidate>) {
    && c in cs && Evaluate(fold, rules, c).accepted
    && forall d :: d in cs && d != c && Evaluate(fold, rules, d).accepted ==>
         && KeyLe(Evaluate(fold, rules, c).key, Evaluate(fold, rules, d).key)
         && !KeyLe(Evaluate(fold, rules, d).key, Evaluate(fold, rules, c).key)
  }

  /** The selected candidate is the unique minimum of the sort key among all accepted candidates. */
  lemma SelectedIsUniqueMinimum(fold: string -> string, rules: RuleSet, batch: seq<Candidate>)
    ensures var merged := MergedBatch(batch);
            var selected := Select(Ranked(fold, rules, batch));
            && (selected.None? <==> forall c :: c in merged ==> !Evaluate(fold, rules, c).accepted)
            && (selected.Some? ==> UniqueMinimum(selected.value, fold, rules, merged))
  {
    hide KeyLe, Merged, Sort, Insert, MergedBatch, Ranked, UniqueMinimum, Reasons, AggregateOf, KeyOf;
    var merged, ranked := MergedBatch(batch), Ranked(fold, rules, batch);
    RankedSpec(fold, rules, batch);
    SelectFirst(ranked);
    if Select(ranked).Some? {
      var i :| 0 <= i < |ranked| && ranked[i].accepted && ranked[i].candidate == Select(ranked).value
               && forall k :: 0 <= k < i ==> !ranked[k].accepted;
      FirstIsMinimum(fold, rules, merged, ranked, i);
    } else {
      forall c | c in merged ensures !Evaluate(fold, rules, c).accepted {
        assert Evaluate(fold, rules, c) in ranked;
      }
    }
  }

  lemma FirstIsMinimum(fold: string -> string, rules: RuleSet, cs: seq<Candidate>, ranked: seq<Evaluation>, i: nat)
    requires StrictlySorted(ranked, RankLe)
    requires forall e :: e in ranked <==> exists c :: c in cs && e == Evaluate(fold, rules, c)
    requires i < |ranked| && ranked[i].accepted && forall k :: 0 <= k < i ==> !ranked[k].accepted
    ensures UniqueMinimum(ranked[i].candidate, fold, rules, cs)
    ensures exists c :: c in cs && Evaluate(fold, rules, c).accepted
  {
    hide KeyLe, Reasons, AggregateOf, KeyOf;
    assert ranked[i] in ranked;
    var c :| c in cs && ranked[i] == Evaluate(fold, rules, c);
    forall d | d in cs && d != c && Evaluate(fold, rules, d).accepted
      ensures RankLe(ranked[i], Evaluate(fold, rules, d)) && !RankLe(Evaluate(fold, rules, d), ranked[i])
    {
      assert Evaluate(fold, rules, d) in ranked;
      var j :| 0 <= j < |ranked| && ranked[j] == Evaluate(fold, rules, d);
      assert ranked[j].candidate != ranked[i].candidate;
      assert i < j;
    }
  }

  /** What makes one aggregate rank before another, both accepted: more known seeders, then a smaller known size. */
  predicate AtLeastAsGood(a: Aggregate, b: Aggregate) {
    && (b.seeders.Some? ==> a.seeders.Some? && a.seeders.value >= b.seeders.value)
    && (a.seeders == b.seeders && b.size.Some? ==> a.size.Some? && a.size.value <= b.size.value)
  }

  lemma KeyLeMeans(fold: string -> string, rules: RuleSet, c: Candidate, d: Candidate)
    requires Evaluate(fold, rules, c).accepted && Evaluate(fold, rules, d).accepted
    requires KeyLe(Evaluate(fold, rules, c).key, Evaluate(fold, rules, d).key)
    ensures AtLeastAsGood(AggregateOf(fold, c.evidence), AggregateOf(fold, d.evidence))
  {
    hide AggregateOf, Reasons, StrLe, NamesLe;
  }

  /**
   * The selected candidate has the most known seeders of all accepted ones, and the smallest known size among
   * equals.
   */
  lemma SelectedIsBest(fold: string -> string, rules: RuleSet, batch: seq<Candidate>, d: Candidate)
    requires d in MergedBatch(batch) && Evaluate(fold, rules, d).accepted
    ensures Select(Ranked(fold, rules, batch)).Some?
    ensures AtLeastAsGood(AggregateOf(fold, Select(Ranked(fold, rules, batch)).value.evidence),
                          AggregateOf(fold, d.evidence))
  {
    hide AggregateOf, Evaluate, KeyLe, MergedBatch, Ranked, Select;
    SelectedIsUniqueMinimum(fold, rules, batch);
    var c := Select(Ranked(fold, rules, batch)).value;
    if c != d {
      KeyLeMeans(fold, rules, c, d);
    }
  }

  // ---- The second implementation: source by source ----

  function Flattened(batches: seq<seq<Candidate>>): seq<Candidate> {
    if |batches| == 0 then [] else Flattened(batches[..|batches| - 1]) + batches[|batches| - 1]
  }

  datatype ResultStatus = NoCandidate | Filtered | Selected

  /** The nested loop of `Pipeline.discover`: it merges while iterating over the sources. */
  method Collect(item: Identity, batches: seq<seq<Candidate>>) returns (r: Option<seq<Candidate>>)
    ensures r.None? <==> !BelongTo(item, Flattened(batches))
    ensures r.Some? ==> r.value == MergedBatch(Flattened(batches))
  {
    hide MergeInto;
    var candidates: seq<Candidate> := [];
    for s := 0 to |batches|
      invariant candidates == MergedBatch(Flattened(batches[..s]))
      invariant BelongTo(item, Flattened(batches[..s]))
    {
      ghost var before := Flattened(batches[..s]);
      assert batches[..s + 1][..s] == batches[..s];
      assert before + batches[s][..0] == before;
      for i := 0 to |batches[s]|
        invariant candidates == MergedBatch(before + batches[s][..i])
        invariant BelongTo(item, before + batches[s][..i])
      {
        var c := batches[s][i];
        if c.item != item {
          ForeignCandidate(item, batches, s, i);
          return None;
        }
        assert (before + batches[s][..i + 1])[..|before| + i] == before + batches[s][..i];
        candidates := MergeInto(candidates, c, HashOf, Joined);
      }
      assert batches[s][..|batches[s]|] == batches[s];
    }
    assert batches[..|batches|] == batches;
    r := Some(candidates);
  }

  /** `Pipeline.discover` for one item. */
  method Discover(fold: string -> string, rules: RuleSet, item: Identity, batches: seq<seq<Candidate>>)
    returns (r: Option<(ResultStatus, seq<Evaluation>, Option<Candidate>)>)
    ensures r.None? <==> !BelongTo(item, Flattened(batches))
    ensures r.Some? ==>
              var ranked := Ranked(fold, rules, Flattened(batches));
              && r.value.1 == ranked && r.value.2 == Select(ranked)
              && (r.value.0 == NoCandidate <==> Flattened(batches) == [])
              && (r.value.0 == Selected <==> exists e :: e in ranked && e.accepted)
  {
    hide MergedBatch, Flattened, BelongTo, Sort, Evaluate, RankLe, Select;
    var candidates := Collect(item, batches);
    if candidates.None? {
      return None;
    }
    var evaluations := Sort(EvaluateAll(fold, rules, candidates.value), RankLe);
    var selected := Select(evaluations);
    SelectFirst(evaluations);
    NothingMerged(Flattened(batches));
    assert forall e :: e in evaluations ==> exists i :: 0 <= i < |evaluations| && evaluations[i] == e;
    if evaluations == [] {
      r := Some((NoCandidate, evaluations, selected));
    } else if selected.None? {
      r := Some((Filtered, evaluations, selected));
    } else {
      r := Some((Selected, evaluations, selected));
    }
  }

  lemma {:induction false} SelectedIffAccepted(es: seq<Evaluation>)
    ensures Select(es).None? <==> Accepted(es) == []
  {
    if |es| != 0 {
      SelectedIffAccepted(es[1..]);
    }
  }

  lemma {:induction false} ForeignCandidate(item: Identity, batches: seq<seq<Candidate>>, s: nat, i: nat)
    requires s < |batches| && i < |batches[s]| && batches[s][i].item != item
    ensures !BelongTo(item, Flattened(batches))
  {
    var n := |batches| - 1;
    var front := Flattened(batches[..n]);
    if s == n {
      assert Flattened(batches)[|front| + i] == batches[s][i];
    } else {
      ForeignCandidate(item, batches[..n], s, i);
      var k :| 0 <= k < |front| && front[k].item != item;
      assert Flattened(batches)[k] == front[k];
    }
  }

  // ---- The order of the ranking ----

  /** Accepted first; then more known seeders; then a smaller known size; then the hash. */
  ghost predicate Before(fold: string -> string, rules: RuleSet, c: Candidate, d: Candidate) {
    var a, b := AggregateOf(fold, c.evidence), AggregateOf(fold, d.evidence);
    var accepted, accepted' := Accepts(fold, rules, a), Accepts(fold, rules, b);
    if accepted != accepted' then accepted
    else if a.seeders != b.seeders then
      a.seeders.Some? && (b.seeders.None? || a.seeders.value > b.seeders.value)
    else if a.size != b.size then a.size.Some? && (b.size.None? || a.size.value < b.size.value)
    else c.btih != d.btih && StrLe(c.btih, d.btih)
  }

  lemma KeyLeBefore(fold: string -> string, rules: RuleSet, c: Candidate, d: Candidate)
    requires c.btih != d.btih
    ensures RankLe(Evaluate(fold, rules, c), Evaluate(fold, rules, d)) <==> Before(fold, rules, c, d)
  {
    hide AggregateOf, Reasons, StrLe, NamesLe, Accepts;
    AcceptedIff(fold, rules, c);
    AcceptedIff(fold, rules, d);
  }

  /** `order` lists exactly these candidates, each before all that follow it. */
  ghost predicate InOrder(fold: string -> string, rules: RuleSet, order: seq<Candidate>) {
    forall i, j :: 0 <= i < j < |order| ==> Before(fold, rules, order[i], order[j])
  }

  function Ranking(evaluations: seq<Evaluation>): seq<Candidate> {
    MapAll(evaluations, (e: Evaluation) => e.candidate)
  }

  /** The ranking is exactly the merged candidates, each judged and before all that follow it. */
  lemma RankingMeans(fold: string -> string, rules: RuleSet, batch: seq<Candidate>)
    ensures var ranked := Ranked(fold, rules, batch);
            && (forall i :: 0 <= i < |ranked| ==>
                  ranked[i].accepted == Accepts(fold, rules, AggregateOf(fold, ranked[i].candidate.evidence)))
            && (forall c :: c in Ranking(ranked) <==> c in MergedBatch(batch))
            && InOrder(fold, rules, Ranking(ranked))
  {
    hide Merged, MergedBatch, Ranked, Before, RankLe, Accepts, AggregateOf, Evaluate;
    var ranked := Ranked(fold, rules, batch);
    RankedSpec(fold, rules, batch);
    forall i | 0 <= i < |ranked|
      ensures ranked[i].candidate in MergedBatch(batch)
      ensures ranked[i] == Evaluate(fold, rules, ranked[i].candidate)
      ensures ranked[i].accepted == Accepts(fold, rules, AggregateOf(fold, ranked[i].candidate.evidence))
    {
      assert ranked[i] in ranked;
      var c :| c in MergedBatch(batch) && ranked[i] == Evaluate(fold, rules, c);
      EvaluatesItself(fold, rules, c);
      AcceptedIff(fold, rules, c);
    }
    forall c | c in MergedBatch(batch) ensures c in Ranking(ranked) {
      assert Evaluate(fold, rules, c) in ranked;
      var i :| 0 <= i < |ranked| && ranked[i] == Evaluate(fold, rules, c);
      EvaluatesItself(fold, rules, c);
      assert Ranking(ranked)[i] == c;
    }
    forall i, j | 0 <= i < j < |ranked| ensures Before(fold, rules, ranked[i].candidate, ranked[j].candidate) {
      RankedApart(batch, ranked[i].candidate, ranked[j].candidate);
      KeyLeBefore(fold, rules, ranked[i].candidate, ranked[j].candidate);
    }
  }

  lemma EvaluatesItself(fold: string -> string, rules: RuleSet, c: Candidate)
    ensures Evaluate(fold, rules, c).candidate == c
  {
  }

  /** Merged candidates are told apart by their hashes. */
  lemma RankedApart(batch: seq<Candidate>, c: Candidate, d: Candidate)
    requires c in MergedBatch(batch) && d in MergedBatch(batch) && c != d
    ensures c.btih != d.btih
  {
    hide Merged;
    MergedSpec(batch, HashOf, Joined);
    var merged := MergedBatch(batch);
    var i :| 0 <= i < |merged| && merged[i] == c;
    var j :| 0 <= j < |merged| && merged[j] == d;
    if i < j {
      assert HashOf(merged[i]) != HashOf(merged[j]);
    } else {
      assert HashOf(merged[j]) != HashOf(merged[i]);
    }
  }

  /** The accepted part of a list, and only that, in the same order. */
  lemma {:induction false} AcceptedMeans(evaluations: seq<Evaluation>)
    ensures forall e :: e in Accepted(evaluations) <==> e in evaluations && e.accepted
  {
    if |evaluations| != 0 {
      AcceptedMeans(evaluations[1..]);
      assert evaluations == [evaluations[0]] + evaluations[1..];
    }
  }

  lemma {:induction false} AcceptedInOrder(fold: string -> string, rules: RuleSet, evaluations: seq<Evaluation>)
    requires InOrder(fold, rules, Ranking(evaluations))
    ensures InOrder(fold, rules, Ranking(Accepted(evaluations)))
  {
    hide Before;
    if |evaluations| != 0 {
      var rest := evaluations[1..];
      forall i, j | 0 <= i < j < |rest| ensures Before(fold, rules, Ranking(rest)[i], Ranking(rest)[j]) {
        assert Ranking(rest)[i] == Ranking(evaluations)[i + 1] && Ranking(rest)[j] == Ranking(evaluations)[j + 1];
      }
      AcceptedInOrder(fold, rules, rest);
      AcceptedMeans(rest);
      var accepted := Accepted(rest);
      if evaluations[0].accepted {
        forall j | 0 <= j < |accepted| ensures Before(fold, rules, evaluations[0].candidate, accepted[j].candidate) {
          assert accepted[j] in accepted;
          var k :| 0 <= k < |rest| && rest[k] == accepted[j];
          assert Before(fold, rules, Ranking(evaluations)[0], Ranking(evaluations)[k + 1]);
        }
      }
    }
  }

  /** `order` is the accepted candidates of a batch, the best first. */
  ghost predicate BestFirst(fold: string -> string, rules: RuleSet, batch: seq<Candidate>, order: seq<Candidate>) {
    && (forall c :: c in order <==> c in MergedBatch(batch) && Accepts(fold, rules, AggregateOf(fold, c.evidence)))
    && InOrder(fold, rules, order)
  }

  lemma AcceptedBestFirst(fold: string -> string, rules: RuleSet, batch: seq<Candidate>)
    ensures BestFirst(fold, rules, batch, Ranking(Accepted(Ranked(fold, rules, batch))))
  {
    hide MergedBatch, Ranked, Before, Accepts, AggregateOf;
    var ranked := Ranked(fold, rules, batch);
    var accepted := Accepted(ranked);
    RankingMeans(fold, rules, batch);
    AcceptedMeans(ranked);
    AcceptedInOrder(fold, rules, ranked);
    forall c ensures c in Ranking(accepted) <==>
                       c in MergedBatch(batch) && Accepts(fold, rules, AggregateOf(fold, c.evidence)) {
      if c in Ranking(accepted) {
        var i :| 0 <= i < |accepted| && Ranking(accepted)[i] == c;
        assert accepted[i] in accepted;
        var j :| 0 <= j < |ranked| && ranked[j] == accepted[i];
        assert Ranking(ranked)[j] == c;
      }
      if c in MergedBatch(batch) && Accepts(fold, rules, AggregateOf(fold, c.evidence)) {
        assert c in Ranking(ranked);
        var j :| 0 <= j < |ranked| && Ranking(ranked)[j] == c;
        assert ranked[j] in ranked && ranked[j].accepted;
        var i :| 0 <= i < |accepted| && accepted[i] == ranked[j];
        assert Ranking(accepted)[i] == c;
      }
    }
  }
}
