/** One run of a profile: its items, its counters and its verdict (runs/service.py). */
module Runs {
  import opened Wrappers
  import opened Store
  import opened Lifecycle
  import opened Submission
  import opened Fallback
  import opened Operations
  import Attempts
  import Btih
  import Discovery
  import Grouping
  import History
  import Ordering
  import Paths
  import Ranking = Candidates

  /** The part of a run's frozen settings that its item loop reads. */
  datatype Settings = Settings(
    fold: string -> string,
    rules: Ranking.RuleSet,
    directory: string,
    topN: nat,
    autoSubmit: bool)

  /** What the candidate sources answer for one item, and how many of them failed. */
  datatype Search = Search(values: seq<Ranking.Candidate>, failures: nat)

  /**
   * Everything outside the program that one item meets: the row of its content, the search results, the
   * replies to its submissions, and possibly a database failure after that many candidates were stored.
   */
  datatype ItemWorld = ItemWorld(row: nat, search: Search, remote: Remote, crash: Option<nat>)

  datatype ItemOutcome = ItemOutcome(db: Db, stats: Stats, raised: bool, partial: bool)

  function Hashes(evaluations: seq<Ranking.Evaluation>): (r: seq<string>)
    ensures |r| == |evaluations| && forall i :: 0 <= i < |r| ==> r[i] == evaluations[i].candidate.btih
  {
    if |evaluations| == 0 then [] else [evaluations[0].candidate.btih] + Hashes(evaluations[1..])
  }

  function UpsertAll(db: Db, hashes: seq<string>): (r: Db)
    ensures r.tasks == db.tasks && r.logs == db.logs
    decreases |hashes|
  {
    if |hashes| == 0 then db else UpsertAll(UpsertCandidate(db, hashes[0]).0, hashes[1..])
  }

  /** The hashes stored before the item goes on or raises. */
  function Stored(world: ItemWorld, ranked: seq<Ranking.Evaluation>): seq<string> {
    var all := Hashes(ranked);
    if world.crash.Some? && world.crash.value < |all| then all[..world.crash.value] else all
  }

  /** An item counts as without candidates, filtered, or selected. */
  function Classified(stats: Stats, ranked: seq<Ranking.Evaluation>): Stats {
    if ranked == [] then stats.(itemsNoCandidate := stats.itemsNoCandidate + 1)
    else if Ranking.Accepted(ranked) == [] then stats.(itemsFiltered := stats.itemsFiltered + 1)
    else stats.(itemsSelected := stats.itemsSelected + 1)
  }

  function Searched(stats: Stats, world: ItemWorld): Stats {
    stats.(sourceFailures := stats.sourceFailures + world.search.failures)
  }

  /** The counters when an item's candidates are stored. */
  function WithCandidates(stats: Stats, world: ItemWorld, ranked: seq<Ranking.Evaluation>): Stats {
    var classified := Classified(Searched(stats, world), ranked);
    classified.(candidatesFound := classified.candidatesFound + |ranked|,
                candidatesAccepted := classified.candidatesAccepted + |Ranking.Accepted(ranked)|)
  }

  /** What the fallback loop works on: the accepted hashes in ranked order. */
  function ItemFor(settings: Settings, world: ItemWorld, ranked: seq<Ranking.Evaluation>): Item {
    Item(world.row, settings.directory, Hashes(Ranking.Accepted(ranked)))
  }

  /** `_process_item`. */
  function ProcessItem(db: Db, config: Config, settings: Settings, content: Discovery.ContentItem, world: ItemWorld,
                       stats: Stats): ItemOutcome
    requires |db.logs| == |db.tasks|
  {
    var partial := world.search.failures > 0;
    if !Ranking.BelongTo(Discovery.IdentityOf(settings.fold)(content), world.search.values)
    then ItemOutcome(db, Searched(stats, world), true, partial)
    else
      var ranked := Ranking.Ranked(settings.fold, settings.rules, world.search.values);
      var stored := UpsertAll(db, Stored(world, ranked));
      if world.crash.Some? then ItemOutcome(stored, Classified(Searched(stats, world), ranked), true, partial)
      else if !settings.autoSubmit || Ranking.Accepted(ranked) == []
      then ItemOutcome(stored, WithCandidates(stats, world, ranked), false, partial)
      else
        var r := SubmitItem(stored, config, ItemFor(settings, world, ranked), partial,
                            WithCandidates(stats, world, ranked), world.remote);
        ItemOutcome(r.db, r.stats, r.status.ItemRaised?, r.partial)
  }

  /** The counters after an item that failed or was processed. */
  function AfterItem(o: ItemOutcome): Stats {
    if o.raised then o.stats.(itemFailures := o.stats.itemFailures + 1)
    else o.stats.(itemsProcessed := o.stats.itemsProcessed + 1)
  }

  /** The item loop of `_execute_locked`, from item `k` on. */
  function RunItems(db: Db, config: Config, settings: Settings, items: seq<Discovery.ContentItem>, k: nat,
                    world: nat -> ItemWorld,
                    stats: Stats, partial: bool): (r: (Db, Stats, bool))
    requires |db.logs| == |db.tasks| && k <= |items|
    decreases |items| - k
  {
    if k == |items| then (db, stats, partial)
    else
      ItemKeepsShape(db, config, settings, items[k], world(k), stats);
      var o := ProcessItem(db, config, settings, items[k], world(k), stats);
      RunItems(o.db, config, settings, items, k + 1, world, AfterItem(o), o.raised || partial || o.partial)
  }

  datatype Discoveries = Discoveries(values: seq<Discovery.ContentItem>, failures: nat, anySuccess: bool)

  datatype RunStatus = Success | Partial | RunFailed(code: string)

  datatype RunResult = RunResult(db: Db, stats: Stats, status: RunStatus)

  /** The counters before the item loop. */
  function Started(discovered: nat, failures: nat): (s: Stats)
    ensures s.itemsDiscovered == discovered
  {
    EMPTY_STATS.(itemsDiscovered := discovered, sourceFailures := failures)
  }

  /** A created run up to `finish_run`: `initialized` says whether its sources and rules could be set up. */
  function Execute(db: Db, config: Config, settings: Settings, initialized: bool, found: Discoveries,
                   world: nat -> ItemWorld): RunResult
    requires |db.logs| == |db.tasks|
  {
    if !initialized then RunResult(db, Started(0, 0), RunFailed("run_initialization_or_execution_failed"))
    else
      if !found.anySuccess then RunResult(db, Started(0, found.failures), RunFailed("all_discovery_sources_failed"))
      else
        var items := Discovery.TopItems(settings.fold, found.values, settings.topN);
        var (after, stats, partial) :=
          RunItems(db, config, settings, items, 0, world, Started(|items|, found.failures), found.failures > 0);
        RunResult(after, stats, if partial then Partial else Success)
  }

  lemma ItemKeepsShape(db: Db, config: Config, settings: Settings, content: Discovery.ContentItem, world: ItemWorld,
                       stats: Stats)
    requires |db.logs| == |db.tasks|
    ensures var after := ProcessItem(db, config, settings, content, world, stats).db;
            |after.logs| == |after.tasks|
  {
    hide Loop, Ranking.Ranked, Ranking.BelongTo, Ranking.Accepted, Hashes, UpsertAll;
    var ranked := Ranking.Ranked(settings.fold, settings.rules, world.search.values);
    var accepted := Ranking.Accepted(ranked);
    if accepted != [] {
      LoopAppendsOnly(UpsertAll(db, Stored(world, ranked)), config, ItemFor(settings, world, ranked), 0, 0, None,
                      world.search.failures > 0, WithCandidates(stats, world, ranked), world.remote);
    }
  }

  // ---- The counters add up ----

  function Kinds(s: Stats): nat {
    s.itemsNoCandidate + s.itemsFiltered + s.itemsSelected
  }

  /** The counters that make a run partial, apart from failed items. */
  function Alarms(s: Stats): nat {
    s.sourceFailures + Troubles(s)
  }

  /** Selections and fallbacks that no attempt followed. */
  function Unattempted(s: Stats): int {
    s.itemsSelected + s.candidateFallbacks - s.submitAttempts
  }

  /** Attempts without an outcome. */
  function Unresolved(s: Stats): int {
    s.submitAttempts - Outcomes(s)
  }

  /** How the counters move over one item. */
  ghost predicate ItemCounted(before: Stats, after: Stats, raised: bool, partial: bool, autoSubmit: bool) {
    && after.itemsDiscovered == before.itemsDiscovered
    && after.itemsProcessed == before.itemsProcessed
    && after.itemFailures == before.itemFailures
    && Kinds(before) <= Kinds(after) <= Kinds(before) + 1
    && (!raised ==> Kinds(after) == Kinds(before) + 1)
    && after.candidatesAccepted - before.candidatesAccepted <= after.candidatesFound - before.candidatesFound
    && 0 <= Unresolved(after) - Unresolved(before) <= (if raised then 1 else 0)
    && Alarms(after) >= Alarms(before)
    && (!raised ==> (partial <==> Alarms(after) > Alarms(before)))
    && (!autoSubmit ==>
          after.submitAttempts == before.submitAttempts && after.candidateFallbacks == before.candidateFallbacks)
    && Unattempted(before) <= Unattempted(after)
    && (autoSubmit ==> Unattempted(after) <= Unattempted(before) + if raised then 1 else 0)
  }

  lemma {:induction false} AcceptedAreSome(evaluations: seq<Ranking.Evaluation>)
    ensures |Ranking.Accepted(evaluations)| <= |evaluations|
    ensures forall i :: 0 <= i < |Ranking.Accepted(evaluations)| ==> Ranking.Accepted(evaluations)[i] in evaluations
  {
    if |evaluations| != 0 {
      AcceptedAreSome(evaluations[1..]);
      assert evaluations == [evaluations[0]] + evaluations[1..];
    }
  }

  lemma ItemCounts(db: Db, config: Config, settings: Settings, content: Discovery.ContentItem, world: ItemWorld,
                   stats: Stats)
    requires |db.logs| == |db.tasks|
    ensures var o := ProcessItem(db, config, settings, content, world, stats);
            ItemCounted(stats, o.stats, o.raised, o.partial, settings.autoSubmit)
  {
    hide Loop, Ranking.Ranked, Ranking.BelongTo, Ranking.Accepted, Hashes, UpsertAll;
    var ranked := Ranking.Ranked(settings.fold, settings.rules, world.search.values);
    var accepted := Ranking.Accepted(ranked);
    AcceptedAreSome(ranked);
    if accepted != [] {
      LoopCounts(UpsertAll(db, Stored(world, ranked)), config, ItemFor(settings, world, ranked), 0, 0, None,
                 world.search.failures > 0,
                 WithCandidates(stats, world, ranked),
                 world.remote);
    }
  }

  /** The loops that `SelectFirst` and `Accepted` run agree on whether anything is accepted. */
  lemma NothingAccepted(fold: string -> string, rules: Ranking.RuleSet, values: seq<Ranking.Candidate>)
    ensures Ranking.Ranked(fold, rules, values) == [] <==> values == []
    ensures Ranking.Accepted(Ranking.Ranked(fold, rules, values)) == []
            <==> forall c :: c in Ranking.MergedBatch(values) ==> !Ranking.Evaluate(fold, rules, c).accepted
  {
    hide Ranking.Evaluate, Ranking.MergedBatch, Grouping.Merged;
    Ranking.SelectedIsUniqueMinimum(fold, rules, values);
    Ranking.SelectedIffAccepted(Ranking.Ranked(fold, rules, values));
    Ranking.NothingMerged(values);
  }

  /** An item counts as without candidates, filtered or selected by what the sources found and the rules accept. */
  lemma ItemClassified(db: Db, config: Config, settings: Settings, content: Discovery.ContentItem, world: ItemWorld,
                       stats: Stats)
    requires |db.logs| == |db.tasks|
    requires Ranking.BelongTo(Discovery.IdentityOf(settings.fold)(content), world.search.values)
    ensures var after := ProcessItem(db, config, settings, content, world, stats).stats;
            var values := world.search.values;
            var accepted := exists c :: c in Ranking.MergedBatch(values)
                                        && Ranking.Evaluate(settings.fold, settings.rules, c).accepted;
            && after.itemsNoCandidate == stats.itemsNoCandidate + (if values == [] then 1 else 0)
            && after.itemsFiltered == stats.itemsFiltered + (if values != [] && !accepted then 1 else 0)
            && after.itemsSelected == stats.itemsSelected + (if accepted then 1 else 0)
  {
    hide Loop, Ranking.Ranked, Ranking.Accepted, Hashes, UpsertAll, Ranking.Evaluate, Ranking.MergedBatch;
    var values := world.search.values;
    var ranked := Ranking.Ranked(settings.fold, settings.rules, values);
    var accepted := Ranking.Accepted(ranked);
    NothingAccepted(settings.fold, settings.rules, values);
    AcceptedAreSome(ranked);
    if accepted != [] {
      LoopCounts(UpsertAll(db, Stored(world, ranked)), config, ItemFor(settings, world, ranked), 0, 0, None,
                 world.search.failures > 0,
                 WithCandidates(stats, world, ranked),
                 world.remote);
    }
  }

  /** The counters of a run, `n` items in. */
  ghost predicate Conserved(s: Stats, n: nat, autoSubmit: bool) {
    && n == s.itemsProcessed + s.itemFailures
    && s.itemsProcessed <= Kinds(s) <= n
    && s.candidatesAccepted <= s.candidatesFound
    && 0 <= Unresolved(s) <= s.itemFailures
    && (!autoSubmit ==> s.submitAttempts == 0)
    && 0 <= Unattempted(s)
    && (autoSubmit ==> Unattempted(s) <= s.itemFailures)
  }

  ghost predicate Clean(s: Stats) {
    Alarms(s) == 0 && s.itemFailures == 0
  }

  lemma {:induction false} ItemsConserve(db: Db, config: Config, settings: Settings, items: seq<Discovery.ContentItem>,
                                         k: nat,
                                         world: nat -> ItemWorld, stats: Stats, partial: bool)
    requires |db.logs| == |db.tasks| && k <= |items|
    requires Conserved(stats, k, settings.autoSubmit) && (partial <==> !Clean(stats))
    ensures var r := RunItems(db, config, settings, items, k, world, stats, partial);
            && Conserved(r.1, |items|, settings.autoSubmit)
            && (r.2 <==> !Clean(r.1))
            && r.1.itemsDiscovered == stats.itemsDiscovered
    decreases |items| - k
  {
    hide ProcessItem;
    if k < |items| {
      ItemKeepsShape(db, config, settings, items[k], world(k), stats);
      ItemCounts(db, config, settings, items[k], world(k), stats);
      var o := ProcessItem(db, config, settings, items[k], world(k), stats);
      ItemsConserve(o.db, config, settings, items, k + 1, world, AfterItem(o), o.raised || partial || o.partial);
    }
  }

  lemma TopItemsCut(settings: Settings, values: seq<Discovery.ContentItem>)
    ensures |Discovery.TopItems(settings.fold, values, settings.topN)| <= settings.topN
  {
  }

  /**
   * The statistics of every run add up: every discovered item was processed or failed; every attempt has
   * an outcome, up to one attempt a failed item; every selected item is attempted once and again for each
   * fallback. The run is a success exactly when no source, item or submission went wrong.
   */
  lemma RunConserves(db: Db, config: Config, settings: Settings, initialized: bool, found: Discoveries,
                     world: nat -> ItemWorld)
    requires |db.logs| == |db.tasks|
    ensures var r := Execute(db, config, settings, initialized, found, world);
            && (r.status.RunFailed? <==> !initialized || !found.anySuccess)
            && (r.status.RunFailed? ==>
                  && r.db == db
                  && r.stats == EMPTY_STATS.(sourceFailures := if initialized then found.failures else 0)
                  && r.status.code == if initialized then "all_discovery_sources_failed"
                                      else "run_initialization_or_execution_failed")
            && Conserved(r.stats, r.stats.itemsDiscovered, settings.autoSubmit)
            && (!r.status.RunFailed?
                ==> (r.status.Success? <==> Clean(r.stats)) && r.stats.itemsDiscovered <= settings.topN)
  {
    hide RunItems, Discovery.TopItems, Conserved, Clean;
    var items := Discovery.TopItems(settings.fold, found.values, settings.topN);
    TopItemsCut(settings, found.values);
    StartConserves(0, 0, settings.autoSubmit);
    StartConserves(0, found.failures, settings.autoSubmit);
    StartConserves(|items|, found.failures, settings.autoSubmit);
    if initialized && found.anySuccess {
      ItemsConserve(db, config, settings, items, 0, world, Started(|items|, found.failures), found.failures > 0);
    }
  }

  lemma StartConserves(discovered: nat, failures: nat, autoSubmit: bool)
    ensures Conserved(Started(discovered, failures), 0, autoSubmit)
    ensures failures > 0 <==> !Clean(Started(discovered, failures))
  {
  }

  // ---- A run is a sequence of the transactions of `History` ----

  lemma {:induction false} UpsertsReach(db: Db, config: Config, hashes: seq<string>)
    requires Sound(db) && forall i :: 0 <= i < |hashes| ==> Btih.NormalBtih(hashes[i])
    ensures Reaches(db, config, UpsertAll(db, hashes))
    ensures forall h :: h in db.candidates || h in hashes ==> h in UpsertAll(db, hashes).candidates
    decreases |hashes|
  {
    hide Sound, Btih.NormalBtih, Reaches;
    if |hashes| == 0 {
      ReachesItself(db, config);
    } else {
      var next := UpsertCandidate(db, hashes[0]).0;
      History.PrepareKeepsSound(db, hashes[0]);
      ReachesByOne(db, config, History.Prepare(hashes[0]));
      UpsertsReach(next, config, hashes[1..]);
      ReachesTransitive(db, config, next, UpsertAll(db, hashes));
      assert hashes == [hashes[0]] + hashes[1..];
    }
  }

  /** Candidates carry normal hashes, which their constructor checks. */
  ghost predicate NormalHashes(values: seq<Ranking.Candidate>) {
    forall i :: 0 <= i < |values| ==> Btih.NormalBtih(values[i].btih)
  }

  lemma RankedHashes(fold: string -> string, rules: Ranking.RuleSet, values: seq<Ranking.Candidate>)
    requires NormalHashes(values)
    ensures var ranked := Ranking.Ranked(fold, rules, values);
            forall i :: 0 <= i < |ranked| ==> Btih.NormalBtih(Hashes(ranked)[i])
  {
    hide Btih.NormalBtih, Ranking.Ranked, Ranking.MergedBatch, Ranking.Evaluate;
    var ranked := Ranking.Ranked(fold, rules, values);
    Ranking.RankedSpec(fold, rules, values);
    forall i | 0 <= i < |ranked| ensures Btih.NormalBtih(ranked[i].candidate.btih) {
      assert ranked[i] in ranked;
      var c :| c in Ranking.MergedBatch(values) && ranked[i] == Ranking.Evaluate(fold, rules, c);
      MergedHash(values, c);
      EvaluatedHash(fold, rules, c);
    }
  }

  lemma EvaluatedHash(fold: string -> string, rules: Ranking.RuleSet, c: Ranking.Candidate)
    ensures Ranking.Evaluate(fold, rules, c).candidate == c
  {
  }

  lemma MergedHash(values: seq<Ranking.Candidate>, c: Ranking.Candidate)
    requires c in Ranking.MergedBatch(values)
    ensures exists i :: 0 <= i < |values| && values[i].btih == c.btih
  {
    hide Grouping.Merged, Grouping.JoinAll;
    Grouping.MergedSpec(values, Ranking.HashOf, Ranking.Joined);
    var j :| 0 <= j < |Ranking.MergedBatch(values)| && Ranking.MergedBatch(values)[j] == c;
    Grouping.GroupMembers(values, c.btih, Ranking.HashOf);
  }

  lemma AcceptedArePrepared(db: Db, ranked: seq<Ranking.Evaluation>, item: Item)
    requires item.accepted == Hashes(Ranking.Accepted(ranked))
    requires forall i :: 0 <= i < |ranked| ==> Hashes(ranked)[i] in db.candidates
    ensures Prepared(db, item)
  {
    var accepted := Ranking.Accepted(ranked);
    AcceptedAreSome(ranked);
    forall k | 0 <= k < |accepted| ensures item.accepted[k] in db.candidates {
      var i :| 0 <= i < |ranked| && ranked[i] == accepted[k];
      assert Hashes(ranked)[i] == item.accepted[k];
    }
  }

  lemma ItemReaches(db: Db, config: Config, settings: Settings, content: Discovery.ContentItem, world: ItemWorld,
                    stats: Stats)
    requires Sound(db) && |db.logs| == |db.tasks| && NormalHashes(world.search.values)
    ensures Reaches(db, config, ProcessItem(db, config, settings, content, world, stats).db)
  {
    hide Sound, Loop, Ranking.Ranked, Ranking.BelongTo, Ranking.Accepted, Hashes, UpsertAll, Btih.NormalBtih;
    hide Reaches;
    ReachesItself(db, config);
    if Ranking.BelongTo(Discovery.IdentityOf(settings.fold)(content), world.search.values) {
      var ranked := Ranking.Ranked(settings.fold, settings.rules, world.search.values);
      RankedHashes(settings.fold, settings.rules, world.search.values);
      UpsertsReach(db, config, Stored(world, ranked));
      if world.crash.None? && settings.autoSubmit && Ranking.Accepted(ranked) != [] {
        var stored := UpsertAll(db, Stored(world, ranked));
        var item := ItemFor(settings, world, ranked);
        ReachesSound(db, config, stored);
        AcceptedArePrepared(stored, ranked, item);
        LoopReaches(stored, config, item, 0, 0, None, world.search.failures > 0, WithCandidates(stats, world, ranked),
                    world.remote);
        ReachesTransitive(db, config, stored, ProcessItem(db, config, settings, content, world, stats).db);
      }
    }
  }

  lemma {:induction false} ItemsReach(db: Db, config: Config, settings: Settings,
                                      items: seq<Discovery.ContentItem>, k: nat,
                                      world: nat -> ItemWorld, stats: Stats, partial: bool)
    requires Sound(db) && |db.logs| == |db.tasks| && k <= |items|
    requires forall i :: 0 <= i < |items| ==> NormalHashes(world(i).search.values)
    ensures Reaches(db, config, RunItems(db, config, settings, items, k, world, stats, partial).0)
    decreases |items| - k
  {
    hide Sound, ProcessItem, NormalHashes, Reaches;
    if k == |items| {
      ReachesItself(db, config);
    } else {
      ItemKeepsShape(db, config, settings, items[k], world(k), stats);
      ItemReaches(db, config, settings, items[k], world(k), stats);
      var o := ProcessItem(db, config, settings, items[k], world(k), stats);
      ReachesSound(db, config, o.db);
      var partial' := o.raised || partial || o.partial;
      ItemsReach(o.db, config, settings, items, k + 1, world, AfterItem(o), partial');
      ReachesTransitive(db, config, o.db,
                        RunItems(o.db, config, settings, items, k + 1, world, AfterItem(o), partial').0);
    }
  }

  /**
   * Whatever the sources and the client answer, a run's effect on the database is a sequence of the
   * transactions of `History`, and the store stays sound.
   */
  lemma RunReaches(db: Db, config: Config, settings: Settings, initialized: bool, found: Discoveries,
                   world: nat -> ItemWorld)
    requires Sound(db) && |db.logs| == |db.tasks|
    requires forall i :: 0 <= i < settings.topN ==> NormalHashes(world(i).search.values)
    ensures Reaches(db, config, Execute(db, config, settings, initialized, found, world).db)
    ensures Sound(Execute(db, config, settings, initialized, found, world).db)
  {
    hide Sound, RunItems, NormalHashes, Reaches, Discovery.TopItems;
    ReachesItself(db, config);
    if initialized && found.anySuccess {
      var items := Discovery.TopItems(settings.fold, found.values, settings.topN);
      TopItemsCut(settings, found.values);
      ItemsReach(db, config, settings, items, 0, world, Started(|items|, found.failures), found.failures > 0);
    }
    ReachesSound(db, config, Execute(db, config, settings, initialized, found, world).db);
  }

  // ---- What an item submits ----

  lemma {:induction false} UpsertsStore(db: Db, hashes: seq<string>, h: string)
    ensures h in UpsertAll(db, hashes).candidates <==> h in db.candidates || h in hashes
    decreases |hashes|
  {
    if |hashes| != 0 {
      var next := UpsertCandidate(db, hashes[0]).0;
      UpsertsStore(next, hashes[1..], h);
      assert hashes == [hashes[0]] + hashes[1..];
      var found := FindCandidate(db.candidates, hashes[0]);
      assert found.Some? ==> db.candidates[found.value] in db.candidates;
    }
  }

  /** The item as the loop gets it: its own content and directory, and the hashes of the candidates in this order. */
  ghost predicate Wanted(item: Item, settings: Settings, world: ItemWorld, order: seq<Ranking.Candidate>) {
    && item.content == world.row && item.directory == settings.directory && |item.accepted| == |order|
    && forall k :: 0 <= k < |order| ==> item.accepted[k] == order[k].btih
  }

  /** Everything the loop over these candidates did to the store and to the counters. */
  ghost predicate Submitted(db: Db, config: Config, settings: Settings, world: ItemWorld, stats: Stats,
                            order: seq<Ranking.Candidate>, o: ItemOutcome) {
    exists stored: Db, item: Item, r: LoopResult ::
      && stored.tasks == db.tasks && stored.logs == db.logs && db.candidates <= stored.candidates
      && Wanted(item, settings, world, order)
      && Attempts.Told(stored, config, item, 0, 0, None, world.remote, r)
      && o.db == r.db && (o.raised <==> r.status.ItemRaised?)
      && o.stats.submitAttempts == stats.submitAttempts + |r.attempts|
      && o.stats.candidateFallbacks == stats.candidateFallbacks + |r.attempts| - 1
      && Tallied(stats, o.stats, |r.attempts|, r.status)
  }

  /** What an item does whose accepted candidates are these. */
  ghost predicate Does(db: Db, config: Config, settings: Settings, world: ItemWorld, stats: Stats,
                       order: seq<Ranking.Candidate>, o: ItemOutcome) {
    && Ranking.BestFirst(settings.fold, settings.rules, world.search.values, order)
    && o.stats.sourceFailures == stats.sourceFailures + world.search.failures
    && o.stats.candidatesFound
       == stats.candidatesFound + (if world.crash.Some? then 0 else |Ranking.MergedBatch(world.search.values)|)
    && o.stats.candidatesAccepted == stats.candidatesAccepted + (if world.crash.Some? then 0 else |order|)
    && if world.crash.Some? || !settings.autoSubmit || order == []
       then o.db.tasks == db.tasks && o.db.logs == db.logs && (o.raised <==> world.crash.Some?)
            && o.stats.submitAttempts == stats.submitAttempts && Tallied(stats, o.stats, 1, ItemRaised)
       else Submitted(db, config, settings, world, stats, order, o)
  }

  lemma ItemForWanted(settings: Settings, world: ItemWorld, ranked: seq<Ranking.Evaluation>)
    ensures Wanted(ItemFor(settings, world, ranked), settings, world, Ranking.Ranking(Ranking.Accepted(ranked)))
  {
    hide Ranking.Accepted;
  }

  /**
   * What an item submits: the accepted candidates of the merged search results, the best first, each next one
   * exactly after a rejection; nothing if the run does not submit, if nothing is accepted, or if storing the
   * candidates failed.
   */
  lemma ItemSubmits(db: Db, config: Config, settings: Settings, content: Discovery.ContentItem, world: ItemWorld,
                    stats: Stats)
    requires Sound(db) && |db.logs| == |db.tasks| && NormalHashes(world.search.values)
    requires Ranking.BelongTo(Discovery.IdentityOf(settings.fold)(content), world.search.values)
    ensures var o := ProcessItem(db, config, settings, content, world, stats);
            exists order: seq<Ranking.Candidate> :: Does(db, config, settings, world, stats, order, o)
  {
    hide Sound, Loop, Ranking.Ranked, Ranking.BelongTo, Ranking.Accepted, Hashes, UpsertAll, Btih.NormalBtih;
    hide Reaches, Ranking.BestFirst, Attempts.Told, Wanted, ItemFor;
    var values := world.search.values;
    var ranked := Ranking.Ranked(settings.fold, settings.rules, values);
    var order := Ranking.Ranking(Ranking.Accepted(ranked));
    Ranking.AcceptedBestFirst(settings.fold, settings.rules, values);
    RankedLength(settings, values);
    if world.crash.None? && settings.autoSubmit && order != [] {
      RankedHashes(settings.fold, settings.rules, values);
      UpsertsReach(db, config, Stored(world, ranked));
      var stored := UpsertAll(db, Stored(world, ranked));
      var item := ItemFor(settings, world, ranked);
      ReachesSound(db, config, stored);
      ItemForHashes(settings, world, ranked);
      AcceptedArePrepared(stored, ranked, item);
      ItemForWanted(settings, world, ranked);
      UpsertsExtend(db, Stored(world, ranked));
      var counted, partial := WithCandidates(stats, world, ranked), world.search.failures > 0;
      Attempts.LoopTold(stored, config, item, 0, 0, None, partial, counted, world.remote);
      LoopCounts(stored, config, item, 0, 0, None, partial, counted, world.remote);
      LoopVerdict(stored, config, item, 0, 0, None, partial, counted, world.remote);
      var r := SubmitItem(stored, config, item, partial, counted, world.remote);
      assert Submitted(db, config, settings, world, stats, order,
                       ProcessItem(db, config, settings, content, world, stats));
    }
    assert Does(db, config, settings, world, stats, order, ProcessItem(db, config, settings, content, world, stats));
  }

  lemma RankedLength(settings: Settings, values: seq<Ranking.Candidate>)
    ensures |Ranking.Ranked(settings.fold, settings.rules, values)| == |Ranking.MergedBatch(values)|
  {
    hide Ranking.MergedBatch, Ranking.Evaluate;
  }

  /** A candidate of another content fails the item before anything is stored; its failed sources still count. */
  lemma ForeignItem(db: Db, config: Config, settings: Settings, content: Discovery.ContentItem, world: ItemWorld,
                    stats: Stats)
    requires |db.logs| == |db.tasks|
    requires exists c :: c in world.search.values && c.item != Discovery.IdentityOf(settings.fold)(content)
    ensures ProcessItem(db, config, settings, content, world, stats)
            == ItemOutcome(db, stats.(sourceFailures := stats.sourceFailures + world.search.failures), true,
                           world.search.failures > 0)
  {
    hide Loop, Ranking.Ranked, Ranking.Accepted, UpsertAll;
    var c :| c in world.search.values && c.item != Discovery.IdentityOf(settings.fold)(content);
    var i :| 0 <= i < |world.search.values| && world.search.values[i] == c;
  }

  lemma ItemForHashes(settings: Settings, world: ItemWorld, ranked: seq<Ranking.Evaluation>)
    ensures ItemFor(settings, world, ranked).accepted == Hashes(Ranking.Accepted(ranked))
    ensures |ItemFor(settings, world, ranked).accepted| == |Ranking.Accepted(ranked)|
  {
  }

  lemma {:induction false} UpsertsExtend(db: Db, hashes: seq<string>)
    ensures db.candidates <= UpsertAll(db, hashes).candidates
    decreases |hashes|
  {
    if |hashes| != 0 {
      UpsertsExtend(UpsertCandidate(db, hashes[0]).0, hashes[1..]);
    }
  }

  /**
   * Every row that an item adds is for an accepted candidate of the merged search results: the first for the
   * best of them, each next one for the next best, in the directory of its own hash below the profile's.
   */
  lemma RowsFollowRanking(db: Db, config: Config, settings: Settings, content: Discovery.ContentItem,
                          world: ItemWorld, stats: Stats)
    requires Sound(db) && |db.logs| == |db.tasks| && NormalHashes(world.search.values)
    requires Ranking.BelongTo(Discovery.IdentityOf(settings.fold)(content), world.search.values)
    ensures var after := ProcessItem(db, config, settings, content, world, stats).db;
            exists order: seq<Ranking.Candidate> ::
              && Ranking.BestFirst(settings.fold, settings.rules, world.search.values, order)
              && |db.tasks| <= |after.tasks| <= |db.tasks| + |order|
              && forall k :: 0 <= k < |order| && |db.tasks| + k < |after.tasks| ==>
                   RowFor(after, |db.tasks| + k, world.row, settings.directory, order[k].btih)
  {
    hide Sound, ProcessItem, Ranking.BelongTo, Ranking.BestFirst, Attempts.Told, NormalHashes, RowFor, Tallied;
    hide Lifecycle.Submission, Attempts.Asked, Ranking.MergedBatch;
    var o := ProcessItem(db, config, settings, content, world, stats);
    ItemSubmits(db, config, settings, content, world, stats);
    var order: seq<Ranking.Candidate> :| Does(db, config, settings, world, stats, order, o);
    if !(world.crash.Some? || !settings.autoSubmit || order == []) {
      var stored: Db, item: Item, r: LoopResult :|
        && stored.tasks == db.tasks && stored.logs == db.logs && db.candidates <= stored.candidates
        && Wanted(item, settings, world, order)
        && Attempts.Told(stored, config, item, 0, 0, None, world.remote, r)
        && o.db == r.db && (o.raised <==> r.status.ItemRaised?);
      Attempts.ToldIsShaped(stored, config, item, 0, 0, None, world.remote, r);
      forall k | 0 <= k < |order| && |db.tasks| + k < |o.db.tasks|
        ensures RowFor(o.db, |db.tasks| + k, world.row, settings.directory, order[k].btih)
      {
        Attempts.RowIsAsked(stored, config, item, 0, 0, None, world.remote, r, k);
        RowForAsked(config, o.db, |db.tasks| + k, item, r.attempts[k], world.remote.reply(0 + k),
                    world.remote.now(0 + k));
      }
    }
  }

  /** A row for a content and a hash, in the directory of that hash. */
  ghost predicate RowFor(db: Db, id: TaskId, content: nat, directory: string, btih: string) {
    && id < |db.tasks|
    && var t := db.tasks[id];
       && t.content == content && t.candidate < |db.candidates| && db.candidates[t.candidate] == btih
       && t.destination == Some(Paths.Absolute(Paths.Segments(directory) + [btih]))
  }

  lemma RowForAsked(config: Config, db: Db, id: TaskId, item: Item, a: Attempt, reply: SubmitReply, now: int)
    requires id < |db.tasks| && a.index < |item.accepted|
    requires a.candidate < |db.candidates| && db.candidates[a.candidate] == item.accepted[a.index]
    requires Lifecycle.Submission(db.tasks[id], Attempts.Asked(item, a), config, reply, now)
    ensures RowFor(db, id, item.content, item.directory, item.accepted[a.index])
  {
  }

  /** Without a failure, the hashes stored are exactly the known ones and those of the search results. */
  lemma ItemStores(db: Db, config: Config, settings: Settings, content: Discovery.ContentItem, world: ItemWorld,
                   stats: Stats, btih: string)
    requires |db.logs| == |db.tasks| && world.crash.None?
    requires Ranking.BelongTo(Discovery.IdentityOf(settings.fold)(content), world.search.values)
    ensures btih in ProcessItem(db, config, settings, content, world, stats).db.candidates
            <==> btih in db.candidates || Ranking.Holds(world.search.values, btih)
  {
    hide Loop, Ranking.Ranked, Ranking.BelongTo, Ranking.Accepted, Hashes, UpsertAll, Ranking.MergedBatch;
    var values := world.search.values;
    var ranked := Ranking.Ranked(settings.fold, settings.rules, values);
    UpsertsStore(db, Stored(world, ranked), btih);
    HashesOfRanked(settings, values, btih);
    if settings.autoSubmit && Ranking.Accepted(ranked) != [] {
      ItemForHashes(settings, world, ranked);
      LoopAppendsOnly(UpsertAll(db, Stored(world, ranked)), config, ItemFor(settings, world, ranked), 0, 0, None,
                      world.search.failures > 0, WithCandidates(stats, world, ranked), world.remote);
    }
  }

  lemma HashesOfRanked(settings: Settings, values: seq<Ranking.Candidate>, btih: string)
    ensures btih in Hashes(Ranking.Ranked(settings.fold, settings.rules, values)) <==> Ranking.Holds(values, btih)
  {
    hide Ranking.Ranked, Ranking.MergedBatch, Ranking.Evaluate, Ranking.Before, Ranking.Accepts;
    var ranked := Ranking.Ranked(settings.fold, settings.rules, values);
    var all := Ranking.Ranking(ranked);
    Ranking.RankingMeans(settings.fold, settings.rules, values);
    Ranking.MergedBatchMeans(values);
    if btih in Hashes(ranked) {
      var i :| 0 <= i < |ranked| && Hashes(ranked)[i] == btih;
      assert all[i] in all;
      assert Ranking.Holds(Ranking.MergedBatch(values), btih);
    }
    if Ranking.Holds(Ranking.MergedBatch(values), btih) {
      var c :| c in Ranking.MergedBatch(values) && c.btih == btih;
      assert c in all;
      var i :| 0 <= i < |all| && all[i] == c;
      assert Hashes(ranked)[i] == btih;
    }
  }

  // ---- A run is its items, one after the other ----

  /** The stores and the counters between the items of a run. */
  ghost predicate ItemByItem(config: Config, settings: Settings, items: seq<Discovery.ContentItem>, k: nat,
                             world: nat -> ItemWorld, dbs: seq<Db>, counters: seq<Stats>) {
    && k <= |items| && |dbs| == |counters| == |items| - k + 1
    && (forall i :: 0 <= i < |dbs| ==> |dbs[i].logs| == |dbs[i].tasks|)
    && forall i :: 0 <= i < |items| - k ==>
         var o := ProcessItem(dbs[i], config, settings, items[k + i], world(k + i), counters[i]);
         && dbs[i + 1] == o.db
         && counters[i + 1] == if o.raised then o.stats.(itemFailures := o.stats.itemFailures + 1)
                               else o.stats.(itemsProcessed := o.stats.itemsProcessed + 1)
  }

  lemma {:induction false} ItemsOneByOne(db: Db, config: Config, settings: Settings,
                                         items: seq<Discovery.ContentItem>, k: nat, world: nat -> ItemWorld,
                                         stats: Stats, partial: bool)
    requires |db.logs| == |db.tasks| && k <= |items|
    ensures var (after, final, _) := RunItems(db, config, settings, items, k, world, stats, partial);
            exists dbs, counters ::
              && ItemByItem(config, settings, items, k, world, dbs, counters)
              && dbs[0] == db && counters[0] == stats && dbs[|items| - k] == after && counters[|items| - k] == final
    decreases |items| - k
  {
    hide ProcessItem;
    if k == |items| {
      assert ItemByItem(config, settings, items, k, world, [db], [stats]);
    } else {
      ItemKeepsShape(db, config, settings, items[k], world(k), stats);
      var o := ProcessItem(db, config, settings, items[k], world(k), stats);
      ItemsOneByOne(o.db, config, settings, items, k + 1, world, AfterItem(o), o.raised || partial || o.partial);
      var (after, final, _) := RunItems(db, config, settings, items, k, world, stats, partial);
      var dbs, counters :| && ItemByItem(config, settings, items, k + 1, world, dbs, counters)
                           && dbs[0] == o.db && counters[0] == AfterItem(o)
                           && dbs[|items| - k - 1] == after && counters[|items| - k - 1] == final;
      ItemInFront(db, config, settings, items, k, world, stats, dbs, counters);
    }
  }

  lemma ItemInFront(db: Db, config: Config, settings: Settings, items: seq<Discovery.ContentItem>, k: nat,
                    world: nat -> ItemWorld, stats: Stats, dbs: seq<Db>, counters: seq<Stats>)
    requires |db.logs| == |db.tasks| && k < |items| && ItemByItem(config, settings, items, k + 1, world, dbs, counters)
    requires dbs[0] == ProcessItem(db, config, settings, items[k], world(k), stats).db
    requires counters[0] == AfterItem(ProcessItem(db, config, settings, items[k], world(k), stats))
    ensures ItemByItem(config, settings, items, k, world, [db] + dbs, [stats] + counters)
    ensures ([db] + dbs)[|items| - k] == dbs[|items| - k - 1]
    ensures ([stats] + counters)[|items| - k] == counters[|items| - k - 1]
  {
    hide ProcessItem;
    var dbs', counters' := [db] + dbs, [stats] + counters;
    forall i | 0 <= i < |items| - k
      ensures var o := ProcessItem(dbs'[i], config, settings, items[k + i], world(k + i), counters'[i]);
              && dbs'[i + 1] == o.db
              && counters'[i + 1] == if o.raised then o.stats.(itemFailures := o.stats.itemFailures + 1)
                                     else o.stats.(itemsProcessed := o.stats.itemsProcessed + 1)
    {
      if i > 0 {
        assert dbs'[i] == dbs[i - 1] && dbs'[i + 1] == dbs[i];
        assert counters'[i] == counters[i - 1] && counters'[i + 1] == counters[i];
        assert items[k + i] == items[(k + 1) + (i - 1)] && world(k + i) == world((k + 1) + (i - 1));
      }
    }
  }

  /** A run that gets to its items processes each of the chosen ones once, in their order, each in its own world. */
  lemma RunItemByItem(db: Db, config: Config, settings: Settings, found: Discoveries, world: nat -> ItemWorld)
    requires |db.logs| == |db.tasks| && found.anySuccess
    ensures var items := Discovery.TopItems(settings.fold, found.values, settings.topN);
            var r := Execute(db, config, settings, true, found, world);
            exists dbs, counters ::
              && ItemByItem(config, settings, items, 0, world, dbs, counters)
              && dbs[0] == db && dbs[|items|] == r.db && counters[|items|] == r.stats
              && counters[0] == EMPTY_STATS.(itemsDiscovered := |items|, sourceFailures := found.failures)
  {
    hide RunItems, ItemByItem, Discovery.TopItems;
    var items := Discovery.TopItems(settings.fold, found.values, settings.topN);
    ItemsOneByOne(db, config, settings, items, 0, world, Started(|items|, found.failures), found.failures > 0);
  }

  // ---- The run as the service executes it ----

  lemma OneBatch(values: seq<Ranking.Candidate>)
    ensures Ranking.Flattened([values]) == values
  {
    assert [values][..0] == [];
  }

  class Executor {
    const runs: RunService

    constructor (runs: RunService)
      ensures this.runs == runs
    {
      this.runs := runs;
    }

    method StoreCandidates(hashes: seq<string>)
      modifies runs.downloads.repository
      ensures runs.downloads.repository.State() == UpsertAll(old(runs.downloads.repository.State()), hashes)
    {
      var repository := runs.downloads.repository;
      assert hashes[0..] == hashes;
      for i := 0 to |hashes|
        invariant UpsertAll(repository.State(), hashes[i..]) == UpsertAll(old(repository.State()), hashes)
      {
        assert hashes[i..][0] == hashes[i] && hashes[i..][1..] == hashes[i + 1..];
        var id := repository.Upsert(hashes[i]);
      }
    }

    /** Merging, judging and sorting what the sources found; a foreign candidate raises. */
    method Rank(settings: Settings, content: Discovery.ContentItem, values: seq<Ranking.Candidate>)
      returns (r: Option<seq<Ranking.Evaluation>>)
      ensures r.None? <==> !Ranking.BelongTo(Discovery.IdentityOf(settings.fold)(content), values)
      ensures r.Some? ==> r.value == Ranking.Ranked(settings.fold, settings.rules, values)
    {
      hide Ranking.Flattened, Ranking.BelongTo, Ranking.Evaluate, Ranking.MergedBatch;
      OneBatch(values);
      var merged := Ranking.Collect(Discovery.IdentityOf(settings.fold)(content), [values]);
      if merged.None? {
        return None;
      }
      r := Some(Ordering.Sort(Ranking.EvaluateAll(settings.fold, settings.rules, merged.value), Ranking.RankLe));
    }

    /** `_process_item`. */
    method Process(settings: Settings, content: Discovery.ContentItem, world: ItemWorld, stats: Stats)
      returns (stats': Stats, raised: bool, partial: bool)
      requires |runs.downloads.repository.logs| == |runs.downloads.repository.tasks|
      modifies runs.downloads.repository
      ensures ItemOutcome(runs.downloads.repository.State(), stats', raised, partial)
              == ProcessItem(old(runs.downloads.repository.State()), runs.downloads.config, settings, content, world,
                             stats)
    {
      hide Loop, Ranking.Ranked, Ranking.BelongTo, Ranking.Accepted, Hashes, UpsertAll;
      hide Ranking.EvaluateAll, Ranking.Select;
      stats' := Searched(stats, world);
      partial := world.search.failures > 0;
      var ranking := Rank(settings, content, world.search.values);
      if ranking.None? {
        return stats', true, partial;
      }
      var ranked := ranking.value;
      var accepted := Ranking.Accepted(ranked);
      if ranked == [] {
        stats' := stats'.(itemsNoCandidate := stats'.itemsNoCandidate + 1);
      } else if accepted == [] {
        stats' := stats'.(itemsFiltered := stats'.itemsFiltered + 1);
      } else {
        stats' := stats'.(itemsSelected := stats'.itemsSelected + 1);
      }
      StoreCandidates(Stored(world, ranked));
      if world.crash.Some? {
        return stats', true, partial;
      }
      stats' := stats'.(candidatesFound := stats'.candidatesFound + |ranked|,
                        candidatesAccepted := stats'.candidatesAccepted + |accepted|);
      if !settings.autoSubmit || accepted == [] {
        return stats', false, partial;
      }
      var status;
      ghost var attempts;
      status, stats', partial, attempts :=
        runs.SubmitRanked(ItemFor(settings, world, ranked), partial, stats', world.remote);
      raised := status.ItemRaised?;
    }

    /** `_execute_locked`, from the created run to its final statistics. */
    method ExecuteLocked(settings: Settings, initialized: bool, found: Discoveries, world: nat -> ItemWorld)
      returns (stats: Stats, status: RunStatus)
      requires |runs.downloads.repository.logs| == |runs.downloads.repository.tasks|
      modifies runs.downloads.repository
      ensures RunResult(runs.downloads.repository.State(), stats, status)
              == Execute(old(runs.downloads.repository.State()), runs.downloads.config, settings, initialized, found,
                         world)
    {
      hide ProcessItem, Discovery.TopItems;
      var repository := runs.downloads.repository;
      stats := Started(0, 0);
      if !initialized {
        return stats, RunFailed("run_initialization_or_execution_failed");
      }
      stats := stats.(sourceFailures := found.failures);
      if !found.anySuccess {
        return stats, RunFailed("all_discovery_sources_failed");
      }
      var items := Discovery.MergeItems(settings.fold, found.values, settings.topN);
      stats := stats.(itemsDiscovered := |items|);
      var hadPartialFailure := found.failures > 0;
      ghost var whole := RunItems(repository.State(), runs.downloads.config, settings, items, 0, world, stats,
                                  hadPartialFailure);
      for k := 0 to |items|
        invariant |repository.logs| == |repository.tasks|
        invariant whole == RunItems(repository.State(), runs.downloads.config, settings, items, k, world, stats,
                                    hadPartialFailure)
      {
        ItemKeepsShape(repository.State(), runs.downloads.config, settings, items[k], world(k), stats);
        var raised, partial;
        stats, raised, partial := Process(settings, items[k], world(k), stats);
        if raised {
          stats := stats.(itemFailures := stats.itemFailures + 1);
          hadPartialFailure := true;
        } else {
          hadPartialFailure := hadPartialFailure || partial;
          stats := stats.(itemsProcessed := stats.itemsProcessed + 1);
        }
      }
      status := if hadPartialFailure then Partial else Success;
    }
  }
}
