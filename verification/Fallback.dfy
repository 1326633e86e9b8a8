/** The auto-submit loop of one run item: try accepted candidates in order (runs/service.py). */
module Fallback {
  import opened Wrappers
  import opened DownloadState
  import opened Store
  import opened Lifecycle
  import opened Submission
  import Btih
  import Paths

  /** The counters of a run that its item loop maintains. */
  datatype Stats = Stats(
    itemsDiscovered: nat,
    itemsProcessed: nat,
    itemsNoCandidate: nat,
    itemsFiltered: nat,
    itemsSelected: nat,
    candidatesFound: nat,
    candidatesAccepted: nat,
    submitAttempts: nat,
    itemsSubmitted: nat,
    itemsDeduplicated: nat,
    submitFailures: nat,
    submitUnknown: nat,
    submitAttentionRequired: nat,
    candidateFallbacks: nat,
    sourceFailures: nat,
    itemFailures: nat)

  const EMPTY_STATS := Stats(0, 0, 0, 0, 0, 0, 0, 0, 0, 0, 0, 0, 0, 0, 0, 0)

  datatype ItemStatus =
    | ItemSubmitted
    | ItemDeduplicated(task: Option<TaskId>)
    | ItemSubmitFailed
    | ItemSubmitUnknown
    | ItemAttentionRequired
    | ItemRaised

  /** One pass through the loop body, for the record. */
  datatype Attempt = Attempt(index: nat, candidate: nat, generation: nat, supersedes: Option<TaskId>,
                             task: Option<TaskId>)

  datatype LoopResult = LoopResult(db: Db, stats: Stats, attempts: seq<Attempt>, status: ItemStatus, partial: bool)

  /** The remote replies and the clock, attempt by attempt. */
  datatype Remote = Remote(reply: nat -> SubmitReply, now: nat -> int)

  datatype Item = Item(content: nat, directory: string, accepted: seq<string>)

  const REJECTION := "explicit_rejection"

  predicate ExplicitlyRejected(t: Task) {
    t.status == Failed && t.errorCode == Some(REJECTION)
  }

  function BareLink(btih: string): string {
    "magnet:?xt=urn:btih:" + btih
  }

  /** The arguments of one attempt. */
  function AttemptArgs(item: Item, candidate: nat, i: nat, destination: string, generation: nat,
                       supersedes: Option<TaskId>): SubmitArgs
    requires i < |item.accepted|
  {
    SubmitArgs(item.content, candidate, BareLink(item.accepted[i]), destination, generation, supersedes)
  }

  function CandidateId(db: Db, btih: string): nat {
    var found := FindCandidate(db.candidates, btih);
    if found.Some? then found.value else |db.candidates|
  }

  /** What the loop does after one attempt has ended without a rejection that leaves another candidate. */
  function Conclude(db: Db, stats: Stats, item: Item, candidate: nat, attempt: Attempt,
                    result: Result<TaskId, SubmitError>, partial: bool): LoopResult
    requires result.Ok? ==> result.value < |db.tasks|
  {
    match result
    case Err(ClaimRefused(IdempotencyConflict)) =>
      LoopResult(db, stats.(itemsDeduplicated := stats.itemsDeduplicated + 1), [attempt],
                 ItemDeduplicated(FirstClaim(db.tasks, CLIENT_KEY, item.content, candidate, 0)), partial)
    case Err(ClaimRefused(DestinationBusy)) =>
      LoopResult(db, stats.(submitFailures := stats.submitFailures + 1), [attempt], ItemSubmitFailed, true)
    case Err(_) => LoopResult(db, stats, [attempt], ItemRaised, partial)
    case Ok(id) =>
      var t := db.tasks[id];
      if t.status == Failed then
        LoopResult(db, stats.(submitFailures := stats.submitFailures + 1), [attempt], ItemSubmitFailed, true)
      else if t.status == Submitting then
        LoopResult(db, stats.(submitUnknown := stats.submitUnknown + 1), [attempt], ItemSubmitUnknown, true)
      else if t.status == AttentionRequired then
        LoopResult(db, stats.(submitAttentionRequired := stats.submitAttentionRequired + 1), [attempt],
                   ItemAttentionRequired, true)
      else LoopResult(db, stats.(itemsSubmitted := stats.itemsSubmitted + 1), [attempt], ItemSubmitted, partial)
  }

  predicate FallsBack(db: Db, item: Item, i: nat, result: Result<TaskId, SubmitError>)
    requires result.Ok? ==> result.value < |db.tasks|
  {
    result.Ok? && ExplicitlyRejected(db.tasks[result.value]) && i + 1 < |item.accepted|
  }

  /** The loop over `accepted`, from candidate `i` on. */
  function Loop(db: Db, config: Config, item: Item, i: nat, generation: nat, supersedes: Option<TaskId>,
                partial: bool, stats: Stats, remote: Remote): LoopResult
    requires |db.logs| == |db.tasks| && i < |item.accepted|
    decreases |item.accepted| - i
  {
    var counted := stats.(submitAttempts := stats.submitAttempts + 1);
    var btih := item.accepted[i];
    var candidate := CandidateId(db, btih);
    var destination := Paths.ResolveTaskDestination(item.directory, btih);
    if destination.Err? then
      LoopResult(db, counted, [Attempt(i, candidate, generation, supersedes, None)], ItemRaised, partial)
    else
      var args := AttemptArgs(item, candidate, i, destination.value, generation, supersedes);
      SubmitAppendsOnly(db, config, args, remote.reply(i), remote.now(i));
      var o := Submit(db, config, args, remote.reply(i), remote.now(i));
      var attempt := Attempt(i, candidate, generation, supersedes, if o.result.Ok? then Some(o.result.value) else None);
      if FallsBack(o.db, item, i, o.result) then
        var next := CandidateId(o.db, item.accepted[i + 1]);
        var rest := Loop(o.db, config, item, i + 1, NextGeneration(o.db, CLIENT_KEY, item.content, next),
                         Some(o.result.value), true,
                         counted.(submitFailures := counted.submitFailures + 1,
                                  candidateFallbacks := counted.candidateFallbacks + 1), remote);
        rest.(attempts := [attempt] + rest.attempts)
      else Conclude(o.db, counted, item, candidate, attempt, o.result, partial)
  }

  /** The whole loop of an item. */
  function SubmitItem(db: Db, config: Config, item: Item, partial: bool, stats: Stats, remote: Remote): LoopResult
    requires |db.logs| == |db.tasks| && |item.accepted| > 0
  {
    Loop(db, config, item, 0, 0, None, partial, stats, remote)
  }

  // ---- Counters ----

  function Outcomes(s: Stats): nat {
    s.itemsSubmitted + s.itemsDeduplicated + s.submitFailures + s.submitUnknown + s.submitAttentionRequired
  }

  function Troubles(s: Stats): nat {
    s.submitFailures + s.submitUnknown + s.submitAttentionRequired
  }

  /** The counters the loop leaves alone. */
  ghost predicate SameElsewhere(a: Stats, b: Stats) {
    && a.itemsDiscovered == b.itemsDiscovered && a.itemsProcessed == b.itemsProcessed
    && a.itemsNoCandidate == b.itemsNoCandidate && a.itemsFiltered == b.itemsFiltered
    && a.itemsSelected == b.itemsSelected && a.candidatesFound == b.candidatesFound
    && a.candidatesAccepted == b.candidatesAccepted && a.sourceFailures == b.sourceFailures
    && a.itemFailures == b.itemFailures
  }

  /** How the counters move between two points of the loop, `n` attempts apart. */
  ghost predicate Counted(before: Stats, after: Stats, n: nat, raised: bool) {
    && SameElsewhere(before, after)
    && after.submitAttempts == before.submitAttempts + n
    && Outcomes(after) == Outcomes(before) + n - (if raised then 1 else 0)
    && Troubles(after) >= Troubles(before)
  }

  lemma ConcludeCounts(db: Db, stats: Stats, item: Item, candidate: nat, attempt: Attempt,
                       result: Result<TaskId, SubmitError>, partial: bool)
    requires result.Ok? ==> result.value < |db.tasks|
    ensures var counted := stats.(submitAttempts := stats.submitAttempts + 1);
            var r := Conclude(db, counted, item, candidate, attempt, result, partial);
            && r.attempts == [attempt]
            && Counted(stats, r.stats, 1, r.status.ItemRaised?)
            && r.stats.candidateFallbacks == stats.candidateFallbacks
            && (!r.status.ItemRaised? ==> (r.partial <==> partial || Troubles(r.stats) > Troubles(stats)))
  {
    hide FirstClaim;
  }

  /**
   * Every attempt is counted once and ends in exactly one outcome counter, unless the loop raised; the
   * loop reports a partial result exactly when it was asked to or a trouble counter moved.
   */
  lemma {:induction false} LoopCounts(db: Db, config: Config, item: Item, i: nat, generation: nat,
                                      supersedes: Option<TaskId>, partial: bool, stats: Stats, remote: Remote)
    requires |db.logs| == |db.tasks| && i < |item.accepted|
    ensures var r := Loop(db, config, item, i, generation, supersedes, partial, stats, remote);
            && Counted(stats, r.stats, |r.attempts|, r.status.ItemRaised?)
            && r.stats.candidateFallbacks == stats.candidateFallbacks + |r.attempts| - 1
            && (!r.status.ItemRaised? ==> (r.partial <==> partial || Troubles(r.stats) > Troubles(stats)))
    decreases |item.accepted| - i
  {
    hide Submit, Paths.ResolveTaskDestination, CandidateId, NextGeneration, Conclude;
    var btih := item.accepted[i];
    var candidate := CandidateId(db, btih);
    var destination := Paths.ResolveTaskDestination(item.directory, btih);
    if destination.Ok? {
      var args := AttemptArgs(item, candidate, i, destination.value, generation, supersedes);
      SubmitAppendsOnly(db, config, args, remote.reply(i), remote.now(i));
      var o := Submit(db, config, args, remote.reply(i), remote.now(i));
      if FallsBack(o.db, item, i, o.result) {
        var counted := stats.(submitAttempts := stats.submitAttempts + 1);
        var next := CandidateId(o.db, item.accepted[i + 1]);
        LoopCounts(o.db, config, item, i + 1, NextGeneration(o.db, CLIENT_KEY, item.content, next),
                   Some(o.result.value), true,
                   counted.(submitFailures := counted.submitFailures + 1,
                            candidateFallbacks := counted.candidateFallbacks + 1), remote);
      } else {
        var attempt := Attempt(i, candidate, generation, supersedes,
                               if o.result.Ok? then Some(o.result.value) else None);
        ConcludeCounts(o.db, stats, item, candidate, attempt, o.result, partial);
      }
    }
  }

  /** The loop adds rows at the end of the tables and leaves the stored hashes alone. */
  lemma {:induction false} LoopAppendsOnly(db: Db, config: Config, item: Item, i: nat, generation: nat,
                                           supersedes: Option<TaskId>, partial: bool, stats: Stats, remote: Remote)
    requires |db.logs| == |db.tasks| && i < |item.accepted|
    ensures var after := Loop(db, config, item, i, generation, supersedes, partial, stats, remote).db;
            && |after.logs| == |after.tasks| && after.candidates == db.candidates
            && db.tasks <= after.tasks && db.logs <= after.logs
    decreases |item.accepted| - i
  {
    hide Submit, Paths.ResolveTaskDestination, CandidateId, NextGeneration, Conclude;
    var candidate := CandidateId(db, item.accepted[i]);
    var destination := Paths.ResolveTaskDestination(item.directory, item.accepted[i]);
    if destination.Ok? {
      var args := AttemptArgs(item, candidate, i, destination.value, generation, supersedes);
      SubmitAppendsOnly(db, config, args, remote.reply(i), remote.now(i));
      var o := Submit(db, config, args, remote.reply(i), remote.now(i));
      var counted := stats.(submitAttempts := stats.submitAttempts + 1);
      if FallsBack(o.db, item, i, o.result) {
        var next := CandidateId(o.db, item.accepted[i + 1]);
        LoopAppendsOnly(o.db, config, item, i + 1, NextGeneration(o.db, CLIENT_KEY, item.content, next),
                        Some(o.result.value), true,
                        counted.(submitFailures := counted.submitFailures + 1,
                                 candidateFallbacks := counted.candidateFallbacks + 1), remote);
      } else {
        ConcludeEnds(o.db, counted, item, candidate,
                     Attempt(i, candidate, generation, supersedes, if o.result.Ok? then Some(o.result.value) else None),
                     o.result, partial);
      }
    }
  }

  /** What each ending of the loop means for its last attempt's task. */
  ghost predicate Ends(db: Db, last: Attempt, status: ItemStatus) {
    && (last.task.Some? ==> last.task.value < |db.tasks|)
    && match status
       case ItemSubmitted =>
         last.task.Some?
         && (db.tasks[last.task.value].status == Submitted || db.tasks[last.task.value].status == Downloading
             || db.tasks[last.task.value].status == Completed)
       case ItemSubmitUnknown => last.task.Some? && db.tasks[last.task.value].status == Submitting
       case ItemAttentionRequired => last.task.Some? && db.tasks[last.task.value].status == AttentionRequired
       case ItemSubmitFailed => last.task.Some? ==> db.tasks[last.task.value].status == Failed
       case ItemDeduplicated(_) => last.task.None?
       case ItemRaised => last.task.None?
  }

  /** Exactly the counter of the ending moves, by one, besides one failure for every attempt before the last. */
  ghost predicate Tallied(before: Stats, after: Stats, n: nat, status: ItemStatus) {
    && after.itemsSubmitted == before.itemsSubmitted + (if status.ItemSubmitted? then 1 else 0)
    && after.itemsDeduplicated == before.itemsDeduplicated + (if status.ItemDeduplicated? then 1 else 0)
    && after.submitUnknown == before.submitUnknown + (if status.ItemSubmitUnknown? then 1 else 0)
    && after.submitAttentionRequired
       == before.submitAttentionRequired + (if status.ItemAttentionRequired? then 1 else 0)
    && after.submitFailures == before.submitFailures + n - 1 + (if status.ItemSubmitFailed? then 1 else 0)
  }

  lemma ConcludeEnds(db: Db, stats: Stats, item: Item, candidate: nat, attempt: Attempt,
                     result: Result<TaskId, SubmitError>, partial: bool)
    requires result.Ok? ==> result.value < |db.tasks|
    requires attempt.task == if result.Ok? then Some(result.value) else None
    ensures var r := Conclude(db, stats, item, candidate, attempt, result, partial);
            r.db == db && Ends(db, attempt, r.status) && Tallied(stats, r.stats, 1, r.status)
  {
    hide FirstClaim;
  }

  /** The item is reported as what its last task is, and exactly the matching counters moved. */
  lemma {:induction false} LoopVerdict(db: Db, config: Config, item: Item, i: nat, generation: nat,
                                       supersedes: Option<TaskId>, partial: bool, stats: Stats, remote: Remote)
    requires |db.logs| == |db.tasks| && i < |item.accepted|
    ensures var r := Loop(db, config, item, i, generation, supersedes, partial, stats, remote);
            && |r.attempts| >= 1
            && Ends(r.db, r.attempts[|r.attempts| - 1], r.status)
            && Tallied(stats, r.stats, |r.attempts|, r.status)
    decreases |item.accepted| - i
  {
    hide Submit, Paths.ResolveTaskDestination, CandidateId, NextGeneration, Conclude, Ends;
    var candidate := CandidateId(db, item.accepted[i]);
    var destination := Paths.ResolveTaskDestination(item.directory, item.accepted[i]);
    if destination.Err? {
      RaisedEnds(db, Attempt(i, candidate, generation, supersedes, None));
    } else {
      var args := AttemptArgs(item, candidate, i, destination.value, generation, supersedes);
      SubmitAppendsOnly(db, config, args, remote.reply(i), remote.now(i));
      var o := Submit(db, config, args, remote.reply(i), remote.now(i));
      var counted := stats.(submitAttempts := stats.submitAttempts + 1);
      var attempt := Attempt(i, candidate, generation, supersedes, if o.result.Ok? then Some(o.result.value) else None);
      if FallsBack(o.db, item, i, o.result) {
        var next := CandidateId(o.db, item.accepted[i + 1]);
        LoopVerdict(o.db, config, item, i + 1, NextGeneration(o.db, CLIENT_KEY, item.content, next),
                    Some(o.result.value), true,
                    counted.(submitFailures := counted.submitFailures + 1,
                             candidateFallbacks := counted.candidateFallbacks + 1), remote);
      } else {
        ConcludeEnds(o.db, counted, item, candidate, attempt, o.result, partial);
        ConcludeCounts(o.db, stats, item, candidate, attempt, o.result, partial);
      }
    }
  }

  lemma RaisedEnds(db: Db, attempt: Attempt)
    requires attempt.task.None?
    ensures Ends(db, attempt, ItemRaised)
  {
  }

  // ---- Order and links of the attempts ----

  /** The item's candidates were stored, under normalised hashes, before the loop. */
  ghost predicate Prepared(db: Db, item: Item) {
    forall k :: 0 <= k < |item.accepted| ==> item.accepted[k] in db.candidates
  }

  /** What the trace of attempts looks like, read against the database the loop leaves behind. */
  ghost predicate TraceOk(db: Db, item: Item, i: nat, attempts: seq<Attempt>) {
    && |attempts| >= 1
    && (forall k :: 0 <= k < |attempts| ==>
          && attempts[k].index == i + k < |item.accepted|
          && (attempts[k].task.Some? ==>
                && attempts[k].task.value < |db.tasks|
                && var t := db.tasks[attempts[k].task.value];
                   t.content == item.content && t.candidate == attempts[k].candidate
                   && t.generation == attempts[k].generation && t.supersedes == attempts[k].supersedes))
    && (forall k :: 0 <= k < |attempts| - 1 ==>
          && attempts[k].task.Some?
          && ExplicitlyRejected(db.tasks[attempts[k].task.value])
          && attempts[k + 1].supersedes == attempts[k].task
          && attempts[k + 1].generation > attempts[k].generation)
    && (var last := attempts[|attempts| - 1];
        last.task.Some? && ExplicitlyRejected(db.tasks[last.task.value]) ==> last.index + 1 == |item.accepted|)
  }

  /**
   * The rows the loop added after the first `n` are those of its attempts, in order: every one but the last
   * is an explicitly rejected task, and the last attempt has at most one row.
   */
  ghost predicate RowsOfAttempts(n: nat, db: Db, attempts: seq<Attempt>) {
    && |attempts| >= 1
    && n + |attempts| - 1 <= |db.tasks| <= n + |attempts|
    && (forall k :: 0 <= k < |attempts| - 1 ==> attempts[k].task == Some(n + k))
    && (forall j :: n <= j < n + |attempts| - 1 ==> ExplicitlyRejected(db.tasks[j]))
    && (attempts[|attempts| - 1].task.Some? ==>
          attempts[|attempts| - 1].task.value == n + |attempts| - 1 < |db.tasks|)
  }

  lemma RowsExtend(n: nat, db: Db, later: Db, first: Attempt, rest: seq<Attempt>)
    requires |db.tasks| == n + 1 && db.tasks <= later.tasks && ExplicitlyRejected(db.tasks[n])
    requires first.task == Some(n) && RowsOfAttempts(n + 1, later, rest)
    ensures RowsOfAttempts(n, later, [first] + rest)
  {
    var all := [first] + rest;
    forall k | 0 <= k < |all| - 1 ensures all[k].task == Some(n + k) {
      if k > 0 { assert all[k] == rest[k - 1]; }
    }
    assert all[|all| - 1] == rest[|rest| - 1];
  }

  lemma TraceExtends(db: Db, later: Db, item: Item, i: nat, first: Attempt, rest: seq<Attempt>)
    requires db.tasks <= later.tasks && i + 1 < |item.accepted|
    requires TraceOk(later, item, i + 1, rest)
    requires first.index == i && first.task.Some? && first.task.value < |db.tasks|
    requires var t := db.tasks[first.task.value];
             && ExplicitlyRejected(t) && t.content == item.content && t.candidate == first.candidate
             && t.generation == first.generation && t.supersedes == first.supersedes
    requires rest[0].supersedes == first.task && rest[0].generation > first.generation
    ensures TraceOk(later, item, i, [first] + rest)
  {
    var all := [first] + rest;
    forall k | 0 <= k < |all|
      ensures all[k].index == i + k < |item.accepted|
      ensures all[k].task.Some? ==>
                && all[k].task.value < |later.tasks|
                && var t := later.tasks[all[k].task.value];
                   t.content == item.content && t.candidate == all[k].candidate
                   && t.generation == all[k].generation && t.supersedes == all[k].supersedes
    {
      if k > 0 { assert all[k] == rest[k - 1]; }
    }
    forall k | 0 <= k < |all| - 1
      ensures all[k].task.Some? && ExplicitlyRejected(later.tasks[all[k].task.value])
      ensures all[k + 1].supersedes == all[k].task && all[k + 1].generation > all[k].generation
    {
      if k > 0 { assert all[k] == rest[k - 1] && all[k + 1] == rest[k]; }
    }
    assert all[|all| - 1] == rest[|rest| - 1];
  }

  lemma CandidateIdFound(db: Db, btih: string)
    requires Valid(db) && btih in db.candidates
    ensures CandidateId(db, btih) < |db.candidates| && db.candidates[CandidateId(db, btih)] == btih
    ensures Btih.NormalBtih(btih)
  {
  }

  /** The loop's next attempt is honest, first or fallback. */
  lemma AttemptIsHonest(db: Db, item: Item, i: nat, generation: nat, supersedes: Option<TaskId>)
    requires Sound(db) && Prepared(db, item) && i < |item.accepted|
    requires supersedes.Some? ==> LinksTo(db, item, generation, supersedes.value)
    requires Paths.ResolveTaskDestination(item.directory, item.accepted[i]).Ok?
    ensures Honest(db, AttemptArgs(item, CandidateId(db, item.accepted[i]), i,
                                   Paths.ResolveTaskDestination(item.directory, item.accepted[i]).value, generation,
                                   supersedes))
  {
    CandidateIdFound(db, item.accepted[i]);
    ResolvedDirectory(item.directory, item.accepted[i]);
  }

  ghost predicate LinksTo(db: Db, item: Item, generation: nat, previous: TaskId) {
    && previous < |db.tasks|
    && db.tasks[previous].content == item.content
    && db.tasks[previous].generation < generation
  }

  /** The trace of a loop that ends with its first attempt. */
  lemma SingleTrace(db: Db, item: Item, i: nat, attempt: Attempt)
    requires i < |item.accepted| && attempt.index == i
    requires attempt.task.Some? ==>
               && attempt.task.value < |db.tasks|
               && (var t := db.tasks[attempt.task.value];
                   && t.content == item.content && t.candidate == attempt.candidate
                   && t.generation == attempt.generation && t.supersedes == attempt.supersedes
                   && (ExplicitlyRejected(t) ==> i + 1 == |item.accepted|))
    ensures TraceOk(db, item, i, [attempt])
  {
  }

  lemma SingleRow(n: nat, db: Db, attempt: Attempt)
    requires n <= |db.tasks| <= n + 1 && (attempt.task.Some? ==> attempt.task.value == n < |db.tasks|)
    ensures RowsOfAttempts(n, db, [attempt])
  {
  }

  /**
   * Accepted candidates are tried strictly in ranked order, the next one only after an explicit
   * rejection; generations rise along the attempts, each fallback supersedes the attempt before it, and
   * a rejected task is the last one only when no candidate is left. Undisturbed, only a first attempt can meet an
   * existing claim, and the item is then linked to a task that really holds the content or the hash.
   */
  lemma {:induction false} LoopTrace(db: Db, config: Config, item: Item, i: nat, generation: nat,
                                     supersedes: Option<TaskId>, partial: bool, stats: Stats, remote: Remote)
    requires Sound(db) && Prepared(db, item) && i < |item.accepted|
    requires supersedes.Some? ==>
               && LinksTo(db, item, generation, supersedes.value)
               && generation == NextGeneration(db, CLIENT_KEY, item.content, CandidateId(db, item.accepted[i]))
    requires supersedes.None? ==> generation == 0
    ensures var r := Loop(db, config, item, i, generation, supersedes, partial, stats, remote);
            && Sound(r.db) && r.db.candidates == db.candidates
            && db.tasks <= r.db.tasks && db.logs <= r.db.logs
            && TraceOk(r.db, item, i, r.attempts)
            && RowsOfAttempts(|db.tasks|, r.db, r.attempts)
            && r.attempts[0].supersedes == supersedes && r.attempts[0].generation == generation
            && (r.status.ItemDeduplicated? ==>
                  && supersedes.None? && |r.attempts| == 1
                  && r.status.task.Some? && r.status.task.value < |db.tasks|
                  && db.tasks[r.status.task.value].generation == 0
                  && Claims(db.tasks[r.status.task.value], CLIENT_KEY, item.content, r.attempts[0].candidate))
    decreases |item.accepted| - i
  {
    hide Submit, Paths.ResolveTaskDestination, CandidateId, NextGeneration, Sound, RowsOfAttempts;
    var candidate := CandidateId(db, item.accepted[i]);
    var destination := Paths.ResolveTaskDestination(item.directory, item.accepted[i]);
    if destination.Err? {
      SingleRow(|db.tasks|, db, Attempt(i, candidate, generation, supersedes, None));
      SingleTrace(db, item, i, Attempt(i, candidate, generation, supersedes, None));
    } else {
      AttemptIsHonest(db, item, i, generation, supersedes);
      var args := AttemptArgs(item, candidate, i, destination.value, generation, supersedes);
      SoundLogs(db);
      SubmitAppendsOnly(db, config, args, remote.reply(i), remote.now(i));
      SubmitKeepsSound(db, config, args, remote.reply(i), remote.now(i));
      var o := Submit(db, config, args, remote.reply(i), remote.now(i));
      if FallsBack(o.db, item, i, o.result) {
        FallbackTrace(db, config, item, i, generation, supersedes, partial, stats, remote);
      } else {
        EndTrace(db, config, item, i, generation, supersedes, partial, stats, remote);
      }
    }
  }

  /** The part of the claim about a loop that ends with the attempt it starts with. */
  lemma EndTrace(db: Db, config: Config, item: Item, i: nat, generation: nat, supersedes: Option<TaskId>,
                 partial: bool, stats: Stats, remote: Remote)
    requires |db.logs| == |db.tasks| && i < |item.accepted|
    requires supersedes.None? ==> generation == 0
    requires Paths.ResolveTaskDestination(item.directory, item.accepted[i]).Ok?
    requires var args := AttemptArgs(item, CandidateId(db, item.accepted[i]), i,
                                     Paths.ResolveTaskDestination(item.directory, item.accepted[i]).value, generation,
                                     supersedes);
             var o := Submit(db, config, args, remote.reply(i), remote.now(i));
             && (o.result.Ok? ==> o.result.value < |o.db.tasks|)
             && !FallsBack(o.db, item, i, o.result)
             && Sound(o.db)
             && (supersedes.Some? ==> o.result != Err(ClaimRefused(IdempotencyConflict)))
    ensures var r := Loop(db, config, item, i, generation, supersedes, partial, stats, remote);
            && Sound(r.db) && r.db.candidates == db.candidates
            && db.tasks <= r.db.tasks && db.logs <= r.db.logs
            && TraceOk(r.db, item, i, r.attempts)
            && RowsOfAttempts(|db.tasks|, r.db, r.attempts)
            && |r.attempts| == 1
            && r.attempts[0].supersedes == supersedes && r.attempts[0].generation == generation
            && (r.status.ItemDeduplicated? ==>
                  && supersedes.None?
                  && r.status.task.Some? && r.status.task.value < |db.tasks|
                  && db.tasks[r.status.task.value].generation == 0
                  && Claims(db.tasks[r.status.task.value], CLIENT_KEY, item.content, r.attempts[0].candidate))
  {
    hide Submit, Paths.ResolveTaskDestination, CandidateId, NextGeneration, Sound, TraceOk, RowsOfAttempts;
    var candidate := CandidateId(db, item.accepted[i]);
    var destination := Paths.ResolveTaskDestination(item.directory, item.accepted[i]).value;
    var args := AttemptArgs(item, candidate, i, destination, generation, supersedes);
    SubmitAppendsOnly(db, config, args, remote.reply(i), remote.now(i));
    var o := Submit(db, config, args, remote.reply(i), remote.now(i));
    SingleTrace(o.db, item, i, Attempt(i, candidate, generation, supersedes,
                                       if o.result.Ok? then Some(o.result.value) else None));
    SingleRow(|db.tasks|, o.db, Attempt(i, candidate, generation, supersedes,
                                        if o.result.Ok? then Some(o.result.value) else None));
    if o.result == Err(ClaimRefused(IdempotencyConflict)) {
      ConflictIsReal(db, config, args, remote.reply(i), remote.now(i));
    }
  }

  lemma ConflictIsReal(db: Db, config: Config, args: SubmitArgs, reply: SubmitReply, now: int)
    requires |db.logs| == |db.tasks|
    requires Submit(db, config, args, reply, now).result == Err(ClaimRefused(IdempotencyConflict))
    ensures Submit(db, config, args, reply, now).db == db
    ensures FirstClaim(db.tasks, CLIENT_KEY, args.content, args.candidate, args.generation).Some?
  {
    hide Submit;
    ClaimConflictOnly(db, config, args, reply, now);
  }

  lemma {:induction false} FallbackTrace(db: Db, config: Config, item: Item, i: nat, generation: nat,
                                         supersedes: Option<TaskId>, partial: bool, stats: Stats, remote: Remote)
    requires Sound(db) && Prepared(db, item) && i + 1 < |item.accepted|
    requires Paths.ResolveTaskDestination(item.directory, item.accepted[i]).Ok?
    requires var args := AttemptArgs(item, CandidateId(db, item.accepted[i]), i,
                                     Paths.ResolveTaskDestination(item.directory, item.accepted[i]).value, generation,
                                     supersedes);
             && Honest(db, args)
             && var o := Submit(db, config, args, remote.reply(i), remote.now(i));
                o.result.Ok? && o.result.value < |o.db.tasks| && ExplicitlyRejected(o.db.tasks[o.result.value])
    ensures var r := Loop(db, config, item, i, generation, supersedes, partial, stats, remote);
            && Sound(r.db) && r.db.candidates == db.candidates
            && db.tasks <= r.db.tasks && db.logs <= r.db.logs
            && TraceOk(r.db, item, i, r.attempts)
            && RowsOfAttempts(|db.tasks|, r.db, r.attempts)
            && r.attempts[0].supersedes == supersedes && r.attempts[0].generation == generation
            && !r.status.ItemDeduplicated?
    decreases |item.accepted| - i, 0
  {
    hide Submit, Paths.ResolveTaskDestination, CandidateId, NextGeneration, Sound, TraceOk, Honest;
    hide RowsOfAttempts;
    SoundLogs(db);
    var candidate := CandidateId(db, item.accepted[i]);
    var args := AttemptArgs(item, candidate, i,
                            Paths.ResolveTaskDestination(item.directory, item.accepted[i]).value, generation,
                            supersedes);
    SubmitAppendsOnly(db, config, args, remote.reply(i), remote.now(i));
    SubmitKeepsSound(db, config, args, remote.reply(i), remote.now(i));
    var o := Submit(db, config, args, remote.reply(i), remote.now(i));
    var id := o.result.value;
    var counted := stats.(submitAttempts := stats.submitAttempts + 1);
    var next := CandidateId(o.db, item.accepted[i + 1]);
    var generation' := NextGeneration(o.db, CLIENT_KEY, item.content, next);
    SoundLogs(o.db);
    NextExceeds(o.db, item.content, next, id);
    var stats' := counted.(submitFailures := counted.submitFailures + 1,
                           candidateFallbacks := counted.candidateFallbacks + 1);
    LoopTrace(o.db, config, item, i + 1, generation', Some(id), true, stats', remote);
    var rest := Loop(o.db, config, item, i + 1, generation', Some(id), true, stats', remote);
    assert o.db.tasks <= rest.db.tasks;
    RowsExtend(|db.tasks|, o.db, rest.db, Attempt(i, candidate, generation, supersedes, Some(id)), rest.attempts);
    TraceExtends(o.db, rest.db, item, i, Attempt(i, candidate, generation, supersedes, Some(id)), rest.attempts);
  }

  // ---- The loop as the service runs it ----

  class RunService {
    const downloads: DownloadService

    constructor (downloads: DownloadService)
      ensures this.downloads == downloads
    {
      this.downloads := downloads;
    }

    /** How an attempt that ends the loop is counted and reported on the run item. */
    method Report(item: Item, candidate: nat, submitted: Result<TaskId, SubmitError>, partial: bool, stats: Stats,
                  ghost attempt: Attempt)
      returns (status: ItemStatus, stats': Stats, partial': bool)
      requires submitted.Ok? ==> submitted.value < |downloads.repository.tasks|
      ensures LoopResult(downloads.repository.State(), stats', [attempt], status, partial')
              == Conclude(downloads.repository.State(), stats, item, candidate, attempt, submitted, partial)
    {
      hide FirstClaim;
      stats', partial' := stats, partial;
      if submitted.Err? {
        if submitted.error == ClaimRefused(IdempotencyConflict) {
          stats' := stats'.(itemsDeduplicated := stats'.itemsDeduplicated + 1);
          var conflict := FirstClaim(downloads.repository.tasks, CLIENT_KEY, item.content, candidate, 0);
          status := ItemDeduplicated(conflict);
        } else if submitted.error == ClaimRefused(DestinationBusy) {
          stats' := stats'.(submitFailures := stats'.submitFailures + 1);
          status, partial' := ItemSubmitFailed, true;
        } else {
          status := ItemRaised;
        }
        return;
      }
      var task := downloads.repository.tasks[submitted.value];
      if task.status == Failed {
        stats' := stats'.(submitFailures := stats'.submitFailures + 1);
        status, partial' := ItemSubmitFailed, true;
      } else if task.status == Submitting {
        stats' := stats'.(submitUnknown := stats'.submitUnknown + 1);
        status, partial' := ItemSubmitUnknown, true;
      } else if task.status == AttentionRequired {
        stats' := stats'.(submitAttentionRequired := stats'.submitAttentionRequired + 1);
        status, partial' := ItemAttentionRequired, true;
      } else {
        stats' := stats'.(itemsSubmitted := stats'.itemsSubmitted + 1);
        status := ItemSubmitted;
      }
    }

    /** The loop over accepted candidates in `_process_item`. */
    method SubmitRanked(item: Item, partial: bool, stats: Stats, remote: Remote)
      returns (status: ItemStatus, stats': Stats, partial': bool, ghost attempts: seq<Attempt>)
      requires |item.accepted| > 0
      requires |downloads.repository.logs| == |downloads.repository.tasks|
      modifies downloads.repository
      ensures LoopResult(downloads.repository.State(), stats', attempts, status, partial')
              == SubmitItem(old(downloads.repository.State()), downloads.config, item, partial, stats, remote)
    {
      hide Submit, Paths.ResolveTaskDestination, CandidateId, NextGeneration, Conclude;
      var repository := downloads.repository;
      ghost var whole := SubmitItem(repository.State(), downloads.config, item, partial, stats, remote);
      var generation, supersedes := 0, None;
      stats', partial', attempts := stats, partial, [];
      var i := 0;
      while true
        invariant 0 <= i < |item.accepted|
        invariant |repository.logs| == |repository.tasks|
        invariant var rest := Loop(repository.State(), downloads.config, item, i, generation, supersedes, partial',
                                   stats', remote);
                  whole == rest.(attempts := attempts + rest.attempts)
        decreases |item.accepted| - i
      {
        stats' := stats'.(submitAttempts := stats'.submitAttempts + 1);
        var btih := item.accepted[i];
        var candidate := CandidateId(repository.State(), btih);
        var destination := Paths.ResolveTaskDestination(item.directory, btih);
        if destination.Err? {
          attempts := attempts + [Attempt(i, candidate, generation, supersedes, None)];
          return ItemRaised, stats', partial', attempts;
        }
        var args := AttemptArgs(item, candidate, i, destination.value, generation, supersedes);
        SubmitAppendsOnly(repository.State(), downloads.config, args, remote.reply(i), remote.now(i));
        var submitted := downloads.SubmitCandidate(args, remote.reply(i), remote.now(i));
        ghost var attempt := Attempt(i, candidate, generation, supersedes,
                                     if submitted.Ok? then Some(submitted.value) else None);
        attempts := attempts + [attempt];
        if !FallsBack(repository.State(), item, i, submitted) {
          status, stats', partial' := Report(item, candidate, submitted, partial', stats', attempt);
          return;
        }
        stats' := stats'.(submitFailures := stats'.submitFailures + 1,
                          candidateFallbacks := stats'.candidateFallbacks + 1);
        partial' := true;
        supersedes := Some(submitted.value);
        var next := CandidateId(repository.State(), item.accepted[i + 1]);
        generation := NextGeneration(repository.State(), CLIENT_KEY, item.content, next);
        i := i + 1;
      }
    }
  }
}
