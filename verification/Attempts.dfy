/**
 * The fallback loop of one item, attempt by attempt (runs/service.py, `_process_item`): which store each attempt
 * meets, what it submits, what it leaves, and how the item is reported in the end.
 */
module Attempts {
  import opened Wrappers
  import opened DownloadState
  import opened Store
  import opened Lifecycle
  import opened Submission
  import opened Fallback
  import Btih
  import Magnet
  import Paths

  // ---- One attempt ----

  /** What an attempt asks for: the candidate's own hash, in the directory of that hash below the item's. */
  function Asked(item: Item, a: Attempt): SubmitArgs
    requires a.index < |item.accepted|
  {
    SubmitArgs(item.content, a.candidate, "magnet:?xt=urn:btih:" + item.accepted[a.index],
               Paths.Absolute(Paths.Segments(item.directory) + [item.accepted[a.index]]), a.generation, a.supersedes)
  }

  /** Attempt `a` at candidate `i` turned one store into the other. */
  ghost predicate Attempted(item: Item, config: Config, remote: Remote, i: nat, before: Db, a: Attempt, after: Db) {
    && a.index == i < |item.accepted|
    && a.candidate < |before.candidates| && before.candidates[a.candidate] == item.accepted[i]
    && if Paths.Normalize(item.directory).Err? then after == before && a.task == None
       else exists s :: Submits(before, config, Asked(item, a), remote.reply(i), remote.now(i), s)
                        && s.db == after && a.task == if s.result.Ok? then Some(s.result.value) else None
  }

  /** The client refused the magnet outright. */
  predicate Rejection(t: Task) {
    t.status == Failed && t.errorCode == Some("explicit_rejection")
  }

  // ---- The end of the loop ----

  /** A task that started the history of this content or of this hash. */
  predicate Starts(t: Task, content: nat, candidate: nat) {
    t.client == "clouddrive2" && t.generation == 0 && (t.content == content || t.candidate == candidate)
  }

  /** The task that an item is linked to as a duplicate: the first such, if there is one. */
  ghost predicate LinkedTo(db: Db, content: nat, candidate: nat, task: Option<TaskId>) {
    match task
    case Some(j) =>
      && j < |db.tasks| && Starts(db.tasks[j], content, candidate)
      && forall h :: 0 <= h < j ==> !Starts(db.tasks[h], content, candidate)
    case None => forall h :: 0 <= h < |db.tasks| ==> !Starts(db.tasks[h], content, candidate)
  }

  /** How the item is reported, read off the store that its last attempt met and the row it left. */
  ghost predicate Reported(item: Item, config: Config, remote: Remote, before: Db, a: Attempt, after: Db,
                           status: ItemStatus)
    requires a.index < |item.accepted|
  {
    var c := ClaimOf(config, Asked(item, a), remote.now(a.index));
    if Paths.Normalize(item.directory).Err? then status == ItemRaised
    else if Rivalled(before, c) then
      status.ItemDeduplicated? && LinkedTo(before, item.content, a.candidate, status.task)
    else if Awaited(before, c) then status == ItemSubmitFailed
    else if a.task.None? then status == ItemRaised
    else
      && a.task.value < |after.tasks|
      && match after.tasks[a.task.value].status
         case Failed => status == ItemSubmitFailed
         case Submitting => status == ItemSubmitUnknown
         case AttentionRequired => status == ItemAttentionRequired
         case _ => status == ItemSubmitted
  }

  // ---- The whole loop ----

  /** The store that the loop's attempt `k` meets: the rows of the attempts before it and no others. */
  function Met(db: Db, after: Db, k: nat): Db
    requires |db.tasks| + k <= |after.tasks| == |after.logs|
  {
    Db(db.candidates, after.tasks[..|db.tasks| + k], after.logs[..|db.tasks| + k])
  }

  function Left(db: Db, r: LoopResult, k: nat): Db
    requires k < |r.attempts| && |db.tasks| + |r.attempts| - 1 <= |r.db.tasks| == |r.db.logs|
  {
    if k + 1 < |r.attempts| then Met(db, r.db, k + 1) else r.db
  }

  /** The first rows a loop adds are those of its attempts, so every attempt before the last left one. */
  ghost predicate Shaped(db: Db, item: Item, i: nat, r: LoopResult) {
    && 1 <= |r.attempts| && i + |r.attempts| <= |item.accepted|
    && |db.tasks| + |r.attempts| - 1 <= |r.db.tasks| == |r.db.logs| <= |db.tasks| + |r.attempts|
    && r.db.candidates == db.candidates && Met(db, r.db, 0) == db
  }

  /** Attempt `k` was rejected, and the next one continues it one generation up. */
  ghost predicate Continued(db: Db, item: Item, r: LoopResult, k: nat)
    requires k + 1 < |r.attempts| && |db.tasks| + |r.attempts| - 1 <= |r.db.tasks| == |r.db.logs|
  {
    var id, next := |db.tasks| + k, r.attempts[k + 1];
    && Rejection(r.db.tasks[id]) && r.attempts[k].task == Some(id)
    && next.supersedes == Some(id)
    && next.generation == NextGeneration(Met(db, r.db, k + 1), CLIENT_KEY, item.content, next.candidate)
  }

  ghost predicate Told(db: Db, config: Config, item: Item, i: nat, generation: nat, supersedes: Option<TaskId>,
                       remote: Remote, r: LoopResult) {
    && Shaped(db, item, i, r)
    && r.attempts[0].generation == generation && r.attempts[0].supersedes == supersedes
    && (forall k :: 0 <= k < |r.attempts| ==>
          Attempted(item, config, remote, i + k, Met(db, r.db, k), r.attempts[k], Left(db, r, k)))
    && (forall k :: 0 <= k < |r.attempts| - 1 ==> Continued(db, item, r, k))
    && var last := r.attempts[|r.attempts| - 1];
       && (last.task.Some? && i + |r.attempts| < |item.accepted| ==>
             last.task.value < |r.db.tasks| && !Rejection(r.db.tasks[last.task.value]))
       && Reported(item, config, remote, Met(db, r.db, |r.attempts| - 1), last, r.db, r.status)
  }

  lemma AttemptExactly(db: Db, config: Config, item: Item, i: nat, generation: nat, supersedes: Option<TaskId>,
                       remote: Remote)
    requires Sound(db) && Prepared(db, item) && i < |item.accepted|
    requires supersedes.Some? ==> LinksTo(db, item, generation, supersedes.value)
    ensures |db.logs| == |db.tasks|
    ensures Paths.ResolveTaskDestination(item.directory, item.accepted[i]).Ok?
            <==> Paths.Normalize(item.directory).Ok?
    ensures Paths.Normalize(item.directory).Ok? ==>
              var destination := Paths.ResolveTaskDestination(item.directory, item.accepted[i]).value;
              var candidate := CandidateId(db, item.accepted[i]);
              var args := AttemptArgs(item, candidate, i, destination, generation, supersedes);
              && destination == Paths.Absolute(Paths.Segments(item.directory) + [item.accepted[i]])
              && Honest(db, args)
              && Submits(db, config, args, remote.reply(i), remote.now(i),
                         Submit(db, config, args, remote.reply(i), remote.now(i)))
  {
    hide Paths.ResolveTaskDestination, Paths.Normalize, Submit, Submits, Honest, Sound, Magnet.ParseMagnet;
    hide Btih.NormalBtih, Paths.Segments, Paths.Absolute;
    SoundLogs(db);
    SoundCandidate(db, item.accepted[i]);
    DirectoryOfHash(item.directory, item.accepted[i]);
    if Paths.Normalize(item.directory).Ok? {
      AttemptIsHonest(db, item, i, generation, supersedes);
      var destination := Paths.ResolveTaskDestination(item.directory, item.accepted[i]).value;
      var args := AttemptArgs(item, CandidateId(db, item.accepted[i]), i, destination, generation, supersedes);
      Magnet.ParseBareLink(item.accepted[i]);
      SubmitsExactly(db, config, args, remote.reply(i), remote.now(i));
    }
  }

  lemma SoundCandidate(db: Db, btih: string)
    requires Sound(db) && btih in db.candidates
    ensures CandidateId(db, btih) < |db.candidates| && db.candidates[CandidateId(db, btih)] == btih
    ensures Btih.NormalBtih(btih)
  {
    CandidateIdFound(db, btih);
  }

  lemma FirstStarts(db: Db, content: nat, candidate: nat)
    ensures LinkedTo(db, content, candidate, FirstClaim(db.tasks, CLIENT_KEY, content, candidate, 0))
  {
  }

  /** The report of an attempt that ends the loop. */
  lemma ConcludedAs(db: Db, config: Config, item: Item, a: Attempt, remote: Remote, stats: Stats, partial: bool,
                    s: Outcome<Result<TaskId, SubmitError>>)
    requires |db.logs| == |db.tasks| && a.index < |item.accepted| && Paths.Normalize(item.directory).Ok?
    requires Submits(db, config, Asked(item, a), remote.reply(a.index), remote.now(a.index), s)
    requires a.task == if s.result.Ok? then Some(s.result.value) else None
    ensures s.result.Ok? ==> s.result.value == |db.tasks| < |s.db.tasks|
    ensures Reported(item, config, remote, db, a, s.db,
                     Conclude(s.db, stats, item, a.candidate, a, s.result, partial).status)
  {
    hide Rivalled, Awaited, Paths.Normalize, FirstClaim, Lifecycle.Submission, LinkedTo;
    FirstStarts(db, item.content, a.candidate);
  }

  /** A loop that ends with its first attempt. */
  lemma EndTold(db: Db, config: Config, item: Item, i: nat, generation: nat, supersedes: Option<TaskId>,
                partial: bool, stats: Stats, remote: Remote)
    requires Sound(db) && Prepared(db, item) && i < |item.accepted| && |db.logs| == |db.tasks|
    requires supersedes.Some? ==> LinksTo(db, item, generation, supersedes.value)
    requires Paths.Normalize(item.directory).Ok? ==>
               var destination := Paths.ResolveTaskDestination(item.directory, item.accepted[i]);
               destination.Ok? &&
               var args := AttemptArgs(item, CandidateId(db, item.accepted[i]), i, destination.value, generation,
                                       supersedes);
               var o := Submit(db, config, args, remote.reply(i), remote.now(i));
               (o.result.Ok? ==> o.result.value < |o.db.tasks|) && !FallsBack(o.db, item, i, o.result)
    ensures Told(db, config, item, i, generation, supersedes, remote,
                 Loop(db, config, item, i, generation, supersedes, partial, stats, remote))
  {
    hide Paths.ResolveTaskDestination, Paths.Normalize, Submit, Submits, Honest, Sound, NextGeneration;
    hide Reported, Conclude, Paths.Segments, Paths.Absolute, CandidateId;
    AttemptExactly(db, config, item, i, generation, supersedes, remote);
    SoundCandidate(db, item.accepted[i]);
    var candidate := CandidateId(db, item.accepted[i]);
    var counted := stats.(submitAttempts := stats.submitAttempts + 1);
    var r := Loop(db, config, item, i, generation, supersedes, partial, stats, remote);
    if Paths.Normalize(item.directory).Ok? {
      var destination := Paths.ResolveTaskDestination(item.directory, item.accepted[i]).value;
      var args := AttemptArgs(item, candidate, i, destination, generation, supersedes);
      var o := Submit(db, config, args, remote.reply(i), remote.now(i));
      var a := Attempt(i, candidate, generation, supersedes, if o.result.Ok? then Some(o.result.value) else None);
      SubmitAppendsOnly(db, config, args, remote.reply(i), remote.now(i));
      assert args == Asked(item, a);
      ConcludedAs(db, config, item, a, remote, counted, partial, o);
      ConcludeEnds(o.db, counted, item, candidate, a, o.result, partial);
      ConcludeCounts(o.db, stats, item, candidate, a, o.result, partial);
      assert r == Conclude(o.db, counted, item, candidate, a, o.result, partial);
      OneAttempt(db, config, item, i, a, remote, r);
    } else {
      var a := Attempt(i, candidate, generation, supersedes, None);
      RaisedReport(item, config, remote, db, a);
      OneAttempt(db, config, item, i, a, remote, r);
    }
  }

  lemma RaisedReport(item: Item, config: Config, remote: Remote, db: Db, a: Attempt)
    requires a.index < |item.accepted| && Paths.Normalize(item.directory).Err?
    ensures Reported(item, config, remote, db, a, db, ItemRaised)
  {
    hide Paths.Normalize, Rivalled, Awaited;
  }

  lemma OneAttempt(db: Db, config: Config, item: Item, i: nat, a: Attempt, remote: Remote, r: LoopResult)
    requires |db.logs| == |db.tasks| && i < |item.accepted| && r.attempts == [a]
    requires |db.tasks| <= |r.db.tasks| == |r.db.logs| <= |db.tasks| + 1 && r.db.candidates == db.candidates
    requires db.tasks <= r.db.tasks && db.logs <= r.db.logs
    requires Attempted(item, config, remote, i, db, a, r.db)
    requires a.task.Some? && i + 1 < |item.accepted| ==>
               a.task.value < |r.db.tasks| && !Rejection(r.db.tasks[a.task.value])
    requires Reported(item, config, remote, db, a, r.db, r.status)
    ensures Told(db, config, item, i, a.generation, a.supersedes, remote, r)
  {
    hide Attempted, Reported;
    assert Met(db, r.db, 0) == db;
  }

  /** `rest` went on from `next`, which one rejected attempt had made of `db`. */
  ghost predicate GoesOn(db: Db, a: Attempt, next: Db, rest: LoopResult, r: LoopResult) {
    && |db.logs| == |db.tasks| && |next.tasks| == |next.logs| == |db.tasks| + 1
    && db.tasks <= next.tasks && db.logs <= next.logs && next.candidates == db.candidates
    && a.task == Some(|db.tasks|) && Rejection(next.tasks[|db.tasks|])
    && r == rest.(attempts := [a] + rest.attempts)
    && |next.tasks| <= |rest.db.tasks| == |rest.db.logs| && Met(next, rest.db, 0) == next
  }

  /** The stores that the later attempts meet are the same, seen from either start. */
  lemma SameStores(db: Db, a: Attempt, next: Db, rest: LoopResult, r: LoopResult)
    requires GoesOn(db, a, next, rest, r)
    ensures Met(db, r.db, 0) == db && r.db.tasks[|db.tasks|] == next.tasks[|db.tasks|]
    ensures forall k :: 0 <= k <= |rest.db.tasks| - |next.tasks| ==> Met(db, r.db, k + 1) == Met(next, rest.db, k)
  {
    var n := |db.tasks|;
    assert next.tasks == rest.db.tasks[..n + 1] && next.logs == rest.db.logs[..n + 1];
    assert db.tasks == next.tasks[..n] && db.logs == next.logs[..n];
  }

  lemma ShiftAttempt(db: Db, config: Config, item: Item, i: nat, a: Attempt, next: Db, remote: Remote,
                     rest: LoopResult, r: LoopResult, k: nat)
    requires GoesOn(db, a, next, rest, r) && Shaped(next, item, i + 1, rest) && k < |r.attempts|
    requires Attempted(item, config, remote, i, db, a, next)
    requires k > 0 ==> Attempted(item, config, remote, i + k, Met(next, rest.db, k - 1), rest.attempts[k - 1],
                                 Left(next, rest, k - 1))
    ensures Attempted(item, config, remote, i + k, Met(db, r.db, k), r.attempts[k], Left(db, r, k))
  {
    hide Attempted, Met;
    SameStores(db, a, next, rest, r);
    if k > 0 {
      assert r.attempts[k] == rest.attempts[k - 1];
    } else if |rest.attempts| > 0 {
      assert Met(db, r.db, 0 + 1) == Met(next, rest.db, 0);
    }
  }

  lemma ShiftContinued(db: Db, item: Item, i: nat, a: Attempt, next: Db, rest: LoopResult, r: LoopResult, k: nat)
    requires GoesOn(db, a, next, rest, r) && Shaped(next, item, i + 1, rest) && k + 1 < |r.attempts|
    requires k > 0 ==> Continued(next, item, rest, k - 1)
    requires rest.attempts[0].supersedes == Some(|db.tasks|)
    requires rest.attempts[0].generation == NextGeneration(next, CLIENT_KEY, item.content, rest.attempts[0].candidate)
    ensures Continued(db, item, r, k)
  {
    hide NextGeneration, Met;
    SameStores(db, a, next, rest, r);
    assert r.attempts[k + 1] == rest.attempts[k] && (k > 0 ==> r.attempts[k] == rest.attempts[k - 1]);
  }

  /** One rejected attempt in front of a loop that has been told. */
  lemma StepTold(db: Db, config: Config, item: Item, i: nat, a: Attempt, next: Db, remote: Remote, rest: LoopResult,
                 r: LoopResult)
    requires Attempted(item, config, remote, i, db, a, next)
    requires rest.attempts != []
    requires Told(next, config, item, i + 1, rest.attempts[0].generation, Some(|db.tasks|), remote, rest)
    requires GoesOn(db, a, next, rest, r)
    requires rest.attempts[0].generation == NextGeneration(next, CLIENT_KEY, item.content, rest.attempts[0].candidate)
    ensures Told(db, config, item, i, a.generation, a.supersedes, remote, r)
  {
    hide Attempted, Reported, NextGeneration, Continued, Met;
    SameStores(db, a, next, rest, r);
    forall k | 0 <= k < |r.attempts|
      ensures Attempted(item, config, remote, i + k, Met(db, r.db, k), r.attempts[k], Left(db, r, k))
    {
      ShiftAttempt(db, config, item, i, a, next, remote, rest, r, k);
    }
    forall k | 0 <= k < |r.attempts| - 1 ensures Continued(db, item, r, k) {
      ShiftContinued(db, item, i, a, next, rest, r, k);
    }
    assert r.attempts[|r.attempts| - 1] == rest.attempts[|rest.attempts| - 1];
    assert Met(db, r.db, |rest.attempts| - 1 + 1) == Met(next, rest.db, |rest.attempts| - 1);
  }

  /**
   * The whole loop, attempt by attempt: the store each one meets, what it asks for and leaves, that the next
   * candidate is tried exactly after a rejection, and how the item is reported.
   */
  lemma {:induction false} LoopTold(db: Db, config: Config, item: Item, i: nat, generation: nat,
                                    supersedes: Option<TaskId>, partial: bool, stats: Stats, remote: Remote)
    requires Sound(db) && Prepared(db, item) && i < |item.accepted| && |db.logs| == |db.tasks|
    requires supersedes.Some? ==> LinksTo(db, item, generation, supersedes.value)
    ensures Told(db, config, item, i, generation, supersedes, remote,
                 Loop(db, config, item, i, generation, supersedes, partial, stats, remote))
    decreases |item.accepted| - i
  {
    hide Paths.ResolveTaskDestination, Paths.Normalize, Submit, Submits, Honest, Sound, NextGeneration, Told;
    hide Conclude, Paths.Segments, Paths.Absolute, CandidateId;
    AttemptExactly(db, config, item, i, generation, supersedes, remote);
    if Paths.Normalize(item.directory).Err? {
      EndTold(db, config, item, i, generation, supersedes, partial, stats, remote);
    } else {
      var candidate := CandidateId(db, item.accepted[i]);
      var args := AttemptArgs(item, candidate, i, Paths.ResolveTaskDestination(item.directory, item.accepted[i]).value,
                              generation, supersedes);
      SubmitAppendsOnly(db, config, args, remote.reply(i), remote.now(i));
      var o := Submit(db, config, args, remote.reply(i), remote.now(i));
      if !FallsBack(o.db, item, i, o.result) {
        EndTold(db, config, item, i, generation, supersedes, partial, stats, remote);
      } else {
        SubmitKeepsSound(db, config, args, remote.reply(i), remote.now(i));
        var next := CandidateId(o.db, item.accepted[i + 1]);
        var generation' := NextGeneration(o.db, CLIENT_KEY, item.content, next);
        NextExceeds(o.db, item.content, next, |db.tasks|);
        var counted := stats.(submitAttempts := stats.submitAttempts + 1);
        var stats' := counted.(submitFailures := counted.submitFailures + 1,
                               candidateFallbacks := counted.candidateFallbacks + 1);
        LoopTold(o.db, config, item, i + 1, generation', Some(|db.tasks|), true, stats', remote);
        LoopStarts(o.db, config, item, i + 1, generation', Some(|db.tasks|), true, stats', remote);
        SoundCandidate(db, item.accepted[i]);
        ToldIsShaped(o.db, config, item, i + 1, generation', Some(|db.tasks|), remote,
                     Loop(o.db, config, item, i + 1, generation', Some(|db.tasks|), true, stats', remote));
        StepTold(db, config, item, i, Attempt(i, candidate, generation, supersedes, Some(|db.tasks|)), o.db, remote,
                 Loop(o.db, config, item, i + 1, generation', Some(|db.tasks|), true, stats', remote),
                 Loop(db, config, item, i, generation, supersedes, partial, stats, remote));
      }
    }
  }

  lemma ToldIsShaped(db: Db, config: Config, item: Item, i: nat, generation: nat, supersedes: Option<TaskId>,
                     remote: Remote, r: LoopResult)
    requires Told(db, config, item, i, generation, supersedes, remote, r)
    ensures Shaped(db, item, i, r)
  {
  }

  /** The first attempt of a loop. */
  lemma LoopStarts(db: Db, config: Config, item: Item, i: nat, generation: nat, supersedes: Option<TaskId>,
                   partial: bool, stats: Stats, remote: Remote)
    requires |db.logs| == |db.tasks| && i < |item.accepted|
    ensures var attempts := Loop(db, config, item, i, generation, supersedes, partial, stats, remote).attempts;
            && attempts != [] && attempts[0].generation == generation
            && attempts[0].candidate == CandidateId(db, item.accepted[i])
  {
    hide Submit, Paths.ResolveTaskDestination, CandidateId, NextGeneration, FirstClaim;
    var destination := Paths.ResolveTaskDestination(item.directory, item.accepted[i]);
    if destination.Ok? {
      SubmitAppendsOnly(db, config, AttemptArgs(item, CandidateId(db, item.accepted[i]), i, destination.value,
                                                generation, supersedes), remote.reply(i), remote.now(i));
    }
  }

  /** Every row the loop adds is the one its attempt asked for, with the progress that the client's reply gave it. */
  lemma RowIsAsked(db: Db, config: Config, item: Item, i: nat, generation: nat, supersedes: Option<TaskId>,
                   remote: Remote, r: LoopResult, k: nat)
    requires |db.logs| == |db.tasks| && Told(db, config, item, i, generation, supersedes, remote, r)
    requires |db.tasks| + k < |r.db.tasks|
    ensures k < |r.attempts| && r.attempts[k].index == i + k < |item.accepted|
    ensures r.attempts[k].candidate < |db.candidates|
    ensures db.candidates[r.attempts[k].candidate] == item.accepted[i + k]
    ensures Lifecycle.Submission(r.db.tasks[|db.tasks| + k], Asked(item, r.attempts[k]), config, remote.reply(i + k),
                                 remote.now(i + k))
  {
    hide Told, Submits, Lifecycle.Submission, Paths.Normalize, Asked, Met, Left;
    ToldIsShaped(db, config, item, i, generation, supersedes, remote, r);
    ToldAttempt(db, config, item, i, generation, supersedes, remote, r, k);
    var before, a, after := Met(db, r.db, k), r.attempts[k], Left(db, r, k);
    MetAndLeft(db, item, i, r, k);
    if Paths.Normalize(item.directory).Ok? {
      var s :| Submits(before, config, Asked(item, a), remote.reply(i + k), remote.now(i + k), s) && s.db == after
               && a.task == if s.result.Ok? then Some(s.result.value) else None;
      SubmitsRow(before, config, Asked(item, a), remote.reply(i + k), remote.now(i + k), s);
    }
  }

  lemma ToldAttempt(db: Db, config: Config, item: Item, i: nat, generation: nat, supersedes: Option<TaskId>,
                    remote: Remote, r: LoopResult, k: nat)
    requires Told(db, config, item, i, generation, supersedes, remote, r) && k < |r.attempts|
    ensures Attempted(item, config, remote, i + k, Met(db, r.db, k), r.attempts[k], Left(db, r, k))
  {
    hide Attempted, Reported, Continued;
  }

  lemma MetAndLeft(db: Db, item: Item, i: nat, r: LoopResult, k: nat)
    requires Shaped(db, item, i, r) && k < |r.attempts| && |db.tasks| + k < |r.db.tasks|
    ensures var before, after := Met(db, r.db, k), Left(db, r, k);
            && before.candidates == db.candidates
            && |before.tasks| == |db.tasks| + k < |after.tasks|
            && r.db.tasks[|db.tasks| + k] == after.tasks[|db.tasks| + k]
  {
  }

  /** A submission that adds a row adds the one it asked for. */
  lemma SubmitsRow(db: Db, config: Config, args: SubmitArgs, reply: SubmitReply, now: int,
                   s: Outcome<Result<TaskId, SubmitError>>)
    requires Submits(db, config, args, reply, now, s) && |s.db.tasks| > |db.tasks|
    ensures Lifecycle.Submission(s.db.tasks[|db.tasks|], args, config, reply, now)
  {
    hide Rivalled, Awaited, Lifecycle.Submission;
  }
}
