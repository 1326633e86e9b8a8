/**
 * Item loops side by side (runs/service.py): any number of fallback loops, each taking one database
 * transaction at a time, with polls, manual completions and other submissions between any two of them.
 */
module Interleaving {
  import opened Wrappers
  import opened DownloadState
  import opened Store
  import opened Lifecycle
  import opened Submission
  import opened History
  import opened Fallback
  import Operations
  import Paths

  /** Why a loop ended: its claim was refused, it raised, or it read its task and went no further. */
  datatype Cause = Refused(error: StoreError) | Raised | Ended

  /** What a loop does next: claim, record the client's reply, read its task back and decide, or nothing. */
  datatype Phase = Trying | Calling(id: TaskId) | Deciding(id: TaskId) | Over(cause: Cause)

  /**
   * A loop's variables. `horizon` is how many rows there were when the generation was computed; `attempts`
   * is the record of its attempts so far.
   */
  datatype Worker = Worker(item: Item, generation: nat, supersedes: Option<TaskId>, horizon: nat, phase: Phase,
                           attempts: seq<Attempt>)

  function NewWorker(item: Item): Worker {
    Worker(item, 0, None, 0, Trying, [])
  }

  predicate CanClaim(w: Worker) {
    && w.phase.Trying? && |w.attempts| < |w.item.accepted|
    && Paths.ResolveTaskDestination(w.item.directory, w.item.accepted[|w.attempts|]).Ok?
  }

  function ArgsOf(db: Db, w: Worker): SubmitArgs
    requires CanClaim(w)
  {
    var i := |w.attempts|;
    AttemptArgs(w.item, CandidateId(db, w.item.accepted[i]), i,
                Paths.ResolveTaskDestination(w.item.directory, w.item.accepted[i]).value, w.generation, w.supersedes)
  }

  /** The transaction a loop performs next, if that step is one. */
  function NextOp(db: Db, w: Worker, reply: SubmitReply, now: int): Option<Op> {
    if CanClaim(w) then Some(ClaimTask(ArgsOf(db, w), now))
    else if w.phase.Calling? then Some(SettleTask(w.phase.id, reply, now))
    else None
  }

  function Tried(db: Db, w: Worker, task: Option<TaskId>, phase: Phase): Worker
    requires |w.attempts| < |w.item.accepted|
  {
    var i := |w.attempts|;
    var attempt := Attempt(i, CandidateId(db, w.item.accepted[i]), w.generation, w.supersedes, task);
    w.(attempts := w.attempts + [attempt], phase := phase)
  }

  /** The loop after its step, which found the store as `db`. */
  function Stepped(db: Db, config: Config, w: Worker, reply: SubmitReply, now: int): Worker
    requires |db.logs| == |db.tasks|
  {
    match w.phase
    case Trying =>
      if |w.attempts| >= |w.item.accepted| then w
      else if !CanClaim(w) then Tried(db, w, None, Over(Raised))
      else
        var claimed := ClaimDownload(db, ClaimOf(config, ArgsOf(db, w), now), now);
        if claimed.Ok? then Tried(db, w, Some(|db.tasks|), Calling(|db.tasks|))
        else Tried(db, w, None, Over(Refused(claimed.error)))
    case Calling(id) =>
      if Unsettled(db, id) && SettleRow(db, config, id, reply, now).result.Ok? then w.(phase := Deciding(id))
      else w.(phase := Over(Raised))
    case Deciding(id) =>
      if id < |db.tasks| && ExplicitlyRejected(db.tasks[id]) && |w.attempts| < |w.item.accepted| then
        var next := CandidateId(db, w.item.accepted[|w.attempts|]);
        w.(generation := NextGeneration(db, CLIENT_KEY, w.item.content, next), supersedes := Some(id),
           horizon := |db.tasks|, phase := Trying)
      else w.(phase := Over(Ended))
    case Over(_) => w
  }

  // ---- The world of all loops ----

  datatype World = World(system: System, workers: seq<Worker>)

  datatype Move = Start(item: Item) | Act(worker: nat, reply: SubmitReply, now: int) | Other(op: Op)

  predicate Tries(w: Worker, id: TaskId) {
    exists k :: 0 <= k < |w.attempts| && w.attempts[k].task == Some(id)
  }

  /**
   * A loop's submission belongs to it: nobody else settles its rows, nor polls one while the client is being
   * called.
   */
  predicate Leaves(w: Worker, op: Op) {
    && (op.SettleTask? ==> !Tries(w, op.id))
    && (op.PollTask? || op.CompleteTask? ==> w.phase != Calling(op.id))
  }

  ghost predicate Movable(world: World, move: Move) {
    match move
    case Start(item) => |item.accepted| > 0 && Prepared(world.system.db, item)
    case Act(k, _, _) => k < |world.workers|
    case Other(op) =>
      Possible(world.system.db, op) && forall k :: 0 <= k < |world.workers| ==> Leaves(world.workers[k], op)
  }

  ghost function WorldAfter(world: World, config: Config, move: Move): World {
    match move
    case Start(item) => world.(workers := world.workers + [NewWorker(item)])
    case Act(k, reply, now) =>
      if k >= |world.workers| || |world.system.db.logs| != |world.system.db.tasks| then world
      else
        var w := world.workers[k];
        var op := NextOp(world.system.db, w, reply, now);
        World(if op.Some? then Advance(world.system, config, op.value, true) else world.system,
              world.workers[k := Stepped(world.system.db, config, w, reply, now)])
    case Other(op) => world.(system := Advance(world.system, config, op, true))
  }

  // ---- What every loop keeps ----

  /**
   * Candidates in ranked order, the next one only after an explicit rejection; generations rise, and each
   * fallback supersedes the attempt before it.
   */
  ghost predicate Trace(db: Db, item: Item, attempts: seq<Attempt>) {
    && |attempts| <= |item.accepted|
    && (forall k :: 0 <= k < |attempts| ==> attempts[k].index == k && RowOf(db, item, attempts[k]))
    && (forall k :: 0 <= k < |attempts| - 1 ==>
          && attempts[k].task.Some? && attempts[k].task.value < |db.tasks|
          && ExplicitlyRejected(db.tasks[attempts[k].task.value])
          && attempts[k + 1].supersedes == attempts[k].task
          && attempts[k + 1].generation > attempts[k].generation)
  }

  /** The attempt is for its candidate's hash, and its row, if it has one, is in the directory of that hash. */
  ghost predicate RowOf(db: Db, item: Item, attempt: Attempt) {
    && attempt.index < |item.accepted| && attempt.candidate < |db.candidates|
    && db.candidates[attempt.candidate] == item.accepted[attempt.index]
    && (attempt.task.Some? ==>
          && attempt.task.value < |db.tasks|
          && var t := db.tasks[attempt.task.value];
             t.content == item.content && t.candidate == attempt.candidate && t.generation == attempt.generation
             && t.supersedes == attempt.supersedes
             && t.destination == Some(Paths.Absolute(Paths.Segments(item.directory) + [item.accepted[attempt.index]])))
  }

  /** The rows before the horizon leave the generation free. */
  ghost predicate FreeBelow(db: Db, w: Worker)
    requires |w.attempts| < |w.item.accepted|
  {
    forall j :: 0 <= j < w.horizon && j < |db.tasks|
                && Claims(db.tasks[j], CLIENT_KEY, w.item.content, CandidateId(db, w.item.accepted[|w.attempts|]))
      ==> db.tasks[j].generation < w.generation
  }

  /** A loop about to claim either starts, or continues the attempt that was rejected last. */
  ghost predicate Continues(db: Db, w: Worker) {
    if w.attempts == [] then w.generation == 0 && w.supersedes == None
    else
      var last := w.attempts[|w.attempts| - 1];
      && last.task.Some? && w.supersedes == last.task && last.task.value < |db.tasks|
      && ExplicitlyRejected(db.tasks[last.task.value])
      && w.generation > last.generation
      && w.horizon <= |db.tasks|
      && (forall k :: 0 <= k < |w.attempts| && w.attempts[k].task.Some? ==> w.attempts[k].task.value < w.horizon)
      && |w.attempts| < |w.item.accepted| && FreeBelow(db, w)
  }

  /** Only a loop without a candidate left ends on a rejected task. */
  ghost predicate EndsWell(db: Db, w: Worker) {
    && w.attempts != []
    && var last := w.attempts[|w.attempts| - 1];
       last.task.Some? && last.task.value < |db.tasks| && ExplicitlyRejected(db.tasks[last.task.value]) ==>
         |w.attempts| == |w.item.accepted|
  }

  ghost predicate WorkerOk(db: Db, w: Worker) {
    && |w.item.accepted| > 0 && Prepared(db, w.item)
    && Trace(db, w.item, w.attempts)
    && match w.phase
       case Trying => |w.attempts| < |w.item.accepted| && Continues(db, w)
       case Calling(id) => w.attempts != [] && w.attempts[|w.attempts| - 1].task == Some(id) && Unsettled(db, id)
       case Deciding(id) => w.attempts != [] && w.attempts[|w.attempts| - 1].task == Some(id)
       case Over(cause) => EndsWell(db, w) && (cause.Refused? ==> w.attempts[|w.attempts| - 1].task == None)
  }

  /** No two loops work on the same row. */
  ghost predicate Apart(workers: seq<Worker>) {
    forall k, l, id: TaskId :: 0 <= k < l < |workers| && Tries(workers[k], id) ==> !Tries(workers[l], id)
  }

  ghost predicate Orderly(world: World) {
    && Consistent(world.system)
    && (forall k :: 0 <= k < |world.workers| ==> WorkerOk(world.system.db, world.workers[k]))
    && Apart(world.workers)
  }

  // ---- Loops are stable under what others do ----

  /** What any transaction keeps of the store. */
  ghost predicate Later(db: Db, after: Db) {
    && |db.logs| == |db.tasks| <= |after.tasks| == |after.logs|
    && db.candidates <= after.candidates && Candidates(after.candidates)
    && (forall i :: 0 <= i < |db.tasks| ==> SameIdentity(db.tasks[i], after.tasks[i]))
    && (forall i :: 0 <= i < |db.tasks| && db.tasks[i].status == Failed ==> after.tasks[i] == db.tasks[i])
  }

  lemma OperationIsLater(db: Db, config: Config, op: Op)
    requires Sound(db) && Possible(db, op)
    ensures Later(db, Perform(db, config, op, true))
  {
    hide Perform, Possible, Valid, Progressed, SameIdentity;
    var after := Perform(db, config, op, true);
    OperationKeepsSound(db, config, op, true);
    SoundShape(db);
    SoundShape(after);
    SoundCandidates(after);
    GrowsIntoSelf(db, config, op);
    forall i | 0 <= i < |db.tasks|
      ensures |db.tasks| <= |after.tasks| && SameIdentity(db.tasks[i], after.tasks[i])
      ensures db.tasks[i].status == Failed ==> after.tasks[i] == db.tasks[i]
    {
      OperationProgresses(db, config, op, true, i);
      ProgressKeepsIdentity(db.tasks[i], db.logs[i], after.tasks[i], after.logs[i]);
      if db.tasks[i].status == Failed {
        FailedIsFinal(db, config, op, true, i);
      }
    }
  }

  lemma SoundCandidates(db: Db)
    requires Sound(db)
    ensures Candidates(db.candidates)
  {
  }

  lemma GrowsIntoSelf(db: Db, config: Config, op: Op)
    requires Sound(db) && Possible(db, op)
    ensures |db.tasks| <= |Perform(db, config, op, true).tasks|
    ensures db.candidates <= Perform(db, config, op, true).candidates
  {
    hide Perform, Possible, Valid;
    if Adds(op) {
      AdditionGrows(db, config, op, true);
    } else {
      OperationTouchesOne(db, config, op, true);
    }
  }

  lemma ProgressKeepsIdentity(s: Task, log: seq<Event>, t: Task, log': seq<Event>)
    requires Progressed(s, log, t, log')
    ensures SameIdentity(s, t)
  {
  }

  /** A task becomes explicitly rejected by the recording of its own reply only. */
  lemma RejectionNeedsReply(db: Db, config: Config, op: Op, id: TaskId)
    requires Sound(db) && Possible(db, op) && id < |db.tasks|
    requires !(op.SettleTask? && op.id == id)
    ensures var after := Perform(db, config, op, true);
            id < |after.tasks| && (ExplicitlyRejected(after.tasks[id]) ==> ExplicitlyRejected(db.tasks[id]))
  {
    hide Valid, PollPlan, DestinationTaken, MaxSequence, SubmitEvent;
    SoundShape(db);
    if Adds(op) {
      AdditionGrows(db, config, op, true);
    } else {
      OperationTouchesOne(db, config, op, true);
      if op.PollTask? && op.id == id && Active(db.tasks[id].status) {
        FailingPlan(db.tasks[id], db.logs[id], true, op.signal, op.listing, op.now);
      }
    }
  }

  lemma CandidateIdStable(db: Db, after: Db, btih: string)
    requires btih in db.candidates && db.candidates <= after.candidates && Candidates(after.candidates)
    ensures CandidateId(after, btih) == CandidateId(db, btih)
  {
  }

  /** A loop that others leave alone is as it was. */
  lemma WorkerIsStable(db: Db, after: Db, w: Worker)
    requires WorkerOk(db, w) && Later(db, after)
    requires w.phase.Calling? ==> Unsettled(after, w.phase.id)
    requires w.phase.Over? ==>
               forall id: TaskId :: Tries(w, id) && id < |db.tasks| && ExplicitlyRejected(after.tasks[id])
                                    ==> ExplicitlyRejected(db.tasks[id])
    ensures WorkerOk(after, w)
  {
    hide CandidateId;
    TraceIsStable(db, after, w.item, w.attempts);
    if w.phase.Trying? {
      var btih := w.item.accepted[|w.attempts|];
      CandidateIdStable(db, after, btih);
    } else if w.phase.Over? {
      var last := w.attempts[|w.attempts| - 1];
      if last.task.Some? {
        assert RowOf(db, w.item, last);
        assert Tries(w, last.task.value);
      }
    }
  }

  lemma TraceIsStable(db: Db, after: Db, item: Item, attempts: seq<Attempt>)
    requires Trace(db, item, attempts) && Later(db, after)
    ensures Trace(after, item, attempts)
  {
    forall k | 0 <= k < |attempts| ensures RowOf(after, item, attempts[k]) {
      assert RowOf(db, item, attempts[k]);
    }
  }

  // ---- One step of one loop ----

  /** A loop's next transaction is possible, whatever happened since its last. */
  lemma NextIsPossible(db: Db, w: Worker, reply: SubmitReply, now: int)
    requires Sound(db) && WorkerOk(db, w) && NextOp(db, w, reply, now).Some?
    ensures Possible(db, NextOp(db, w, reply, now).value)
  {
    hide CandidateId, Honest, Sound, Paths.ResolveTaskDestination;
    if CanClaim(w) {
      if w.supersedes.Some? {
        var last := w.attempts[|w.attempts| - 1];
        assert RowOf(db, w.item, last);
      }
      AttemptIsHonest(db, w.item, |w.attempts|, w.generation, w.supersedes);
    }
  }

  lemma TraceGrows(db: Db, after: Db, w: Worker, task: Option<TaskId>)
    requires WorkerOk(db, w) && w.phase.Trying? && Later(db, after)
    requires RowOf(after, w.item, Tried(db, w, task, w.phase).attempts[|w.attempts|])
    ensures Trace(after, w.item, Tried(db, w, task, w.phase).attempts)
  {
    hide CandidateId;
    TraceIsStable(db, after, w.item, w.attempts);
    var n, all := |w.attempts|, Tried(db, w, task, w.phase).attempts;
    forall k | 0 <= k < |all| ensures all[k].index == k && RowOf(after, w.item, all[k]) {
      if k < n { assert all[k] == w.attempts[k]; }
    }
    forall k | 0 <= k < |all| - 1
      ensures all[k].task.Some? && all[k].task.value < |after.tasks|
              && ExplicitlyRejected(after.tasks[all[k].task.value])
      ensures all[k + 1].supersedes == all[k].task && all[k + 1].generation > all[k].generation
    {
      assert all[k] == w.attempts[k];
      if k + 1 < n { assert all[k + 1] == w.attempts[k + 1]; }
    }
  }

  /** A loop that could not even claim. */
  lemma RaiseKeepsWorker(db: Db, w: Worker, cause: Cause)
    requires WorkerOk(db, w) && w.phase.Trying? && |db.logs| == |db.tasks| && Candidates(db.candidates)
    ensures WorkerOk(db, Tried(db, w, None, Over(cause)))
  {
    hide CandidateId;
    KnownCandidate(db, w.item.accepted[|w.attempts|]);
    TraceGrows(db, db, w, None);
  }

  lemma KnownCandidate(db: Db, btih: string)
    requires btih in db.candidates
    ensures CandidateId(db, btih) < |db.candidates| && db.candidates[CandidateId(db, btih)] == btih
  {
  }

  lemma ClaimKeepsWorker(db: Db, config: Config, w: Worker, now: int)
    requires Sound(db) && WorkerOk(db, w) && CanClaim(w) && |db.logs| == |db.tasks|
    requires ClaimDownload(db, ClaimOf(config, ArgsOf(db, w), now), now).Ok?
    ensures var after := ClaimDownload(db, ClaimOf(config, ArgsOf(db, w), now), now).value;
            WorkerOk(after, Tried(db, w, Some(|db.tasks|), Calling(|db.tasks|)))
  {
    hide CandidateId, Sound, Honest, Possible, FirstClaim, DestinationTaken, Unsettled, Paths.ResolveTaskDestination;
    hide Paths.Absolute, Paths.Segments, Paths.Normalize;
    NextIsPossible(db, w, Crashed, now);
    KnownCandidate(db, w.item.accepted[|w.attempts|]);
    KnownDirectory(db, w.item, |w.attempts|);
    OperationIsLater(db, config, ClaimTask(ArgsOf(db, w), now));
    Operations.ClaimIsUnsettled(db, config, ArgsOf(db, w), now);
    var after := ClaimDownload(db, ClaimOf(config, ArgsOf(db, w), now), now).value;
    TraceGrows(db, after, w, Some(|db.tasks|));
  }

  lemma KnownDirectory(db: Db, item: Item, i: nat)
    requires Sound(db) && Prepared(db, item) && i < |item.accepted|
    requires Paths.ResolveTaskDestination(item.directory, item.accepted[i]).Ok?
    ensures Paths.ResolveTaskDestination(item.directory, item.accepted[i])
            == Ok(Paths.Absolute(Paths.Segments(item.directory) + [item.accepted[i]]))
  {
    hide Paths.ResolveTaskDestination, Paths.Absolute, Paths.Segments, Paths.Normalize;
    CandidateIdFound(db, item.accepted[i]);
    DirectoryOfHash(item.directory, item.accepted[i]);
  }

  lemma SettleKeepsWorker(db: Db, config: Config, w: Worker, reply: SubmitReply, now: int)
    requires Sound(db) && WorkerOk(db, w) && w.phase.Calling? && |db.logs| == |db.tasks|
    ensures WorkerOk(SettleRow(db, config, w.phase.id, reply, now).db, Stepped(db, config, w, reply, now))
  {
    hide CandidateId, Sound, SubmitEvent, DestinationTaken, MaxSequence, Paths.ResolveTaskDestination;
    OperationIsLater(db, config, SettleTask(w.phase.id, reply, now));
    TraceIsStable(db, SettleRow(db, config, w.phase.id, reply, now).db, w.item, w.attempts);
  }

  lemma DecideKeepsWorker(db: Db, config: Config, w: Worker, reply: SubmitReply, now: int)
    requires Sound(db) && WorkerOk(db, w) && w.phase.Deciding? && |db.logs| == |db.tasks|
    ensures WorkerOk(db, Stepped(db, config, w, reply, now))
  {
    hide CandidateId, Valid, NextGeneration;
    var last := w.attempts[|w.attempts| - 1];
    assert RowOf(db, w.item, last);
    forall k | 0 <= k < |w.attempts| && w.attempts[k].task.Some? ensures w.attempts[k].task.value < |db.tasks| {
      assert RowOf(db, w.item, w.attempts[k]);
    }
    if |w.attempts| < |w.item.accepted| {
      var next := CandidateId(db, w.item.accepted[|w.attempts|]);
      DecisionLeavesFree(db, w.item.content, next);
      NextExceeds(db, w.item.content, next, last.task.value);
    }
  }

  lemma DecisionLeavesFree(db: Db, content: nat, candidate: nat)
    ensures forall j :: 0 <= j < |db.tasks| && Claims(db.tasks[j], CLIENT_KEY, content, candidate) ==>
              db.tasks[j].generation < NextGeneration(db, CLIENT_KEY, content, candidate)
  {
  }

  // ---- One step of the world ----

  lemma UnsettledStays(db: Db, config: Config, op: Op, id: TaskId)
    requires Sound(db) && Possible(db, op) && Unsettled(db, id)
    requires !Adds(op) ==> op.id != id
    ensures Unsettled(Perform(db, config, op, true), id)
  {
    hide Perform, Valid, Possible;
    SoundShape(db);
    if Adds(op) {
      AdditionGrows(db, config, op, true);
    } else {
      OperationTouchesOne(db, config, op, true);
    }
  }

  /** A transaction that leaves a loop's rows to it keeps what the loop relies on. */
  lemma OthersKeepWorker(db: Db, config: Config, op: Op, w: Worker)
    requires Sound(db) && Possible(db, op) && WorkerOk(db, w) && Leaves(w, op)
    ensures WorkerOk(Perform(db, config, op, true), w)
  {
    hide Perform, Valid, Possible, Trace, Continues, Prepared, Unsettled, Later, EndsWell;
    OperationIsLater(db, config, op);
    if w.phase.Calling? {
      assert Tries(w, w.phase.id) by { assert w.attempts[|w.attempts| - 1].task == Some(w.phase.id); }
      UnsettledStays(db, config, op, w.phase.id);
    }
    var after := Perform(db, config, op, true);
    if w.phase.Over? {
      forall id: TaskId | Tries(w, id) && id < |db.tasks| && id < |after.tasks| && ExplicitlyRejected(after.tasks[id])
        ensures ExplicitlyRejected(db.tasks[id])
      {
        RejectionNeedsReply(db, config, op, id);
      }
    }
    LaterIsLonger(db, after);
    WorkerIsStable(db, after, w);
  }

  lemma LaterIsLonger(db: Db, after: Db)
    requires Later(db, after)
    ensures |db.tasks| <= |after.tasks|
  {
  }

  lemma StepOf(s: System, config: Config, op: Op)
    requires Consistent(s) && Possible(s.db, op)
    ensures Sound(s.db)
    ensures Advance(s, config, op, true).db == Perform(s.db, config, op, true)
    ensures Consistent(Advance(s, config, op, true))
  {
    hide Perform, Possible, RowOk, Sound;
    StepKeepsConsistent(s, config, op, true);
  }

  lemma OtherKeepsOrderly(world: World, config: Config, op: Op)
    requires Orderly(world) && Movable(world, Other(op))
    ensures Orderly(WorldAfter(world, config, Other(op)))
  {
    hide Perform, Possible, Consistent, WorkerOk, Leaves, Advance, Apart;
    StepOf(world.system, config, op);
    forall k | 0 <= k < |world.workers|
      ensures WorkerOk(Perform(world.system.db, config, op, true), world.workers[k])
    {
      OthersKeepWorker(world.system.db, config, op, world.workers[k]);
    }
  }

  /** A loop's own transaction leaves every other loop's rows alone. */
  lemma OwnOpLeavesOthers(world: World, k: nat, l: nat, reply: SubmitReply, now: int)
    requires Orderly(world) && k < |world.workers| && l < |world.workers| && k != l
    requires NextOp(world.system.db, world.workers[k], reply, now).Some?
    ensures Leaves(world.workers[l], NextOp(world.system.db, world.workers[k], reply, now).value)
  {
    hide Consistent, Trace, Continues, Prepared, Unsettled;
    var w := world.workers[k];
    if w.phase.Calling? {
      assert Tries(w, w.phase.id) by { assert w.attempts[|w.attempts| - 1].task == Some(w.phase.id); }
    }
  }

  lemma TriesKnownRows(db: Db, w: Worker, id: TaskId)
    requires WorkerOk(db, w) && Tries(w, id)
    ensures id < |db.tasks|
  {
    var k :| 0 <= k < |w.attempts| && w.attempts[k].task == Some(id);
    assert RowOf(db, w.item, w.attempts[k]);
  }

  /** What a step adds to a loop's rows is the row it has just claimed. */
  lemma StepTries(db: Db, config: Config, w: Worker, reply: SubmitReply, now: int, id: TaskId)
    requires |db.logs| == |db.tasks| && Tries(Stepped(db, config, w, reply, now), id)
    ensures Tries(w, id) || id == |db.tasks|
  {
    hide CandidateId, ClaimDownload, SettleRow, Unsettled, NextGeneration;
    var after := Stepped(db, config, w, reply, now);
    var k :| 0 <= k < |after.attempts| && after.attempts[k].task == Some(id);
    if k < |w.attempts| {
      assert after.attempts[k] == w.attempts[k];
    }
  }

  lemma StepKeepsApart(world: World, config: Config, k: nat, reply: SubmitReply, now: int)
    requires Orderly(world) && k < |world.workers| && |world.system.db.logs| == |world.system.db.tasks|
    ensures Apart(world.workers[k := Stepped(world.system.db, config, world.workers[k], reply, now)])
  {
    hide Consistent, WorkerOk, Stepped, Tries;
    var db, before := world.system.db, world.workers;
    var after := before[k := Stepped(db, config, before[k], reply, now)];
    forall i, j, id: TaskId | 0 <= i < j < |after| && Tries(after[i], id) ensures !Tries(after[j], id) {
      if Tries(after[j], id) {
        if i == k {
          StepTries(db, config, before[k], reply, now, id);
          TriesKnownRows(db, before[j], id);
        } else if j == k {
          StepTries(db, config, before[k], reply, now, id);
          TriesKnownRows(db, before[i], id);
        }
      }
    }
  }

  lemma ActKeepsWorker(world: World, config: Config, k: nat, reply: SubmitReply, now: int)
    requires Orderly(world) && k < |world.workers|
    ensures |world.system.db.logs| == |world.system.db.tasks|
    ensures WorkerOk(WorldAfter(world, config, Act(k, reply, now)).system.db,
                     Stepped(world.system.db, config, world.workers[k], reply, now))
  {
    hide Possible, RowOk, WorkerOk, Sound, Advance, Unsettled;
    var db, w := world.system.db, world.workers[k];
    SoundShape(db);
    SoundCandidates(db);
    match w.phase {
      case Trying =>
        TryingHasNext(db, w);
        if !CanClaim(w) {
          RaiseKeepsWorker(db, w, Raised);
        } else {
          NextIsPossible(db, w, reply, now);
          StepOf(world.system, config, ClaimTask(ArgsOf(db, w), now));
          var claimed := ClaimDownload(db, ClaimOf(config, ArgsOf(db, w), now), now);
          if claimed.Ok? {
            ClaimKeepsWorker(db, config, w, now);
          } else {
            RaiseKeepsWorker(db, w, Refused(claimed.error));
          }
        }
      case Calling(id) =>
        NextIsPossible(db, w, reply, now);
        StepOf(world.system, config, SettleTask(id, reply, now));
        SettleKeepsWorker(db, config, w, reply, now);
      case Deciding(id) =>
        DecideKeepsWorker(db, config, w, reply, now);
      case Over(_) =>
    }
  }

  lemma TryingHasNext(db: Db, w: Worker)
    requires WorkerOk(db, w) && w.phase.Trying?
    ensures |w.attempts| < |w.item.accepted|
  {
  }

  lemma ActKeepsOrderly(world: World, config: Config, k: nat, reply: SubmitReply, now: int)
    requires Orderly(world) && k < |world.workers|
    ensures Orderly(WorldAfter(world, config, Act(k, reply, now)))
  {
    hide Perform, Possible, Consistent, WorkerOk, Leaves, Advance, Apart, Stepped, NextOp;
    var db, w := world.system.db, world.workers[k];
    ActKeepsWorker(world, config, k, reply, now);
    StepKeepsApart(world, config, k, reply, now);
    var op := NextOp(db, w, reply, now);
    if op.Some? {
      ConsistentIsSound(world.system);
      NextIsPossible(db, w, reply, now);
      StepOf(world.system, config, op.value);
      forall l | 0 <= l < |world.workers| && l != k
        ensures WorkerOk(Perform(db, config, op.value, true), world.workers[l])
      {
        OwnOpLeavesOthers(world, k, l, reply, now);
        OthersKeepWorker(db, config, op.value, world.workers[l]);
      }
    }
  }

  lemma StartKeepsOrderly(world: World, config: Config, item: Item)
    requires Orderly(world) && Movable(world, Start(item))
    ensures Orderly(WorldAfter(world, config, Start(item)))
  {
    hide Consistent, Prepared;
  }

  lemma MoveKeepsOrderly(world: World, config: Config, move: Move)
    requires Orderly(world) && Movable(world, move)
    ensures Orderly(WorldAfter(world, config, move))
  {
    hide Orderly, WorldAfter;
    match move {
      case Start(item) => StartKeepsOrderly(world, config, item);
      case Act(k, reply, now) => ActKeepsOrderly(world, config, k, reply, now);
      case Other(op) => OtherKeepsOrderly(world, config, op);
    }
  }

  // ---- Every interleaving ----

  /** Loops side by side over a store that earlier runs left behind. */
  ghost predicate SideBySide(config: Config, worlds: seq<World>, moves: seq<Move>) {
    && |worlds| == |moves| + 1
    && Consistent(worlds[0].system) && worlds[0].workers == []
    && forall k :: 0 <= k < |moves| ==>
         Movable(worlds[k], moves[k]) && worlds[k + 1] == WorldAfter(worlds[k], config, moves[k])
  }

  /**
   * Whatever the interleaving: every store is consistent; every loop tries its candidates strictly in ranked
   * order, the next one only after an explicit rejection, at rising generations, each attempt superseding
   * the one before; and a loop that is over ends on a rejected task only without a candidate left.
   */
  lemma {:induction false} LoopsSideBySide(config: Config, worlds: seq<World>, moves: seq<Move>, k: nat)
    requires SideBySide(config, worlds, moves) && k < |worlds|
    ensures Orderly(worlds[k])
  {
    hide Orderly, WorldAfter, Movable, Consistent;
    if k == 0 {
      NoWorkersAreOrderly(worlds[0]);
    } else {
      LoopsSideBySide(config, worlds, moves, k - 1);
      MoveKeepsOrderly(worlds[k - 1], config, moves[k - 1]);
    }
  }

  lemma NoWorkersAreOrderly(world: World)
    requires Consistent(world.system) && world.workers == []
    ensures Orderly(world)
  {
    hide Consistent;
  }

  /**
   * When a fallback's claim meets a rival: exactly if somebody else claimed the content or the hash at the
   * same generation after the loop had computed it. Without a foreign claim in between there is none.
   */
  lemma ConflictIsForeign(world: World, config: Config, k: nat, now: int)
    requires Orderly(world) && k < |world.workers| && CanClaim(world.workers[k]) && world.workers[k].attempts != []
    ensures var w, db := world.workers[k], world.system.db;
            var c := ClaimOf(config, ArgsOf(db, w), now);
            && (ClaimDownload(db, c, now) == Err(IdempotencyConflict)
                <==> exists j :: w.horizon <= j < |db.tasks| && Rivals(db.tasks[j], c))
            && forall j: TaskId :: w.horizon <= j < |db.tasks| ==> !Tries(w, j)
  {
    hide Consistent, CandidateId, Trace, Prepared, FirstClaim, DestinationTaken;
    var w, db := world.workers[k], world.system.db;
    var c := ClaimOf(config, ArgsOf(db, w), now);
    NextIsPossibleIn(world, k, now);
    ConsistentIsSound(world.system);
    HonestClaim(db, config, ArgsOf(db, w), now);
    SoundIsValid(db);
    ClaimOutcome(db, c, now);
    if j :| 0 <= j < |db.tasks| && Rivals(db.tasks[j], c) {
      assert !(j < w.horizon);
    }
  }

  lemma NextIsPossibleIn(world: World, k: nat, now: int)
    requires Orderly(world) && k < |world.workers| && CanClaim(world.workers[k])
    ensures Honest(world.system.db, ArgsOf(world.system.db, world.workers[k]))
  {
    hide WorkerOk, RowOk, Sound, Honest;
    NextIsPossible(world.system.db, world.workers[k], Crashed, now);
  }

  lemma SoundIsValid(db: Db)
    requires Sound(db)
    ensures Valid(db)
  {
  }
}
