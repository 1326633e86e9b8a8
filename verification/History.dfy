/**
 * Whole runs of the control plane: any sequence of database transactions, in any interleaving of the
 * operations they belong to, with arbitrary remote replies.
 */
module History {
  import opened Wrappers
  import opened DownloadState
  import opened Store
  import opened Lifecycle
  import opened Submission
  import Btih
  import Completion
  import Paths

  // ---- What was seen of each task ----

  datatype Seen = SawFinished | SawConfirmation | SawFiles(snapshot: Completion.Snapshot)

  function Files(seen: seq<Seen>): seq<Completion.Snapshot> {
    if |seen| == 0 then []
    else
      var n := |seen| - 1;
      Files(seen[..n]) + if seen[n].SawFiles? then [seen[n].snapshot] else []
  }

  function Birth(c: Completion.CompletionState): Completion.CompletionState {
    Completion.Fresh(c.baseline, c.destination, c.required)
  }

  /** The three kinds of evidence that may complete a task. */
  ghost predicate Proven(t: Task, seen: seq<Seen>) {
    || SawFinished in seen
    || SawConfirmation in seen
    || (t.completion.Some? && |Files(seen)| > 0 && Completion.ReportsCompletion(Birth(t.completion.value), Files(seen)))
  }

  ghost predicate AllInside(destination: string, files: seq<Completion.Snapshot>) {
    forall k :: 0 <= k < |files| ==> Completion.Inside(destination, files[k])
  }

  /** The stored completion state is the fold of all successful observations since the submission. */
  ghost predicate Replayed(t: Task, seen: seq<Seen>) {
    match t.completion
    case None => Files(seen) == [] && t.baseline == None
    case Some(c) =>
      && t.baseline == Some(c.baseline)
      && t.destination == Some(c.destination)
      && Completion.Constructible(c.destination, c.required)
      && AllInside(c.destination, Files(seen))
      && Completion.Fold(Birth(c), Files(seen)) == Some(c)
  }

  /** A log that ends in an uneventful observation leaves these fields as that observation set them. */
  ghost predicate Quiet(t: Task, log: seq<Event>) {
    |log| > 0 && log[|log| - 1].evidence.NoReliableProgress? ==>
      && t.errorCode == None
      && t.completion.Some?
      && t.owned == (t.completion.value.owned != [])
  }

  /** The newest event is still the claim: the submission has not been settled, nor the task polled. */
  predicate JustClaimed(log: seq<Event>) {
    |log| > 0 && log[|log| - 1].evidence.ClaimCreated?
  }

  ghost predicate RowOk(t: Task, log: seq<Event>, seen: seq<Seen>) {
    && Replayed(t, seen)
    && (t.status == Completed ==> Proven(t, seen))
    && Quiet(t, log)
    && (JustClaimed(log) ==> t.completion == None && !t.owned)
  }

  datatype System = Sys(db: Db, seen: seq<seq<Seen>>)

  ghost predicate Consistent(s: System) {
    && Sound(s.db)
    && |s.seen| == |s.db.tasks|
    && forall i :: 0 <= i < |s.seen| ==> RowOk(s.db.tasks[i], s.db.logs[i], s.seen[i])
  }

  lemma ConsistentIsSound(s: System)
    requires Consistent(s)
    ensures Sound(s.db)
  {
  }

  const EMPTY := Sys(Db([], [], []), [])

  // ---- Operations ----

  /**
   * One transaction on the database, with what its caller decided and the client answered. Submitting is
   * two of them, the claim and the event of the client's reply; anything may happen in between.
   */
  datatype Op =
    | Prepare(btih: string)
    | ClaimTask(args: SubmitArgs, now: int)
    | SettleTask(id: TaskId, reply: SubmitReply, now: int)
    | PollTask(id: TaskId, signal: SignalReply, listing: ListingReply, now: int)
    | CompleteTask(id: TaskId, confirmed: bool, now: int)

  /** The client's listings stay inside the directory they were taken of. */
  ghost predicate HonestListing(db: Db, id: TaskId, listing: ListingReply) {
    id < |db.tasks| && db.tasks[id].destination.Some? && listing.Listing? ==>
      Completion.Inside(db.tasks[id].destination.value, listing.snapshot)
  }

  /** A row whose submission is still waiting for the client's reply to be recorded. */
  predicate Unsettled(db: Db, id: TaskId) {
    && |db.logs| == |db.tasks| && id < |db.tasks|
    && JustClaimed(db.logs[id]) && db.tasks[id].status == Submitting && db.tasks[id].destination.Some?
  }

  /** What the caller of an operation has already established. */
  ghost predicate Possible(db: Db, op: Op) {
    match op
    case Prepare(btih) => Btih.NormalBtih(btih)
    case ClaimTask(args, _) => Honest(db, args)
    case SettleTask(id, _, _) => Unsettled(db, id)
    case PollTask(id, _, listing, _) => HonestListing(db, id, listing)
    case CompleteTask(_, _, _) => true
  }

  lemma SoundShape(db: Db)
    requires Sound(db)
    ensures |db.logs| == |db.tasks|
    ensures forall i :: 0 <= i < |db.tasks| ==>
              db.tasks[i].candidate < |db.candidates| && db.tasks[i].destination.Some? && |db.logs[i]| > 0
              && db.logs[i][|db.logs[i]| - 1].status == db.tasks[i].status
  {
    forall i | 0 <= i < |db.tasks|
      ensures db.tasks[i].candidate < |db.candidates| && db.tasks[i].destination.Some? && |db.logs[i]| > 0
      ensures db.logs[i][|db.logs[i]| - 1].status == db.tasks[i].status
    {
      assert OwnDirectory(db.candidates, db.tasks[i]);
      assert LogOk(db.tasks[i], db.logs[i]);
    }
  }

  /** A claim leaves the store as it was if it is refused. */
  function Claimed(db: Db, c: Claim, now: int): Db {
    var r := ClaimDownload(db, c, now);
    if r.Ok? then r.value else db
  }

  /** Recording the client's reply to the submission of an unsettled row. */
  function SettleRow(db: Db, config: Config, id: TaskId, reply: SubmitReply, now: int)
    : Outcome<Result<TaskId, SubmitError>>
    requires Unsettled(db, id)
  {
    Settle(db, id, SubmitEvent(config, db.tasks[id].destination.value, reply, now))
  }

  /** The database after an operation. With `deduplicate` off, the poller records every observation. */
  ghost function Perform(db: Db, config: Config, op: Op, deduplicate: bool): Db
    requires Sound(db) && Possible(db, op)
  {
    SoundShape(db);
    match op
    case Prepare(btih) => UpsertCandidate(db, btih).0
    case ClaimTask(args, now) => Claimed(db, ClaimOf(config, args, now), now)
    case SettleTask(id, reply, now) => SettleRow(db, config, id, reply, now).db
    case PollTask(id, signal, listing, now) => Poll(db, id, deduplicate, signal, listing, now).db
    case CompleteTask(id, confirmed, now) => ManualComplete(db, id, confirmed, now).db
  }

  /** What a poll that returned normally saw of its task. */
  function PollSaw(db: Db, id: TaskId, deduplicate: bool, signal: SignalReply, listing: ListingReply,
                   now: int): seq<Seen>
    requires |db.logs| == |db.tasks| && id < |db.tasks|
  {
    var t := db.tasks[id];
    if Terminal(t.status) || Poll(db, id, deduplicate, signal, listing, now).result.Err? then []
    else if signal == Signal(SignalFinished) then [SawFinished]
    else if signal == Signal(SignalUnknown) && Observable(t) && listing.Listing? then [SawFiles(listing.snapshot)]
    else []
  }

  function ManualSaw(db: Db, id: TaskId, confirmed: bool, now: int): seq<Seen>
    requires |db.logs| == |db.tasks|
  {
    if ManualComplete(db, id, confirmed, now).result.Ok? then [SawConfirmation] else []
  }

  ghost function Padded(seen: seq<seq<Seen>>, n: nat): seq<seq<Seen>>
    requires |seen| <= n
  {
    seq(n, i requires 0 <= i < n => if i < |seen| then seen[i] else [])
  }

  lemma OperationKeepsSound(db: Db, config: Config, op: Op, deduplicate: bool)
    requires Sound(db) && Possible(db, op)
    ensures Sound(Perform(db, config, op, deduplicate))
  {
    hide Poll, ManualComplete, Valid, UpsertCandidate, Honest, SettleRow, Claimed;
    SoundShape(db);
    match op {
      case Prepare(btih) =>
        PrepareKeepsSound(db, btih);
      case ClaimTask(args, now) =>
        ClaimKeepsSound(db, config, args, now);
      case SettleTask(id, reply, now) =>
        SettleKeepsSound(db, config, id, reply, now);
      case PollTask(id, signal, listing, now) =>
        PollKeepsValid(db, id, deduplicate, signal, listing, now);
        PollTouchesOne(db, id, deduplicate, signal, listing, now);
      case CompleteTask(id, confirmed, now) =>
        ManualKeepsValid(db, id, confirmed, now);
        ManualTouchesOne(db, id, confirmed, now);
    }
  }

  lemma ClaimKeepsSound(db: Db, config: Config, args: SubmitArgs, now: int)
    requires Sound(db) && Honest(db, args)
    ensures Sound(Claimed(db, ClaimOf(config, args, now), now))
  {
    hide Valid, Honest, FirstClaim, DestinationTaken;
    HonestClaim(db, config, args, now);
    ClaimKeepsValid(db, ClaimOf(config, args, now), now);
  }

  lemma SettleKeepsSound(db: Db, config: Config, id: TaskId, reply: SubmitReply, now: int)
    requires Sound(db) && Unsettled(db, id)
    ensures Sound(SettleRow(db, config, id, reply, now).db)
  {
    hide Valid, SubmitEvent, DestinationTaken, MaxSequence;
    var event := SubmitEvent(config, db.tasks[id].destination.value, reply, now);
    SubmitEventFollows(config, db.tasks[id].destination.value, reply, now);
    if event.Ok? {
      AppendKeepsValid(db, id, event.value);
    }
  }

  lemma PrepareKeepsSound(db: Db, btih: string)
    requires Sound(db) && Btih.NormalBtih(btih)
    ensures Sound(UpsertCandidate(db, btih).0)
  {
    UpsertKeepsValid(db, btih);
  }

  /** The log only grew, and the row kept its identity and any terminal status. */
  ghost predicate Progressed(s: Task, log: seq<Event>, t: Task, log': seq<Event>) {
    && SameIdentity(s, t)
    && log <= log'
    && (Terminal(s.status) ==> t.status == s.status)
  }

  ghost predicate TouchesOne(db: Db, after: Db, id: TaskId) {
    && |db.logs| == |db.tasks| && |after.logs| == |after.tasks| == |db.tasks| && after.candidates == db.candidates
    && (forall i :: 0 <= i < |db.tasks| && i != id ==> after.tasks[i] == db.tasks[i] && after.logs[i] == db.logs[i])
    && (id < |db.tasks| ==> Progressed(db.tasks[id], db.logs[id], after.tasks[id], after.logs[id]))
  }

  lemma PollTouchesOne(db: Db, id: TaskId, deduplicate: bool, signal: SignalReply, listing: ListingReply, now: int)
    requires |db.logs| == |db.tasks|
    ensures TouchesOne(db, Poll(db, id, deduplicate, signal, listing, now).db, id)
  {
    hide PollPlan, DestinationTaken, MaxSequence;
  }

  lemma ManualTouchesOne(db: Db, id: TaskId, confirmed: bool, now: int)
    requires |db.logs| == |db.tasks|
    ensures TouchesOne(db, ManualComplete(db, id, confirmed, now).db, id)
  {
    hide DestinationTaken, MaxSequence;
  }

  lemma SettleTouchesOne(db: Db, config: Config, id: TaskId, reply: SubmitReply, now: int)
    requires Unsettled(db, id)
    ensures TouchesOne(db, SettleRow(db, config, id, reply, now).db, id)
  {
    hide SubmitEvent, DestinationTaken, MaxSequence;
  }

  // ---- New rows ----

  /** A row as a claim leaves it. */
  ghost predicate NewRow(t: Task, log: seq<Event>) {
    t.status == Submitting && t.completion == None && t.baseline == None && !t.owned && JustClaimed(log)
  }

  /** Claims add rows and leave the others alone. */
  ghost predicate Grew(db: Db, after: Db) {
    && |db.logs| == |db.tasks| && |after.logs| == |after.tasks|
    && db.tasks <= after.tasks && db.logs <= after.logs && db.candidates <= after.candidates
    && forall i :: |db.tasks| <= i < |after.tasks| ==> NewRow(after.tasks[i], after.logs[i])
  }

  /** Every operation either adds rows or touches one row. */
  predicate Adds(op: Op) {
    op.Prepare? || op.ClaimTask?
  }

  lemma AdditionGrows(db: Db, config: Config, op: Op, deduplicate: bool)
    requires Sound(db) && Possible(db, op) && Adds(op)
    ensures Grew(db, Perform(db, config, op, deduplicate))
  {
    hide Valid, FindCandidate, Honest, FirstClaim, DestinationTaken;
    SoundShape(db);
  }

  lemma OperationTouchesOne(db: Db, config: Config, op: Op, deduplicate: bool)
    requires Sound(db) && Possible(db, op) && !Adds(op)
    ensures TouchesOne(db, Perform(db, config, op, deduplicate), op.id)
  {
    hide Poll, ManualComplete, SettleRow, Valid, TouchesOne;
    SoundShape(db);
    match op {
      case SettleTask(id, reply, now) =>
        SettleTouchesOne(db, config, id, reply, now);
      case PollTask(id, signal, listing, now) =>
        PollTouchesOne(db, id, deduplicate, signal, listing, now);
      case CompleteTask(id, confirmed, now) =>
        ManualTouchesOne(db, id, confirmed, now);
    }
  }

  /** Logs are only ever extended, identities are fixed, completed and failed are final: for every operation. */
  lemma OperationProgresses(db: Db, config: Config, op: Op, deduplicate: bool, id: TaskId)
    requires Sound(db) && Possible(db, op) && id < |db.tasks|
    ensures var after := Perform(db, config, op, deduplicate);
            && |db.tasks| <= |after.tasks| && |after.logs| == |after.tasks|
            && db.candidates <= after.candidates
            && Progressed(db.tasks[id], db.logs[id], after.tasks[id], after.logs[id])
  {
    hide Perform, Valid;
    SoundShape(db);
    if Adds(op) {
      AdditionGrows(db, config, op, deduplicate);
    } else {
      OperationTouchesOne(db, config, op, deduplicate);
    }
  }

  /** A failed task is never touched again, by any operation. */
  lemma FailedIsFinal(db: Db, config: Config, op: Op, deduplicate: bool, id: TaskId)
    requires Sound(db) && Possible(db, op) && id < |db.tasks| && db.tasks[id].status == Failed
    ensures var after := Perform(db, config, op, deduplicate);
            && id < |after.tasks| == |after.logs| && |db.logs| == |db.tasks|
            && after.tasks[id] == db.tasks[id] && after.logs[id] == db.logs[id]
  {
    hide Valid, PollPlan, SubmitEvent, DestinationTaken, MaxSequence;
    SoundShape(db);
    if Adds(op) {
      AdditionGrows(db, config, op, deduplicate);
    } else {
      OperationTouchesOne(db, config, op, deduplicate);
    }
  }

  // ---- The history of a poll ----

  lemma FilesAppend(seen: seq<Seen>, more: Seen)
    ensures Files(seen + [more]) == Files(seen) + if more.SawFiles? then [more.snapshot] else []
  {
    assert (seen + [more])[..|seen|] == seen;
  }

  lemma FoldAppend(c: Completion.CompletionState, files: seq<Completion.Snapshot>, s: Completion.Snapshot)
    requires Completion.Fold(Birth(c), files) == Some(c)
    ensures Completion.Observe(c, s).Ok? ==>
              && Completion.Fold(Birth(c), files + [s]) == Some(Completion.Observe(c, s).value.state)
              && Completion.ReportsCompletion(Birth(c), files + [s]) == Completion.Observe(c, s).value.completed
              && Birth(Completion.Observe(c, s).value.state) == Birth(c)
  {
    hide Completion.OwnersOf, Completion.Restrict, Completion.Diff;
    assert (files + [s])[..|files|] == files;
  }

  lemma ProvenPersists(seen: seq<Seen>, more: Seen)
    ensures SawFinished in seen ==> SawFinished in seen + [more]
    ensures SawConfirmation in seen ==> SawConfirmation in seen + [more]
    ensures more in seen + [more]
  {
    assert (seen + [more])[|seen|] == more;
  }

  /** An update of a settled task that brings no listing. */
  predicate NoListing(u: Update) {
    && u.completion == None && u.baseline == None
    && !u.evidence.NoReliableProgress? && !u.evidence.ClaimCreated?
  }

  /** The client's reply turns a claimed row into one that starts its history. */
  lemma SettleKeepsRow(db: Db, config: Config, id: TaskId, reply: SubmitReply, now: int, seen: seq<Seen>)
    requires Unsettled(db, id) && RowOk(db.tasks[id], db.logs[id], seen)
    ensures var after := SettleRow(db, config, id, reply, now).db;
            && |after.tasks| == |after.logs| == |db.tasks|
            && RowOk(after.tasks[id], after.logs[id], seen)
  {
    hide DestinationTaken, MaxSequence;
  }

  /** What a written event may do to a row without new file evidence. */
  lemma PlainUpdateKeepsRow(t: Task, log: seq<Event>, seen: seq<Seen>, u: Update, e: Event)
    requires RowOk(t, log, seen)
    requires NoListing(u) && e.evidence == u.evidence
    requires u.status == Completed ==> t.status == Completed
    ensures RowOk(Apply(t, u), log + [e], seen)
  {
    hide Completion.Fold, Completion.ReportsCompletion;
  }

  lemma EvidenceKeepsRow(t: Task, log: seq<Event>, seen: seq<Seen>, u: Update, e: Event, more: Seen)
    requires RowOk(t, log, seen)
    requires NoListing(u) && e.evidence == u.evidence
    requires more == SawFinished || more == SawConfirmation
    ensures RowOk(Apply(t, u), log + [e], seen + [more])
  {
    hide Completion.Fold, Completion.ReportsCompletion;
    FilesAppend(seen, more);
    assert Files(seen) + [] == Files(seen);
    ProvenPersists(seen, more);
  }

  lemma ObservationKeepsRow(t: Task, log: seq<Event>, seen: seq<Seen>, snapshot: Completion.Snapshot, now: int,
                            e: Event)
    requires RowOk(t, log, seen) && t.completion.Some? && Active(t.status)
    requires Completion.Observe(t.completion.value, snapshot).Ok?
             && Completion.Inside(t.completion.value.destination, snapshot)
    requires var o := Completion.Observe(t.completion.value, snapshot).value; e.evidence == FileEvidence(o)
    ensures var o := Completion.Observe(t.completion.value, snapshot).value;
            RowOk(Apply(t, FileUpdate(FileTarget(t, o, now), o, now)), log + [e], seen + [SawFiles(snapshot)])
  {
    hide Completion.Fold, Completion.ReportsCompletion, Completion.Observe;
    FilesAppend(seen, SawFiles(snapshot));
    FoldAppend(t.completion.value, Files(seen), snapshot);
    ObserveKeepsBirth(t.completion.value, snapshot);
  }

  lemma ObserveKeepsBirth(c: Completion.CompletionState, s: Completion.Snapshot)
    requires Completion.Observe(c, s).Ok?
    ensures var n := Completion.Observe(c, s).value.state;
            n.baseline == c.baseline && n.destination == c.destination && n.required == c.required
  {
  }

  /** A repeated uneventful observation is part of the history although nothing is written for it. */
  lemma SkippedKeepsRow(t: Task, log: seq<Event>, seen: seq<Seen>, snapshot: Completion.Snapshot)
    requires RowOk(t, log, seen) && t.completion.Some? && Active(t.status)
    requires Completion.Observe(t.completion.value, snapshot).Ok?
             && Completion.Inside(t.completion.value.destination, snapshot)
    requires t.completion == Some(Completion.Observe(t.completion.value, snapshot).value.state)
    ensures RowOk(t, log, seen + [SawFiles(snapshot)])
  {
    hide Completion.Fold, Completion.ReportsCompletion, Completion.Observe;
    FilesAppend(seen, SawFiles(snapshot));
    FoldAppend(t.completion.value, Files(seen), snapshot);
  }

  lemma PollKeepsRow(db: Db, id: TaskId, deduplicate: bool, signal: SignalReply, listing: ListingReply, now: int,
                     seen: seq<Seen>)
    requires Sound(db) && id < |db.tasks| && |db.logs| == |db.tasks|
    requires RowOk(db.tasks[id], db.logs[id], seen) && HonestListing(db, id, listing)
    ensures var after := Poll(db, id, deduplicate, signal, listing, now).db;
            && |after.tasks| == |after.logs| == |db.tasks|
            && RowOk(after.tasks[id], after.logs[id], seen + PollSaw(db, id, deduplicate, signal, listing, now))
  {
    hide Sound, RowOk, PollPlan, DestinationTaken, MaxSequence;
    var t, log := db.tasks[id], db.logs[id];
    assert seen + [] == seen;
    if Active(t.status) {
      var plan := PollPlan(t, log, deduplicate, signal, listing, now);
      if signal == Signal(SignalUnknown) && Observable(t) && listing.Listing? {
        DestinationIsListed(t, log, seen);
        FilePollKeepsRow(db, id, deduplicate, listing.snapshot, now, seen);
        ObservedPlan(t, log, deduplicate, listing, now);
      } else {
        OtherPlan(t, log, deduplicate, signal, listing, now);
        var e := Event(MaxSequence(log) + 1, plan.update.status, plan.update.source, plan.update.evidence,
                       plan.update.occurredAt);
        if signal == Signal(SignalFinished) {
          EvidenceKeepsRow(t, log, seen, plan.update, e, SawFinished);
        } else {
          PlainUpdateKeepsRow(t, log, seen, plan.update, e);
        }
      }
    }
  }

  lemma DestinationIsListed(t: Task, log: seq<Event>, seen: seq<Seen>)
    requires RowOk(t, log, seen) && t.completion.Some?
    ensures t.destination == Some(t.completion.value.destination)
  {
  }

  lemma ObservedPlan(t: Task, log: seq<Event>, deduplicate: bool, listing: ListingReply, now: int)
    requires Observable(t) && listing.Listing?
    ensures PollPlan(t, log, deduplicate, Signal(SignalUnknown), listing, now)
            == FilePlan(t, log, deduplicate, listing.snapshot, now)
  {
  }

  /** Polls without a listing write one event, with no completion state; only FINISHED completes. */
  lemma OtherPlan(t: Task, log: seq<Event>, deduplicate: bool, signal: SignalReply, listing: ListingReply, now: int)
    requires Active(t.status)
    requires !(signal == Signal(SignalUnknown) && Observable(t) && listing.Listing?)
    ensures var plan := PollPlan(t, log, deduplicate, signal, listing, now);
            && plan.Write? && NoListing(plan.update)
            && (plan.update.status == Completed <==> signal == Signal(SignalFinished))
  {
    hide FilePlan;
    PlanFollows(t, log, deduplicate, signal, listing, now);
    WaitedFollows(t, now);
  }

  lemma FilePollKeepsRow(db: Db, id: TaskId, deduplicate: bool, snapshot: Completion.Snapshot, now: int,
                         seen: seq<Seen>)
    requires |db.logs| == |db.tasks| && id < |db.tasks| && Active(db.tasks[id].status) && db.tasks[id].completion.Some?
    requires RowOk(db.tasks[id], db.logs[id], seen)
             && Completion.Inside(db.tasks[id].completion.value.destination, snapshot)
    ensures var o := Carry(db, id, FilePlan(db.tasks[id], db.logs[id], deduplicate, snapshot, now));
            && |o.db.tasks| == |o.db.logs| == |db.tasks|
            && RowOk(o.db.tasks[id], o.db.logs[id], seen + if o.result.Ok? then [SawFiles(snapshot)] else [])
  {
    hide RowOk, FilePlan, DestinationTaken, MaxSequence, Completion.Observe;
    var t, log := db.tasks[id], db.logs[id];
    assert seen + [] == seen;
    FilePlanOk(t, log, deduplicate, snapshot, now);
    var plan := FilePlan(t, log, deduplicate, snapshot, now);
    if plan.Skip? {
      SkippedKeepsRow(t, log, seen, snapshot);
    } else if plan.Write? {
      var e := Event(MaxSequence(log) + 1, plan.update.status, plan.update.source, plan.update.evidence,
                     plan.update.occurredAt);
      ObservationKeepsRow(t, log, seen, snapshot, now, e);
    }
  }

  lemma ManualKeepsRow(db: Db, id: TaskId, confirmed: bool, now: int, seen: seq<Seen>)
    requires id < |db.tasks| && |db.logs| == |db.tasks|
    requires RowOk(db.tasks[id], db.logs[id], seen)
    ensures var after := ManualComplete(db, id, confirmed, now).db;
            && |after.tasks| == |after.logs| == |db.tasks|
            && RowOk(after.tasks[id], after.logs[id], seen + ManualSaw(db, id, confirmed, now))
  {
    hide RowOk, DestinationTaken, MaxSequence;
    var t, log := db.tasks[id], db.logs[id];
    assert seen + [] == seen;
    if confirmed && Transition(t.status, Some(Completed), true, None, None).Ok? {
      var u := Plain(Completed, ManualConfirmation, now).(source := Manual);
      var e := Event(MaxSequence(log) + 1, u.status, u.source, u.evidence, u.occurredAt);
      EvidenceKeepsRow(t, log, seen, u, e, SawConfirmation);
    }
  }

  // ---- Every run ----

  /** The system after an operation: the database, and what each task's operations saw. */
  ghost function Step(s: System, config: Config, op: Op, deduplicate: bool): System
    requires Consistent(s) && Possible(s.db, op)
  {
    SoundShape(s.db);
    OperationKeepsSound(s.db, config, op, deduplicate);
    var after := Perform(s.db, config, op, deduplicate);
    var seen :=
      match op
      case PollTask(id, signal, listing, now) =>
        if id < |s.seen| then s.seen[id := s.seen[id] + PollSaw(s.db, id, deduplicate, signal, listing, now)]
        else s.seen
      case CompleteTask(id, confirmed, now) =>
        if id < |s.seen| then s.seen[id := s.seen[id] + ManualSaw(s.db, id, confirmed, now)] else s.seen
      case _ => if |s.seen| <= |after.tasks| then Padded(s.seen, |after.tasks|) else s.seen;
    Sys(after, seen)
  }

  lemma NewRowOk(t: Task, log: seq<Event>)
    requires NewRow(t, log)
    ensures RowOk(t, log, [])
  {
  }

  lemma StepKeepsConsistent(s: System, config: Config, op: Op, deduplicate: bool)
    requires Consistent(s) && Possible(s.db, op)
    ensures Consistent(Step(s, config, op, deduplicate))
  {
    hide RowOk, Sound, Poll, ManualComplete, SettleRow, Claimed, UpsertCandidate, NewRow, PollSaw, ManualSaw;
    var db := s.db;
    SoundShape(db);
    OperationKeepsSound(db, config, op, deduplicate);
    var after := Perform(db, config, op, deduplicate);
    var next := Step(s, config, op, deduplicate);
    if Adds(op) {
      AdditionGrows(db, config, op, deduplicate);
      forall i | 0 <= i < |next.seen| ensures RowOk(after.tasks[i], after.logs[i], next.seen[i]) {
        if i < |db.tasks| {
          assert after.tasks[i] == db.tasks[i] && after.logs[i] == db.logs[i];
        } else {
          NewRowOk(after.tasks[i], after.logs[i]);
        }
      }
    } else if op.SettleTask? {
      SettleTouchesOne(db, config, op.id, op.reply, op.now);
      SettleKeepsRow(db, config, op.id, op.reply, op.now, s.seen[op.id]);
    } else if op.PollTask? {
      PollTouchesOne(db, op.id, deduplicate, op.signal, op.listing, op.now);
      if op.id < |db.tasks| {
        PollKeepsRow(db, op.id, deduplicate, op.signal, op.listing, op.now, s.seen[op.id]);
      }
    } else {
      ManualTouchesOne(db, op.id, op.confirmed, op.now);
      if op.id < |db.tasks| {
        ManualKeepsRow(db, op.id, op.confirmed, op.now, s.seen[op.id]);
      }
    }
  }

  /** `Step`, made total: that the first branch is always the one taken is `RunStaysConsistent`. */
  ghost function Advance(s: System, config: Config, op: Op, deduplicate: bool): System {
    if Consistent(s) && Possible(s.db, op) then Step(s, config, op, deduplicate) else s
  }

  /** A run: consecutive systems from the empty one, each reached by a possible operation. */
  ghost predicate Run(config: Config, deduplicate: bool, systems: seq<System>, ops: seq<Op>) {
    && |systems| == |ops| + 1
    && systems[0] == EMPTY
    && forall k :: 0 <= k < |ops| ==>
         Possible(systems[k].db, ops[k]) && systems[k + 1] == Advance(systems[k], config, ops[k], deduplicate)
  }

  lemma {:induction false} ConsistentAt(config: Config, deduplicate: bool, systems: seq<System>, ops: seq<Op>, k: nat)
    requires Run(config, deduplicate, systems, ops) && k < |systems|
    ensures Consistent(systems[k])
    ensures k < |ops| ==> systems[k + 1] == Step(systems[k], config, ops[k], deduplicate)
  {
    hide Step, Consistent, Possible;
    EmptyIsConsistent();
    if k > 0 {
      ConsistentAt(config, deduplicate, systems, ops, k - 1);
      StepKeepsConsistent(systems[k - 1], config, ops[k - 1], deduplicate);
    }
  }

  lemma EmptyIsConsistent()
    ensures Consistent(EMPTY)
  {
  }

  /** Every database of every run satisfies the unique constraints, the links, the logs and the histories. */
  lemma RunStaysConsistent(config: Config, deduplicate: bool, systems: seq<System>, ops: seq<Op>)
    requires Run(config, deduplicate, systems, ops)
    ensures forall k :: 0 <= k < |systems| ==> Consistent(systems[k])
  {
    hide Consistent, Advance;
    forall k | 0 <= k < |systems| ensures Consistent(systems[k]) {
      ConsistentAt(config, deduplicate, systems, ops, k);
    }
  }

  lemma {:induction false} DiffFromItems(baseline: Completion.Snapshot, items: seq<Completion.FileFact>)
    ensures forall f :: f in Completion.Diff(baseline, items) ==> f in items
  {
    if |items| != 0 {
      DiffFromItems(baseline, items[1..]);
      assert items == [items[0]] + items[1..];
    }
  }

  lemma {:induction false} OwnersNeedPrefix(destination: string, items: seq<Completion.FileFact>, i: nat)
    requires Completion.OwnersOf(destination, items).Ok? && i < |items|
    ensures Completion.TopLevelOwner(destination, items[i].path).Ok?
  {
    if i > 0 {
      OwnersNeedPrefix(destination, items[1..], i - 1);
    }
  }

  lemma {:induction false} FoldNeedsBelow(c: Completion.CompletionState, snapshots: seq<Completion.Snapshot>)
    requires Completion.Fold(Birth(c), snapshots).Some?
    requires Paths.RStrip(c.destination) != ""
    requires AllInside(c.destination, snapshots)
    ensures Completion.FirstChangeBelow(c.baseline, c.destination, snapshots)
  {
    hide Completion.Observe, Completion.Changes, Completion.StrictlyBelow, Completion.FoldShape, Completion.Inside;
    if |snapshots| != 0 {
      var n := |snapshots| - 1;
      var init := snapshots[..n];
      FoldNeedsBelow(c, init);
      Completion.FoldCharacterised(c.baseline, c.destination, c.required, init);
      forall k | 0 <= k < |snapshots| && Completion.UnchangedBefore(c.baseline, snapshots, k)
        ensures Completion.ChangesBelow(c.baseline, c.destination, snapshots[k])
      {
        if k < n {
          assert Completion.UnchangedBefore(c.baseline, init, k);
          assert Completion.ChangesBelow(c.baseline, c.destination, init[k]);
        } else {
          UnchangedOwnsNothing(c.baseline, c.destination, init);
          LastChangesBelow(c, snapshots);
        }
      }
    }
  }

  lemma {:induction false} UnchangedOwnsNothing(baseline: Completion.Snapshot, destination: string,
                                                snapshots: seq<Completion.Snapshot>)
    requires Completion.UnchangedBefore(baseline, snapshots, |snapshots|)
    ensures Completion.FrozenOwners(baseline, destination, snapshots) == []
  {
    if |snapshots| != 0 {
      var n := |snapshots| - 1;
      UnchangedOwnsNothing(baseline, destination, snapshots[..n]);
      assert Completion.Changes(baseline, snapshots[n]) == [];
    }
  }

  lemma LastChangesBelow(c: Completion.CompletionState, snapshots: seq<Completion.Snapshot>)
    requires |snapshots| > 0 && Completion.Fold(Birth(c), snapshots).Some?
    requires Paths.RStrip(c.destination) != "" && Completion.Inside(c.destination, snapshots[|snapshots| - 1])
    requires var init := snapshots[..|snapshots| - 1];
             && Completion.FirstChangeBelow(c.baseline, c.destination, init)
             && Completion.FrozenOwners(c.baseline, c.destination, init) == []
    ensures Completion.ChangesBelow(c.baseline, c.destination, snapshots[|snapshots| - 1])
  {
    var last := snapshots[|snapshots| - 1];
    var changes := Completion.Changes(c.baseline, last);
    Completion.FoldCharacterised(c.baseline, c.destination, c.required, snapshots[..|snapshots| - 1]);
    DiffFromItems(c.baseline, Completion.Items(last));
    Completion.ItemsSound(last);
    forall i | 0 <= i < |changes| ensures Completion.StrictlyBelow(c.destination, changes[i].path) {
      OwnersNeedPrefix(c.destination, changes, i);
      assert changes[i] in changes;
      assert changes[i] in last;
    }
  }

  lemma DirectoryIsNormal(db: Db, id: TaskId)
    requires Sound(db) && id < |db.tasks|
    ensures db.tasks[id].destination.Some?
    ensures Paths.RStrip(db.tasks[id].destination.value) == db.tasks[id].destination.value != ""
  {
    assert OwnDirectory(db.candidates, db.tasks[id]);
    Paths.NoTrailingSlash(Paths.Segments(db.tasks[id].destination.value));
  }

  /**
   * Completion is justified in every run: a completed task has a FINISHED signal or a manual
   * confirmation in its history, or its last `required` successful listings show one and the same
   * non-empty change set of positive size inside the owners frozen at the first change.
   */
  lemma CompletedIsJustified(config: Config, deduplicate: bool, systems: seq<System>, ops: seq<Op>, k: nat, id: TaskId)
    requires Run(config, deduplicate, systems, ops) && k < |systems|
    requires id < |systems[k].db.tasks| && systems[k].db.tasks[id].status == Completed
    ensures |systems[k].seen| == |systems[k].db.tasks|
    ensures var seen := systems[k].seen[id];
            var files := Files(seen);
            var completion := systems[k].db.tasks[id].completion;
            || SawFinished in seen
            || SawConfirmation in seen
            || (&& completion.Some?
                && var c := completion.value;
                   Completion.StableFor(c.baseline, Completion.FrozenOwners(c.baseline, c.destination, files), files,
                                        c.required))
  {
    RunStaysConsistent(config, deduplicate, systems, ops);
    var t, seen := systems[k].db.tasks[id], systems[k].seen[id];
    assert RowOk(t, systems[k].db.logs[id], seen);
    if !(SawFinished in seen) && !(SawConfirmation in seen) {
      var c, files := t.completion.value, Files(seen);
      DirectoryIsNormal(systems[k].db, id);
      FoldNeedsBelow(c, files);
      Completion.CompletionIffStable(c.baseline, c.destination, c.required, files);
    }
  }

  /** The persisted completion state is always the fold of the task's successful listings since submission. */
  lemma CompletionStateIsTheFold(config: Config, deduplicate: bool, systems: seq<System>, ops: seq<Op>, k: nat,
                                 id: TaskId)
    requires Run(config, deduplicate, systems, ops) && k < |systems|
    requires id < |systems[k].db.tasks|
    ensures |systems[k].seen| == |systems[k].db.tasks| && Replayed(systems[k].db.tasks[id], systems[k].seen[id])
  {
    RunStaysConsistent(config, deduplicate, systems, ops);
    assert RowOk(systems[k].db.tasks[id], systems[k].db.logs[id], systems[k].seen[id]);
  }

  /** The listing that a poll observes, if it gets that far. */
  predicate Observes(t: Task, signal: SignalReply, listing: ListingReply) {
    && signal == Signal(SignalUnknown) && Observable(t) && listing.Listing?
    && Completion.Observe(t.completion.value, listing.snapshot).Ok?
  }

  /** The decision of a poll completes a task on FINISHED, or on an observation that reports completion. */
  lemma CompletingPlan(t: Task, log: seq<Event>, deduplicate: bool, signal: SignalReply, listing: ListingReply,
                       now: int)
    requires Active(t.status) && LogOk(t, log)
    ensures var plan := PollPlan(t, log, deduplicate, signal, listing, now);
            && (plan.Write? && plan.update.status == Completed <==>
                  || signal == Signal(SignalFinished)
                  || (Observes(t, signal, listing)
                      && Completion.Observe(t.completion.value, listing.snapshot).value.completed))
            && (plan.Skip? ==> plan.status == t.status)
  {
    hide Completion.Observe, FilePlan;
    PlanFollows(t, log, deduplicate, signal, listing, now);
    WaitedFollows(t, now);
    if signal == Signal(SignalUnknown) && Observable(t) && listing.Listing? {
      FilePlanOk(t, log, deduplicate, listing.snapshot, now);
    }
  }

  /** A finished task waits for nothing, so recording its end is never refused. */
  lemma EndIsRecorded(db: Db, id: TaskId, plan: Plan)
    requires |db.logs| == |db.tasks| && id < |db.tasks| && plan.Write? && Terminal(plan.update.status)
    ensures Carry(db, id, plan).result.Ok?
  {
    hide MaxSequence;
  }

  /** What the fold says about one more listing. */
  lemma ObservationReports(t: Task, seen: seq<Seen>, snapshot: Completion.Snapshot)
    requires Replayed(t, seen) && t.completion.Some? && Completion.Observe(t.completion.value, snapshot).Ok?
    requires Paths.RStrip(t.completion.value.destination) != ""
             && Completion.Inside(t.completion.value.destination, snapshot)
    ensures var c := t.completion.value;
            var files := Files(seen) + [snapshot];
            Completion.Observe(c, snapshot).value.completed
            <==> Completion.StableFor(c.baseline, Completion.FrozenOwners(c.baseline, c.destination, files), files,
                                      c.required)
  {
    hide Completion.Fold, Completion.ReportsCompletion, Completion.Observe, Completion.StableFor;
    hide Completion.FrozenOwners, Completion.Inside;
    var c := t.completion.value;
    FoldAppend(c, Files(seen), snapshot);
    FoldNeedsBelow(c, Files(seen) + [snapshot]);
    Completion.CompletionIffStable(c.baseline, c.destination, c.required, Files(seen) + [snapshot]);
  }

  /**
   * A poll completes a task exactly when the client signals FINISHED, or gives no signal and the listing
   * is the last of `required` in a row that show the same owned, non-empty change set.
   */
  lemma PollCompletesIff(s: System, id: TaskId, deduplicate: bool, signal: SignalReply, listing: ListingReply, now: int)
    requires Consistent(s) && id < |s.db.tasks| && Active(s.db.tasks[id].status) && HonestListing(s.db, id, listing)
    ensures |s.db.logs| == |s.db.tasks| == |s.seen|
    ensures var after := Poll(s.db, id, deduplicate, signal, listing, now).db;
            var t := s.db.tasks[id];
            && |after.tasks| == |s.db.tasks|
            && (after.tasks[id].status == Completed <==>
                  || signal == Signal(SignalFinished)
                  || (Observes(t, signal, listing)
                      && var c, files := t.completion.value, Files(s.seen[id]) + [listing.snapshot];
                         Completion.StableFor(c.baseline, Completion.FrozenOwners(c.baseline, c.destination, files),
                                              files, c.required)))
  {
    hide PollPlan, DestinationTaken, MaxSequence, Completion.StableFor, Completion.FrozenOwners;
    hide Completion.Observe, Completion.Inside, Valid;
    SoundShape(s.db);
    DirectoryIsNormal(s.db, id);
    SoundLogOk(s.db, id);
    var t, log := s.db.tasks[id], s.db.logs[id];
    assert RowOk(t, log, s.seen[id]);
    CompletingPlan(t, log, deduplicate, signal, listing, now);
    var plan := PollPlan(t, log, deduplicate, signal, listing, now);
    if plan.Write? && plan.update.status == Completed {
      EndIsRecorded(s.db, id, plan);
    }
    if Observes(t, signal, listing) {
      ObservationReports(t, s.seen[id], listing.snapshot);
    }
  }

  lemma SoundLogOk(db: Db, id: TaskId)
    requires Sound(db) && id < |db.tasks|
    ensures |db.logs| == |db.tasks| && LogOk(db.tasks[id], db.logs[id])
  {
  }

  /** After its submission a task fails exactly on the client's ERROR signal. */
  lemma PollFailsIff(db: Db, id: TaskId, deduplicate: bool, signal: SignalReply, listing: ListingReply, now: int)
    requires Sound(db) && id < |db.tasks| && Active(db.tasks[id].status)
    ensures |db.logs| == |db.tasks| == |Poll(db, id, deduplicate, signal, listing, now).db.tasks|
    ensures Poll(db, id, deduplicate, signal, listing, now).db.tasks[id].status == Failed
            <==> signal == Signal(SignalError)
  {
    hide DestinationTaken, MaxSequence, PollPlan, Valid;
    SoundLogOk(db, id);
    var t, log := db.tasks[id], db.logs[id];
    FailingPlan(t, log, deduplicate, signal, listing, now);
    CompletingPlan(t, log, deduplicate, signal, listing, now);
    var plan := PollPlan(t, log, deduplicate, signal, listing, now);
    if plan.Write? && plan.update.status == Failed {
      EndIsRecorded(db, id, plan);
    }
  }

  lemma FailingPlan(t: Task, log: seq<Event>, deduplicate: bool, signal: SignalReply, listing: ListingReply, now: int)
    requires Active(t.status)
    ensures var plan := PollPlan(t, log, deduplicate, signal, listing, now);
            && (plan.Write? && plan.update.status == Failed <==> signal == Signal(SignalError))
            && (plan.Write? && plan.update.status == Failed ==> plan.update.errorCode == None)
  {
    hide Completion.Observe, FilePlan;
    PlanFollows(t, log, deduplicate, signal, listing, now);
    WaitedFollows(t, now);
    if signal == Signal(SignalUnknown) && Observable(t) && listing.Listing? {
      FilePlanOk(t, log, deduplicate, listing.snapshot, now);
    }
  }
}
