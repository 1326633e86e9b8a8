/**
 * The operations on one download task (downloads/service.py): submitting it, polling it and
 * completing it by hand. Every reply of the remote client is an arbitrary parameter.
 */
module Lifecycle {
  import opened Wrappers
  import opened DownloadState
  import opened Store
  import Completion
  import Magnet

  const CLIENT_KEY := "clouddrive2"

  datatype Config = Config(attentionAfterSeconds: int, requiredObservations: nat)

  /** The outcome of an operation: the database it leaves behind and its answer. */
  datatype Outcome<+T> = Outcome(db: Db, result: T)

  // ---- Submitting ----

  /**
   * What `ensure_destination` followed by `submit` can answer or raise. An answer names the directory it was
   * given.
   */
  datatype SubmitReply =
    | SubmitAccepted(btih: string, baseline: Completion.Snapshot)
    | ResultUnknown(code: string, known: Option<Completion.Snapshot>)
    | AlreadyExists(code: string)
    | Rejected(code: string)
    | ClientFailed(code: string)
    | Crashed

  datatype SubmitArgs = SubmitArgs(
    content: nat,
    candidate: nat,
    magnetUri: string,
    destination: string,
    generation: nat,
    supersedes: Option<TaskId>)

  datatype SubmitError =
    | BadMagnet
    | NoSuchCandidate
    | BtihMismatch
    | ClaimRefused(cause: StoreError)
    | InvalidCompletionState
    | ClientCrashed
    | EventRefused(cause: StoreError)

  function ClaimOf(config: Config, args: SubmitArgs, now: int): Claim {
    Claim(CLIENT_KEY, args.content, args.candidate, args.generation, args.supersedes,
          Some(args.destination), Some(now + config.attentionAfterSeconds))
  }

  /** The event recorded for a reply, unless handling the reply raises. */
  function SubmitEvent(config: Config, destination: string, reply: SubmitReply, now: int): Result<Update, SubmitError> {
    match reply
    case ResultUnknown(code, baseline) =>
      if baseline.None? then
        Ok(Plain(Submitting, SubmissionResultUnknown, now).(errorCode := Some(code)))
      else if !Completion.Constructible(destination, config.requiredObservations) then Err(InvalidCompletionState)
      else
        Ok(Plain(Submitting, SubmissionResultUnknown, now).(
           baseline := baseline,
           completion := Some(Completion.Fresh(baseline.value, destination, config.requiredObservations)),
           errorCode := Some(code)))
    case AlreadyExists(code) =>
      Ok(Plain(AttentionRequired, ExternalTaskAlreadyExists, now).(errorCode := Some(code)))
    case Rejected(code) =>
      Ok(Plain(Failed, ExplicitRejection, now).(errorCode := Some(code)))
    case ClientFailed(code) =>
      Ok(Plain(Failed, ClientError, now).(errorCode := Some(code)))
    case SubmitAccepted(btih, baseline) =>
      if !Completion.Constructible(destination, config.requiredObservations) then Err(InvalidCompletionState)
      else
        Ok(Plain(Submitted, Accepted, now).(
           externalReference := Some(btih),
           baseline := Some(baseline),
           completion := Some(Completion.Fresh(baseline, destination, config.requiredObservations))))
    case Crashed => Err(ClientCrashed)
  }

  /** `submit_candidate`. */
  function Submit(db: Db, config: Config, args: SubmitArgs, reply: SubmitReply,
                  now: int): Outcome<Result<TaskId, SubmitError>>
    requires |db.logs| == |db.tasks|
  {
    var parsed := Magnet.ParseMagnet(args.magnetUri);
    if parsed.Err? then Outcome(db, Err(BadMagnet))
    else if args.candidate >= |db.candidates| then Outcome(db, Err(NoSuchCandidate))
    else if db.candidates[args.candidate] != parsed.value.btih then Outcome(db, Err(BtihMismatch))
    else
      var claimed := ClaimDownload(db, ClaimOf(config, args, now), now);
      if claimed.Err? then Outcome(db, Err(ClaimRefused(claimed.error)))
      else Settle(claimed.value, |db.tasks|, SubmitEvent(config, args.destination, reply, now))
  }

  function Settle(claimed: Db, id: TaskId, event: Result<Update, SubmitError>): Outcome<Result<TaskId, SubmitError>>
    requires |claimed.logs| == |claimed.tasks|
  {
    if event.Err? then Outcome(claimed, Err(event.error))
    else
      var after := AppendEvent(claimed, id, event.value);
      if after.Err? then Outcome(claimed, Err(EventRefused(after.error))) else Outcome(after.value, Ok(id))
  }

  // ---- Polling ----

  datatype TaskSignal = SignalInit | SignalDownloading | SignalFinished | SignalError | SignalUnknown

  datatype SignalReply = Signal(signal: TaskSignal) | SignalFailed(code: string)

  datatype ListingReply = Listing(snapshot: Completion.Snapshot) | ListingFailed(code: string)

  datatype PollError =
    | UnknownTask
    | IllegalTransition
    | OutsideDestination
    | StoreRefused(cause: StoreError)

  /** What a poll decides to do with a task that is still active. */
  datatype Plan = Raise(error: PollError) | Skip(status: Status) | Write(update: Update)

  /** `_transition`. */
  function Moved(t: Task, target: Status, evidence: Evidence, now: int, owned: Option<bool>): Plan {
    var r := Transition(t.status, Some(target), true, Some(now), t.attentionAfter);
    if r.Err? then Raise(IllegalTransition) else Write(Plain(r.value, evidence, now).(owned := owned))
  }

  /** The status when the evidence says nothing: unchanged, or attention once the deadline has passed. */
  function Waited(t: Task, now: int): Status {
    if Due(Some(now), t.attentionAfter) && !Terminal(t.status) then AttentionRequired else t.status
  }

  function FileEvidence(o: Completion.Observation): Evidence {
    if o.completed then StableFilesCompleted(o.changedCount, o.changedSize)
    else if o.changedCount > 0 && o.changedSize > 0 then FileChangesObserved(o.changedCount, o.changedSize)
    else NoReliableProgress(o.changedCount, o.changedSize)
  }

  function FileTarget(t: Task, o: Completion.Observation, now: int): Status {
    if o.completed then Completed
    else if o.changedCount > 0 && o.changedSize > 0 then Downloading
    else Waited(t, now)
  }

  /** Whether an uneventful observation repeats the newest event. */
  predicate Repeats(t: Task, log: seq<Event>, target: Status, o: Completion.Observation) {
    && FileEvidence(o).NoReliableProgress?
    && |log| > 0
    && log[|log| - 1].status == target
    && log[|log| - 1].source == System
    && log[|log| - 1].evidence == FileEvidence(o)
    && t.completion == Some(o.state)
  }

  function FileUpdate(target: Status, o: Completion.Observation, now: int): Update {
    Plain(target, FileEvidence(o), now).(completion := Some(o.state), owned := Some(o.state.owned != []))
  }

  /** The decision after a directory listing. With `deduplicate` off, every observation is recorded. */
  function FilePlan(t: Task, log: seq<Event>, deduplicate: bool, snapshot: Completion.Snapshot, now: int): Plan
    requires t.completion.Some?
  {
    var observed := Completion.Observe(t.completion.value, snapshot);
    if observed.Err? then Raise(OutsideDestination)
    else
      var o := observed.value;
      var r := Transition(t.status, Some(FileTarget(t, o, now)), true, None, None);
      if r.Err? then Raise(IllegalTransition)
      else if deduplicate && Repeats(t, log, r.value, o) then Skip(r.value)
      else Write(FileUpdate(r.value, o, now))
  }

  predicate Observable(t: Task) {
    t.completion.Some? && t.destination.Some? && t.destination.value != ""
  }

  function PollPlan(t: Task, log: seq<Event>, deduplicate: bool, signal: SignalReply, listing: ListingReply,
                    now: int): Plan {
    match signal
    case SignalFailed(code) => Write(Plain(Waited(t, now), PollFailed, now).(errorCode := Some(code)))
    case Signal(SignalFinished) => Moved(t, Completed, TaskApiFinished, now, Some(true))
    case Signal(SignalError) => Moved(t, Failed, ExternalTaskFailed, now, None)
    case Signal(SignalDownloading) => Moved(t, Downloading, TaskApiDownloading, now, Some(true))
    case Signal(SignalInit) =>
      Moved(t, if t.status == Submitting then Submitted else t.status, TaskApiInit, now, Some(true))
    case Signal(SignalUnknown) =>
      if !Observable(t) then Moved(t, Waited(t, now), BaselineUnavailable, now, None)
      else
        match listing
        case ListingFailed(code) => Write(Plain(Waited(t, now), SnapshotFailed, now).(errorCode := Some(code)))
        case Listing(snapshot) => FilePlan(t, log, deduplicate, snapshot, now)
  }

  function Carry(db: Db, id: TaskId, plan: Plan): Outcome<Result<Status, PollError>>
    requires |db.logs| == |db.tasks|
  {
    match plan
    case Raise(error) => Outcome(db, Err(error))
    case Skip(status) => Outcome(db, Ok(status))
    case Write(update) =>
      var after := AppendEvent(db, id, update);
      if after.Err? then Outcome(db, Err(StoreRefused(after.error))) else Outcome(after.value, Ok(update.status))
  }

  /** `poll`. */
  function Poll(db: Db, id: TaskId, deduplicate: bool, signal: SignalReply, listing: ListingReply,
                now: int): Outcome<Result<Status, PollError>>
    requires |db.logs| == |db.tasks|
  {
    if id >= |db.tasks| then Outcome(db, Err(UnknownTask))
    else if Terminal(db.tasks[id].status) then Outcome(db, Ok(db.tasks[id].status))
    else Carry(db, id, PollPlan(db.tasks[id], db.logs[id], deduplicate, signal, listing, now))
  }

  // ---- Completing by hand ----

  datatype ManualError = ConfirmationRequired | NoTask | CannotComplete | RefusedByStore

  /** `manual_complete`. */
  function ManualComplete(db: Db, id: TaskId, confirmed: bool, now: int): Outcome<Result<(), ManualError>>
    requires |db.logs| == |db.tasks|
  {
    if !confirmed then Outcome(db, Err(ConfirmationRequired))
    else if id >= |db.tasks| then Outcome(db, Err(NoTask))
    else
      var r := Transition(db.tasks[id].status, Some(Completed), true, None, None);
      if r.Err? then Outcome(db, Err(CannotComplete))
      else
        var after := AppendEvent(db, id, Plain(r.value, ManualConfirmation, now).(source := Manual));
        if after.Err? then Outcome(db, Err(RefusedByStore)) else Outcome(after.value, Ok(()))
  }

  // ---- What single operations guarantee ----

  /** What every decision about an active task satisfies. */
  ghost predicate PlanOk(t: Task, plan: Plan, now: int) {
    && plan != Raise(IllegalTransition)
    && (plan.Write? ==>
          && Follows(t.status, plan.update.status)
          && plan.update.source == System
          && (plan.update.status == AttentionRequired
              ==> t.status == AttentionRequired || Due(Some(now), t.attentionAfter)))
  }

  lemma WaitedFollows(t: Task, now: int)
    requires Active(t.status)
    ensures Follows(t.status, Waited(t, now))
    ensures Waited(t, now) == AttentionRequired ==> t.status == AttentionRequired || Due(Some(now), t.attentionAfter)
  {
  }

  lemma MovedOk(t: Task, target: Status, evidence: Evidence, now: int, owned: Option<bool>)
    requires Active(t.status) && Follows(t.status, target)
    requires target == AttentionRequired ==> t.status == AttentionRequired || Due(Some(now), t.attentionAfter)
    ensures Moved(t, target, evidence, now, owned) == Write(Plain(target, evidence, now).(owned := owned))
    ensures PlanOk(t, Moved(t, target, evidence, now, owned), now)
  {
  }

  lemma FilePlanOk(t: Task, log: seq<Event>, deduplicate: bool, snapshot: Completion.Snapshot, now: int)
    requires Active(t.status) && t.completion.Some?
    ensures PlanOk(t, FilePlan(t, log, deduplicate, snapshot, now), now)
    ensures var observed := Completion.Observe(t.completion.value, snapshot);
            var plan := FilePlan(t, log, deduplicate, snapshot, now);
            && (plan == Raise(OutsideDestination) <==> observed.Err?)
            && (plan.Raise? ==> observed.Err?)
            && (plan.Write? ==> plan.update == FileUpdate(FileTarget(t, observed.value, now), observed.value, now))
            && (plan.Skip? ==> deduplicate && plan.status == FileTarget(t, observed.value, now)
                               && Repeats(t, log, plan.status, observed.value))
  {
    WaitedFollows(t, now);
    var observed := Completion.Observe(t.completion.value, snapshot);
    if observed.Ok? {
      TransitionFollows(t.status, Some(FileTarget(t, observed.value, now)), true, None, None);
    }
  }

  /** A poll on an active task never meets an illegal transition, and its update follows the table. */
  lemma PlanFollows(t: Task, log: seq<Event>, deduplicate: bool, signal: SignalReply, listing: ListingReply, now: int)
    requires Active(t.status)
    ensures PlanOk(t, PollPlan(t, log, deduplicate, signal, listing, now), now)
  {
    WaitedFollows(t, now);
    match signal {
      case SignalFailed(code) =>
      case Signal(SignalFinished) => MovedOk(t, Completed, TaskApiFinished, now, Some(true));
      case Signal(SignalError) => MovedOk(t, Failed, ExternalTaskFailed, now, None);
      case Signal(SignalDownloading) => MovedOk(t, Downloading, TaskApiDownloading, now, Some(true));
      case Signal(SignalInit) =>
        MovedOk(t, if t.status == Submitting then Submitted else t.status, TaskApiInit, now, Some(true));
      case Signal(SignalUnknown) =>
        if !Observable(t) {
          MovedOk(t, Waited(t, now), BaselineUnavailable, now, None);
        } else if listing.Listing? {
          FilePlanOk(t, log, deduplicate, listing.snapshot, now);
        }
    }
  }

  lemma SubmitEventFollows(config: Config, destination: string, reply: SubmitReply, now: int)
    ensures var event := SubmitEvent(config, destination, reply, now);
            event.Ok? ==>
              Follows(Submitting, event.value.status) && event.value.owned == None && event.value.source == System
  {
  }

  lemma PollKeepsValid(db: Db, id: TaskId, deduplicate: bool, signal: SignalReply, listing: ListingReply, now: int)
    requires Valid(db)
    ensures Valid(Poll(db, id, deduplicate, signal, listing, now).db)
    ensures Poll(db, id, deduplicate, signal, listing, now).result != Err(IllegalTransition)
  {
    if id < |db.tasks| && Active(db.tasks[id].status) {
      var plan := PollPlan(db.tasks[id], db.logs[id], deduplicate, signal, listing, now);
      PlanFollows(db.tasks[id], db.logs[id], deduplicate, signal, listing, now);
      if plan.Write? {
        AppendKeepsValid(db, id, plan.update);
      }
    }
  }

  /** A poll that learned nothing reliable about the download. */
  predicate Uneventful(t: Task, signal: SignalReply, listing: ListingReply) {
    || signal.SignalFailed?
    || (signal == Signal(SignalUnknown)
        && (!Observable(t) || listing.ListingFailed?
            || (Completion.Observe(t.completion.value, listing.snapshot).Ok?
                && FileEvidence(Completion.Observe(t.completion.value, listing.snapshot).value).NoReliableProgress?)))
  }

  /**
   * A poll that is recorded moves a task to attention exactly when it learned nothing and the deadline has
   * passed.
   */
  lemma AttentionWhenRecorded(db: Db, id: TaskId, deduplicate: bool, signal: SignalReply, listing: ListingReply,
                              now: int)
    requires Valid(db) && id < |db.tasks| && Active(db.tasks[id].status) && db.tasks[id].status != AttentionRequired
    requires Poll(db, id, deduplicate, signal, listing, now).result.Ok?
    ensures |Poll(db, id, deduplicate, signal, listing, now).db.tasks| == |db.tasks|
    ensures Poll(db, id, deduplicate, signal, listing, now).db.tasks[id].status == AttentionRequired
            <==> Due(Some(now), db.tasks[id].attentionAfter) && Uneventful(db.tasks[id], signal, listing)
  {
    hide DestinationTaken, MaxSequence, PollPlan, Uneventful;
    var t, log := db.tasks[id], db.logs[id];
    assert LogOk(t, log);
    AttentionPlan(t, log, deduplicate, signal, listing, now);
  }

  /** The decision behind it. */
  lemma AttentionPlan(t: Task, log: seq<Event>, deduplicate: bool, signal: SignalReply, listing: ListingReply, now: int)
    requires Active(t.status) && t.status != AttentionRequired && LogOk(t, log)
    ensures var plan := PollPlan(t, log, deduplicate, signal, listing, now);
            var needed := Due(Some(now), t.attentionAfter) && Uneventful(t, signal, listing);
            && (plan.Write? ==> (plan.update.status == AttentionRequired <==> needed))
            && (plan.Skip? ==> !needed)
  {
    hide Completion.Observe, FilePlan;
    WaitedFollows(t, now);
    match signal {
      case SignalFailed(code) =>
      case Signal(SignalFinished) => MovedOk(t, Completed, TaskApiFinished, now, Some(true));
      case Signal(SignalError) => MovedOk(t, Failed, ExternalTaskFailed, now, None);
      case Signal(SignalDownloading) => MovedOk(t, Downloading, TaskApiDownloading, now, Some(true));
      case Signal(SignalInit) =>
        MovedOk(t, if t.status == Submitting then Submitted else t.status, TaskApiInit, now, Some(true));
      case Signal(SignalUnknown) =>
        if !Observable(t) {
          MovedOk(t, Waited(t, now), BaselineUnavailable, now, None);
        } else if listing.Listing? {
          FilePlanOk(t, log, deduplicate, listing.snapshot, now);
        }
    }
  }

  lemma ManualKeepsValid(db: Db, id: TaskId, confirmed: bool, now: int)
    requires Valid(db)
    ensures Valid(ManualComplete(db, id, confirmed, now).db)
  {
    if confirmed && id < |db.tasks| {
      var r := Transition(db.tasks[id].status, Some(Completed), true, None, None);
      TransitionFollows(db.tasks[id].status, Some(Completed), true, None, None);
      if r.Ok? {
        AppendKeepsValid(db, id, Plain(r.value, ManualConfirmation, now).(source := Manual));
      }
    }
  }

  /**
   * Manual completion needs a confirmation and a task that has not failed; it is then always recorded, also of
   * a task that was completed before.
   */
  lemma ManualOutcome(db: Db, id: TaskId, confirmed: bool, now: int)
    requires Valid(db)
    ensures |db.logs| == |db.tasks|
    ensures var o := ManualComplete(db, id, confirmed, now);
            if !confirmed then o == Outcome(db, Err(ConfirmationRequired))
            else if id >= |db.tasks| then o == Outcome(db, Err(NoTask))
            else if db.tasks[id].status == Failed then o == Outcome(db, Err(CannotComplete))
            else
              var t := db.tasks[id].(status := Completed, manualCompleted := true, errorCode := None);
              var e := Event(|db.logs[id]| + 1, Completed, Manual, ManualConfirmation, now);
              o == Outcome(Db(db.candidates, db.tasks[id := t], db.logs[id := db.logs[id] + [e]]), Ok(()))
  {
    hide MaxSequence;
    if id < |db.tasks| {
      assert LogOk(db.tasks[id], db.logs[id]);
      MaxSequenceCounts(db.logs[id]);
    }
  }

  /** The event of a submission is never refused: the claim already reserved the directory. */
  lemma SettleNeverRefused(claimed: Db, id: TaskId, event: Result<Update, SubmitError>)
    requires Valid(claimed) && id < |claimed.tasks| && Waiting(claimed.tasks[id])
    requires event.Ok? ==> event.value.owned == None
    ensures event.Ok? ==> Settle(claimed, id, event).result == Ok(id)
  {
    if event.Ok? {
      var t := Apply(claimed.tasks[id], event.value);
      NoOtherWaits(claimed.tasks, id);
      assert forall j :: 0 <= j < |claimed.tasks| && SameDestination(claimed.tasks[j], t)
                         ==> SameDestination(claimed.tasks[j], claimed.tasks[id]);
    }
  }

  lemma SubmitKeepsValid(db: Db, config: Config, args: SubmitArgs, reply: SubmitReply, now: int)
    requires Valid(db) && ClaimOk(db, ClaimOf(config, args, now))
    ensures Valid(Submit(db, config, args, reply, now).db)
    ensures !Submit(db, config, args, reply, now).result.Err?
            || !Submit(db, config, args, reply, now).result.error.EventRefused?
  {
    hide Magnet.ParseMagnet, FirstClaim, DestinationTaken, DestinationOf;
    var c := ClaimOf(config, args, now);
    var claimed := ClaimDownload(db, c, now);
    ClaimKeepsValid(db, c, now);
    if claimed.Ok? {
      var id := |db.tasks|;
      var event := SubmitEvent(config, args.destination, reply, now);
      SubmitEventFollows(config, args.destination, reply, now);
      assert claimed.value.tasks[id] == NewTask(c);
      SettleNeverRefused(claimed.value, id, event);
      if event.Ok? {
        AppendKeepsValid(claimed.value, id, event.value);
      }
    }
  }

  /** What a submission leaves behind for each reply: always a row, and its progress. */
  ghost predicate Submission(t: Task, args: SubmitArgs, config: Config, reply: SubmitReply, now: int) {
    var usable := config.requiredObservations >= 2 && "/" <= args.destination;
    && t.client == "clouddrive2" && t.content == args.content && t.candidate == args.candidate
    && t.generation == args.generation && t.supersedes == args.supersedes && t.destination == Some(args.destination)
    && t.attentionAfter == Some(now + config.attentionAfterSeconds)
    && (t.status == Submitted <==> reply.SubmitAccepted? && usable)
    && (t.status == AttentionRequired <==> reply.AlreadyExists?)
    && (t.status == Failed <==> reply.Rejected? || reply.ClientFailed?)
    && (t.status != Submitted && t.status != AttentionRequired && t.status != Failed ==> t.status == Submitting)
    && t.errorCode == (match reply
                       case AlreadyExists(code) => Some(code)
                       case Rejected(code) => Some(code)
                       case ClientFailed(code) => Some(code)
                       case ResultUnknown(code, known) => if known.None? || usable then Some(code) else None
                       case _ => None)
    && t.externalReference == (if reply.SubmitAccepted? && usable then Some(reply.btih) else None)
    && t.baseline == (if usable then BaselineIn(reply) else None)
    && t.completion == (if usable && BaselineIn(reply).Some?
                        then Some(Completion.CompletionState(BaselineIn(reply).value, args.destination,
                                                             config.requiredObservations, [], [], 0))
                        else None)
    && !t.owned && !t.manualCompleted
  }

  /** What is logged for a reply that could be handled. */
  function ReplyEvidence(reply: SubmitReply): Evidence {
    match reply
    case SubmitAccepted(_, _) => Accepted
    case ResultUnknown(_, _) => SubmissionResultUnknown
    case AlreadyExists(_) => ExternalTaskAlreadyExists
    case Rejected(_) => ExplicitRejection
    case ClientFailed(_) => ClientError
    case Crashed => ClaimCreated
  }

  /** The listing the client took before it submitted, where the reply carries one. */
  function BaselineIn(reply: SubmitReply): Option<Completion.Snapshot> {
    match reply
    case SubmitAccepted(_, baseline) => Some(baseline)
    case ResultUnknown(_, known) => known
    case _ => None
  }

  /** The link names the candidate's hash, and the claim succeeds. */
  ghost predicate Submittable(db: Db, config: Config, args: SubmitArgs, now: int) {
    && ClaimOk(db, ClaimOf(config, args, now))
    && Magnet.ParseMagnet(args.magnetUri).Ok?
    && Magnet.ParseMagnet(args.magnetUri).value.btih == db.candidates[args.candidate]
    && ClaimDownload(db, ClaimOf(config, args, now), now).Ok?
  }

  /**
   * Whatever the client answers, a submission whose claim succeeds leaves exactly one row, with the progress the
   * reply calls for, and a log of its claim and of the reply, unless that could not be handled.
   */
  lemma SubmitOutcome(db: Db, config: Config, args: SubmitArgs, reply: SubmitReply, now: int)
    requires Valid(db)
    ensures |db.logs| == |db.tasks|
    ensures var o := Submit(db, config, args, reply, now);
            var unusable := config.requiredObservations < 2 || !("/" <= args.destination);
            Submittable(db, config, args, now) ==>
              && |o.db.tasks| == |o.db.logs| == |db.tasks| + 1
              && db.tasks <= o.db.tasks && db.logs <= o.db.logs && o.db.candidates == db.candidates
              && Submission(o.db.tasks[|db.tasks|], args, config, reply, now)
              && o.result == (if reply.Crashed? then Err(ClientCrashed)
                              else if BaselineIn(reply).Some? && unusable then Err(InvalidCompletionState)
                              else Ok(|db.tasks|))
              && var claimed := Event(1, Submitting, System, ClaimCreated, now);
                 o.db.logs[|db.tasks|] == if o.result.Err? then [claimed]
                                          else [claimed, Event(2, o.db.tasks[|db.tasks|].status, System,
                                                               ReplyEvidence(reply), now)]
  {
    hide Magnet.ParseMagnet, FirstClaim, DestinationTaken, DestinationOf, SubmitEvent;
    var c := ClaimOf(config, args, now);
    var claimed := ClaimDownload(db, c, now);
    if Submittable(db, config, args, now) {
      ClaimKeepsValid(db, c, now);
      SubmitEventFollows(config, args.destination, reply, now);
      assert claimed.value.tasks[|db.tasks|] == NewTask(c);
      var event := SubmitEvent(config, args.destination, reply, now);
      SettleNeverRefused(claimed.value, |db.tasks|, event);
      FirstEvent(claimed.value.logs[|db.tasks|], Event(1, Submitting, System, ClaimCreated, now));
      SettledRow(config, args, reply, now);
    }
  }

  lemma FirstEvent(log: seq<Event>, e: Event)
    requires log == [e]
    ensures MaxSequence(log) == e.sequence
  {
    assert log[..0] == [];
  }

  /** What handling the reply makes of the claimed row. */
  lemma SettledRow(config: Config, args: SubmitArgs, reply: SubmitReply, now: int)
    ensures var event := SubmitEvent(config, args.destination, reply, now);
            var unusable := config.requiredObservations < 2 || !("/" <= args.destination);
            var row := NewTask(ClaimOf(config, args, now));
            && (event.Err? ==> Submission(row, args, config, reply, now))
            && (event.Ok? ==>
                  && Submission(Apply(row, event.value), args, config, reply, now)
                  && event.value.source == System && event.value.evidence == ReplyEvidence(reply)
                  && event.value.occurredAt == now)
            && event.Ok? == !(reply.Crashed? || (BaselineIn(reply).Some? && unusable))
            && (event.Err? ==> event.error == if reply.Crashed? then ClientCrashed else InvalidCompletionState)
  {
  }

  /** Exactly when, and in which order of precedence, a submission is refused before it reaches the client. */
  lemma SubmitRefusals(db: Db, config: Config, args: SubmitArgs, reply: SubmitReply, now: int)
    requires Valid(db)
    ensures |db.logs| == |db.tasks|
    ensures var r := Submit(db, config, args, reply, now).result;
            var parsed, c := Magnet.ParseMagnet(args.magnetUri), ClaimOf(config, args, now);
            && (r == Err(BadMagnet) <==> parsed.Err?)
            && (r == Err(NoSuchCandidate) <==> parsed.Ok? && args.candidate >= |db.candidates|)
            && (r == Err(BtihMismatch) <==> parsed.Ok? && args.candidate < |db.candidates|
                                            && db.candidates[args.candidate] != parsed.value.btih)
            && (parsed.Ok? && ClaimOk(db, c) && db.candidates[args.candidate] == parsed.value.btih ==>
                  && (r == Err(ClaimRefused(IdempotencyConflict)) <==> Rivalled(db, c))
                  && (r == Err(ClaimRefused(DestinationBusy)) <==> !Rivalled(db, c) && Awaited(db, c))
                  && (Submittable(db, config, args, now) <==> !Rivalled(db, c) && !Awaited(db, c)))
    ensures Submit(db, config, args, reply, now).result.Err?
            && Submit(db, config, args, reply, now).result.error.ClaimRefused?
            ==> Submit(db, config, args, reply, now).db == db
  {
    hide Magnet.ParseMagnet, FirstClaim, DestinationTaken, DestinationOf, Rivalled, Awaited, SubmitEvent;
    var c := ClaimOf(config, args, now);
    SettledRow(config, args, reply, now);
    if ClaimOk(db, c) {
      ClaimOutcome(db, c, now);
    }
  }

  /** A listing in which the task owns nothing, so that recording it hands the directory back. */
  ghost predicate ReleasesDirectory(t: Task, signal: SignalReply, listing: ListingReply) {
    && signal == Signal(SignalUnknown) && Observable(t) && listing.Listing? && t.owned
    && var observed := Completion.Observe(t.completion.value, listing.snapshot);
       observed.Ok? && observed.value.state.owned == [] && !observed.value.completed
  }

  ghost predicate DirectoryHeldByAnother(db: Db, id: TaskId)
    requires id < |db.tasks|
  {
    exists j :: 0 <= j < |db.tasks| && j != id && Waiting(db.tasks[j]) && SameDestination(db.tasks[j], db.tasks[id])
  }

  /** Outside a releasing listing, no poll turns a held directory into a waited-for one. */
  lemma PlanKeepsHold(t: Task, log: seq<Event>, deduplicate: bool, signal: SignalReply, listing: ListingReply, now: int)
    requires Active(t.status)
    ensures var plan := PollPlan(t, log, deduplicate, signal, listing, now);
            plan.Write? && t.owned && plan.update.owned == Some(false) && Active(plan.update.status)
            ==> ReleasesDirectory(t, signal, listing)
    ensures ReleasesDirectory(t, signal, listing) ==>
              var plan := PollPlan(t, log, deduplicate, signal, listing, now);
              plan.Skip? || (plan.Write? && plan.update.owned == Some(false) && Active(plan.update.status))
  {
    hide FilePlan, Completion.Observe;
    WaitedFollows(t, now);
    if signal == Signal(SignalUnknown) && Observable(t) && listing.Listing? {
      FilePlanOk(t, log, deduplicate, listing.snapshot, now);
    }
  }

  lemma RefusedWriteIff(db: Db, id: TaskId, u: Update)
    requires Valid(db) && id < |db.tasks| && Active(db.tasks[id].status)
    ensures AppendEvent(db, id, u).Err? <==>
              && db.tasks[id].owned && u.owned == Some(false) && Active(u.status)
              && DirectoryHeldByAnother(db, id)
  {
    var t := db.tasks[id];
    var after := Apply(t, u);
    assert OwnDirectory(db.candidates, t);
    if Waiting(t) {
      NoOtherWaits(db.tasks, id);
    }
    if DirectoryHeldByAnother(db, id) {
      var j :| 0 <= j < |db.tasks| && j != id && Waiting(db.tasks[j]) && SameDestination(db.tasks[j], t);
      assert SameDestination(db.tasks[j], after);
    }
    if DestinationTaken(db.tasks, after, id) {
      var j :| 0 <= j < |db.tasks| && j != id && Waiting(db.tasks[j]) && SameDestination(db.tasks[j], after);
      assert SameDestination(db.tasks[j], t);
    }
  }

  /**
   * Polling can be refused by the database. With every observation recorded, this is exactly when:
   * the task held its directory through an earlier signal, the new listing shows nothing it owns, and
   * another waiting task has meanwhile taken the same directory.
   */
  lemma PollRefusedIff(db: Db, id: TaskId, signal: SignalReply, listing: ListingReply, now: int)
    requires Valid(db) && id < |db.tasks| && Active(db.tasks[id].status)
    ensures Poll(db, id, false, signal, listing, now).result == Err(StoreRefused(IntegrityViolation))
            <==> ReleasesDirectory(db.tasks[id], signal, listing) && DirectoryHeldByAnother(db, id)
  {
    var t := db.tasks[id];
    var plan := PollPlan(t, db.logs[id], false, signal, listing, now);
    PlanKeepsHold(t, db.logs[id], false, signal, listing, now);
    NoSkipWhenRecording(t, db.logs[id], signal, listing, now);
    if plan.Write? {
      RefusedWriteIff(db, id, plan.update);
    }
  }

  lemma NoSkipWhenRecording(t: Task, log: seq<Event>, signal: SignalReply, listing: ListingReply, now: int)
    ensures !PollPlan(t, log, false, signal, listing, now).Skip?
  {
  }

  // ---- The service object ----

  class DownloadService {
    const repository: Repository
    const config: Config

    constructor (repository: Repository, config: Config)
      ensures this.repository == repository && this.config == config
    {
      this.repository := repository;
      this.config := config;
    }

    method SubmitCandidate(args: SubmitArgs, reply: SubmitReply, now: int) returns (r: Result<TaskId, SubmitError>)
      requires |repository.logs| == |repository.tasks|
      modifies repository
      ensures Outcome(repository.State(), r) == Submit(old(repository.State()), config, args, reply, now)
    {
      hide Magnet.ParseMagnet, AppendEvent, FirstClaim, DestinationTaken, Completion.Constructible;
      var parsed := Magnet.ParseMagnet(args.magnetUri);
      if parsed.Err? {
        return Err(BadMagnet);
      }
      if args.candidate >= |repository.candidates| {
        return Err(NoSuchCandidate);
      }
      if repository.candidates[args.candidate] != parsed.value.btih {
        return Err(BtihMismatch);
      }
      var claimed := repository.ClaimTask(ClaimOf(config, args, now), now);
      if claimed.Err? {
        return Err(ClaimRefused(claimed.error));
      }
      var update;
      match reply {
        case ResultUnknown(code, known) =>
          update := Plain(Submitting, SubmissionResultUnknown, now).(errorCode := Some(code));
          if known.Some? {
            if !Completion.Constructible(args.destination, config.requiredObservations) {
              return Err(InvalidCompletionState);
            }
            update := update.(
              baseline := known,
              completion := Some(Completion.Fresh(known.value, args.destination, config.requiredObservations)));
          }
        case AlreadyExists(code) =>
          update := Plain(AttentionRequired, ExternalTaskAlreadyExists, now).(errorCode := Some(code));
        case Rejected(code) =>
          update := Plain(Failed, ExplicitRejection, now).(errorCode := Some(code));
        case ClientFailed(code) =>
          update := Plain(Failed, ClientError, now).(errorCode := Some(code));
        case SubmitAccepted(btih, baseline) =>
          if !Completion.Constructible(args.destination, config.requiredObservations) {
            return Err(InvalidCompletionState);
          }
          update := Plain(Submitted, Accepted, now).(
            externalReference := Some(btih),
            baseline := Some(baseline),
            completion := Some(Completion.Fresh(baseline, args.destination, config.requiredObservations)));
        case Crashed =>
          return Err(ClientCrashed);
      }
      var appended := repository.Append(claimed.value, update);
      if appended.Err? {
        return Err(EventRefused(appended.error));
      }
      r := Ok(claimed.value);
    }

    /** Appends the event of a poll. */
    method Record(id: TaskId, update: Update) returns (r: Result<Status, PollError>)
      requires |repository.logs| == |repository.tasks|
      modifies repository
      ensures Outcome(repository.State(), r) == Carry(old(repository.State()), id, Write(update))
    {
      hide AppendEvent;
      var appended := repository.Append(id, update);
      if appended.Err? {
        return Err(StoreRefused(appended.error));
      }
      r := Ok(update.status);
    }

    /** `_transition`. */
    method MoveTo(id: TaskId, target: Status, evidence: Evidence, now: int, owned: Option<bool>)
      returns (r: Result<Status, PollError>)
      requires |repository.logs| == |repository.tasks| && id < |repository.tasks|
      modifies repository
      ensures Outcome(repository.State(), r)
              == Carry(old(repository.State()), id, Moved(old(repository.tasks)[id], target, evidence, now, owned))
    {
      hide AppendEvent;
      var task := repository.tasks[id];
      var next := Transition(task.status, Some(target), true, Some(now), task.attentionAfter);
      if next.Err? {
        return Err(IllegalTransition);
      }
      r := Record(id, Plain(next.value, evidence, now).(owned := owned));
    }

    /** The end of `poll`: what a listing of the task's directory says. */
    method ObserveFiles(id: TaskId, snapshot: Completion.Snapshot, now: int) returns (r: Result<Status, PollError>)
      requires |repository.logs| == |repository.tasks| && id < |repository.tasks|
      requires repository.tasks[id].completion.Some?
      modifies repository
      ensures Outcome(repository.State(), r)
              == Carry(old(repository.State()), id,
                       FilePlan(old(repository.tasks)[id], old(repository.logs)[id], true, snapshot, now))
    {
      hide AppendEvent, Completion.Observe;
      var task, log := repository.tasks[id], repository.logs[id];
      var observed := Completion.Observe(task.completion.value, snapshot);
      if observed.Err? {
        return Err(OutsideDestination);
      }
      var o := observed.value;
      var target, evidence;
      if o.completed {
        target, evidence := Completed, StableFilesCompleted(o.changedCount, o.changedSize);
      } else if o.changedCount > 0 && o.changedSize > 0 {
        target, evidence := Downloading, FileChangesObserved(o.changedCount, o.changedSize);
      } else {
        target := Transition(task.status, None, true, Some(now), task.attentionAfter).value;
        evidence := NoReliableProgress(o.changedCount, o.changedSize);
      }
      var next := Transition(task.status, Some(target), true, None, None);
      if next.Err? {
        return Err(IllegalTransition);
      }
      if evidence.NoReliableProgress? && log != [] {
        var latest := log[|log| - 1];
        if latest.status == next.value && latest.source == System && latest.evidence == evidence
           && Some(o.state) == task.completion {
          return Ok(next.value);
        }
      }
      r := Record(id,
                  Plain(next.value, evidence, now).(completion := Some(o.state), owned := Some(o.state.owned != [])));
    }

    method PollTask(id: TaskId, signal: SignalReply, listing: ListingReply, now: int)
      returns (r: Result<Status, PollError>)
      requires |repository.logs| == |repository.tasks|
      modifies repository
      ensures Outcome(repository.State(), r) == Poll(old(repository.State()), id, true, signal, listing, now)
    {
      hide AppendEvent, FilePlan, Moved;
      if id >= |repository.tasks| {
        return Err(UnknownTask);
      }
      var task := repository.tasks[id];
      if Terminal(task.status) {
        return Ok(task.status);
      }
      if signal.SignalFailed? {
        var target := Transition(task.status, None, false, Some(now), task.attentionAfter).value;
        r := Record(id, Plain(target, PollFailed, now).(errorCode := Some(signal.code)));
        return;
      }
      if signal.signal == SignalFinished {
        r := MoveTo(id, Completed, TaskApiFinished, now, Some(true));
        return;
      }
      if signal.signal == SignalError {
        r := MoveTo(id, Failed, ExternalTaskFailed, now, None);
        return;
      }
      if signal.signal == SignalDownloading {
        r := MoveTo(id, Downloading, TaskApiDownloading, now, Some(true));
        return;
      }
      if signal.signal == SignalInit {
        var target := if task.status == Submitting then Submitted else task.status;
        r := MoveTo(id, target, TaskApiInit, now, Some(true));
        return;
      }
      if !Observable(task) {
        var target := Transition(task.status, None, true, Some(now), task.attentionAfter).value;
        r := MoveTo(id, target, BaselineUnavailable, now, None);
        return;
      }
      if listing.ListingFailed? {
        var target := Transition(task.status, None, false, Some(now), task.attentionAfter).value;
        r := Record(id, Plain(target, SnapshotFailed, now).(errorCode := Some(listing.code)));
        return;
      }
      r := ObserveFiles(id, listing.snapshot, now);
    }

    method CompleteManually(id: TaskId, confirmed: bool, now: int) returns (r: Result<(), ManualError>)
      requires |repository.logs| == |repository.tasks|
      modifies repository
      ensures Outcome(repository.State(), r) == ManualComplete(old(repository.State()), id, confirmed, now)
    {
      if !confirmed {
        return Err(ConfirmationRequired);
      }
      if id >= |repository.tasks| {
        return Err(NoTask);
      }
      var target := Transition(repository.tasks[id].status, Some(Completed), true, None, None);
      if target.Err? {
        return Err(CannotComplete);
      }
      var appended := repository.Append(id, Plain(target.value, ManualConfirmation, now).(source := Manual));
      if appended.Err? {
        return Err(RefusedByStore);
      }
      r := Ok(());
    }
  }
}
