/**
 * What a poll does to its task, case by case (downloads/service.py, `poll`): its new status, what is recorded of
 * it, and when it raises. Everything is said in terms of the client's answer, the deadline and the files that the
 * listings have shown since the submission.
 */
module Polling {
  import opened Wrappers
  import opened DownloadState
  import opened Store
  import opened Lifecycle
  import opened Submission
  import opened History
  import Completion
  import Contention

  // ---- What the listings show ----

  /** The poll gets a listing to judge. */
  predicate Looks(t: Task, signal: SignalReply, listing: ListingReply) {
    signal == Signal(SignalUnknown) && t.completion.Some? && listing.Listing?
  }

  /** All listings of a task since its submission, the new one last. */
  ghost function Listings(s: System, id: TaskId, listing: ListingReply): seq<Completion.Snapshot>
    requires id < |s.seen| && listing.Listing?
  {
    Files(s.seen[id]) + [listing.snapshot]
  }

  /** The changes of the new listing that the task owns. */
  ghost function OwnedNow(s: System, id: TaskId, listing: ListingReply): seq<Completion.FileFact>
    requires id < |s.seen| && id < |s.db.tasks| && s.db.tasks[id].completion.Some? && listing.Listing?
  {
    var c, files := s.db.tasks[id].completion.value, Listings(s, id, listing);
    Completion.OwnedChanges(c.baseline, Completion.FrozenOwners(c.baseline, c.destination, files), listing.snapshot)
  }

  /** The same owned changes, some with content, in as many listings as are required. */
  ghost predicate Settled(s: System, id: TaskId, listing: ListingReply)
    requires id < |s.seen| && id < |s.db.tasks| && s.db.tasks[id].completion.Some? && listing.Listing?
  {
    var c, files := s.db.tasks[id].completion.value, Listings(s, id, listing);
    Completion.StableFor(c.baseline, Completion.FrozenOwners(c.baseline, c.destination, files), files, c.required)
  }

  /** No listing has shown any difference from the baseline. */
  ghost predicate Untouched(s: System, id: TaskId, listing: ListingReply)
    requires id < |s.seen| && id < |s.db.tasks| && s.db.tasks[id].completion.Some? && listing.Listing?
  {
    var files := Listings(s, id, listing);
    Completion.UnchangedBefore(s.db.tasks[id].completion.value.baseline, files, |files|)
  }

  // ---- The cases ----

  /** The poll raises: nothing is owned yet, and the directory's own path is listed as a changed file. */
  ghost predicate Raises(t: Task, signal: SignalReply, listing: ListingReply) {
    && Looks(t, signal, listing)
    && var c, snapshot := t.completion.value, listing.snapshot;
       && c.owned == [] && Completion.SizeOf(snapshot, c.destination).Some?
       && Completion.SizeOf(snapshot, c.destination) != Completion.SizeOf(c.baseline, c.destination)
  }

  /** The poll is refused: it would hand back a directory that another unfinished task is waiting in. */
  ghost predicate HandsBack(s: System, id: TaskId, signal: SignalReply, listing: ListingReply)
    requires id < |s.seen| && id < |s.db.tasks|
  {
    var t := s.db.tasks[id];
    && Looks(t, signal, listing) && t.owned && Untouched(s, id, listing)
    && exists j :: 0 <= j < |s.db.tasks| && j != id && WaitsIn(s.db.tasks[j], t)
  }

  predicate WaitsIn(s: Task, t: Task) {
    && s.client == t.client && s.destination == t.destination && s.destination.Some?
    && !s.owned && s.status != Completed && s.status != Failed
  }

  /** The status of a task about which a poll learned nothing. */
  function Aged(t: Task, now: int): Status {
    if t.attentionAfter.Some? && now >= t.attentionAfter.value then AttentionRequired else t.status
  }

  ghost predicate StatusAfter(s: System, id: TaskId, signal: SignalReply, listing: ListingReply, now: int,
                              after: Status)
    requires id < |s.seen| && id < |s.db.tasks|
  {
    var t := s.db.tasks[id];
    match signal
    case Signal(SignalFinished) => after == Completed
    case Signal(SignalError) => after == Failed
    case Signal(SignalDownloading) => after == Downloading
    case Signal(SignalInit) => after == if t.status == Submitting then Submitted else t.status
    case SignalFailed(_) => after == Aged(t, now)
    case Signal(SignalUnknown) =>
      if t.completion.None? || listing.ListingFailed? then after == Aged(t, now)
      else if Settled(s, id, listing) then after == Completed
      else if exists f :: f in OwnedNow(s, id, listing) && f.size > 0 then after == Downloading
      else after == Aged(t, now)
  }

  /** The rest of the row: ownership, the error, the completion state, and what never changes. */
  ghost predicate ProgressAfter(s: System, id: TaskId, signal: SignalReply, listing: ListingReply, after: Task)
    requires id < |s.seen| && id < |s.db.tasks|
  {
    var t := s.db.tasks[id];
    && SameIdentity(t, after) && after.baseline == t.baseline && after.externalReference == t.externalReference
    && after.manualCompleted == t.manualCompleted
    && after.owned == (if signal.SignalFailed? || signal.signal == SignalError then t.owned
                       else if signal.signal != SignalUnknown then true
                       else if t.completion.None? || listing.ListingFailed? then t.owned
                       else !Untouched(s, id, listing))
    && after.errorCode == (match signal
                           case SignalFailed(code) => Some(code)
                           case Signal(SignalUnknown) =>
                             if t.completion.Some? && listing.ListingFailed? then Some(listing.code) else None
                           case _ => None)
    && (if Looks(t, signal, listing)
        then after.completion.Some?
             && Completion.Fold(Birth(t.completion.value), Listings(s, id, listing)) == after.completion
        else after.completion == t.completion)
  }

  /** What a poll logs. */
  ghost function Noted(s: System, id: TaskId, signal: SignalReply, listing: ListingReply): Evidence
    requires id < |s.seen| && id < |s.db.tasks|
  {
    match signal
    case Signal(SignalFinished) => TaskApiFinished
    case Signal(SignalError) => ExternalTaskFailed
    case Signal(SignalDownloading) => TaskApiDownloading
    case Signal(SignalInit) => TaskApiInit
    case SignalFailed(_) => PollFailed
    case Signal(SignalUnknown) =>
      if s.db.tasks[id].completion.None? then BaselineUnavailable
      else if listing.ListingFailed? then SnapshotFailed
      else
        var changes := OwnedNow(s, id, listing);
        var (count, size) := (|changes|, Completion.TotalSize(changes));
        if Settled(s, id, listing) then StableFilesCompleted(count, size)
        else if size > 0 then FileChangesObserved(count, size)
        else NoReliableProgress(count, size)
  }

  // ---- Why ----

  lemma RowFacts(s: System, id: TaskId)
    requires Consistent(s) && id < |s.db.tasks|
    ensures |s.db.logs| == |s.seen| == |s.db.tasks| && RowOk(s.db.tasks[id], s.db.logs[id], s.seen[id])
    ensures LogOk(s.db.tasks[id], s.db.logs[id]) && Valid(s.db)
    ensures s.db.tasks[id].completion.Some? ==> Observable(s.db.tasks[id])
  {
    SoundLogOk(s.db, id);
  }

  /** What an observation says, in terms of all listings so far. */
  lemma ObservationFacts(s: System, id: TaskId, listing: ListingReply)
    requires Consistent(s) && id < |s.db.tasks| && |s.seen| == |s.db.tasks|
    requires s.db.tasks[id].completion.Some? && listing.Listing? && HonestListing(s.db, id, listing)
    requires !Raises(s.db.tasks[id], Signal(SignalUnknown), listing)
    ensures var c, changes := s.db.tasks[id].completion.value, OwnedNow(s, id, listing);
            var observed := Completion.Observe(c, listing.snapshot);
            && observed.Ok?
            && observed.value.completed == Settled(s, id, listing)
            && observed.value.changedCount == |changes| && observed.value.changedSize == Completion.TotalSize(changes)
            && (observed.value.state.owned == [] <==> Untouched(s, id, listing))
            && Completion.Fold(Birth(c), Listings(s, id, listing)) == Some(observed.value.state)
  {
    hide Completion.Observe, Completion.Fold, Completion.ReportsCompletion, Completion.StableFor;
    hide Completion.FrozenOwners, Completion.Inside, Completion.SizeOf, Completion.OwnedChanges, Sound;
    RowFacts(s, id);
    DirectoryIsNormal(s.db, id);
    var t := s.db.tasks[id];
    var c, files := t.completion.value, Listings(s, id, listing);
    Completion.ObserveRaisesIff(c, listing.snapshot);
    FoldAppend(c, Files(s.seen[id]), listing.snapshot);
    FoldNeedsBelow(c, files);
    ObservationReports(t, s.seen[id], listing.snapshot);
    Completion.ObservationCounts(c.baseline, c.destination, c.required, files);
    assert files[..|files| - 1] == Files(s.seen[id]);
    if Untouched(s, id, listing) {
      UnchangedOwnsNothing(c.baseline, c.destination, files);
    }
    if Completion.FrozenOwners(c.baseline, c.destination, files) == [] {
      Completion.NoOwnersNoChanges(c.baseline, c.destination, files);
    }
  }

  /** Recording an update that does not hand back a held directory. */
  lemma Recorded(db: Db, id: TaskId, u: Update)
    requires Valid(db) && id < |db.tasks| && Active(db.tasks[id].status)
    requires !(db.tasks[id].owned && u.owned == Some(false) && Active(u.status) && DirectoryHeldByAnother(db, id))
    ensures |db.logs| == |db.tasks|
    ensures var e := Event(|db.logs[id]| + 1, u.status, u.source, u.evidence, u.occurredAt);
            Carry(db, id, Write(u))
            == Outcome(Db(db.candidates, db.tasks[id := Apply(db.tasks[id], u)], db.logs[id := db.logs[id] + [e]]),
                       Ok(u.status))
  {
    hide DirectoryHeldByAnother, DestinationTaken, MaxSequence;
    RefusedWriteIff(db, id, u);
    assert LogOk(db.tasks[id], db.logs[id]);
    MaxSequenceCounts(db.logs[id]);
  }

  /** What a poll leaves behind: one row with its new progress, one event, and its answer. */
  ghost predicate Leaves(s: System, id: TaskId, signal: SignalReply, listing: ListingReply, now: int,
                         o: Outcome<Result<Status, PollError>>)
    requires id < |s.seen| == |s.db.tasks| == |s.db.logs|
  {
    && |o.db.tasks| == |s.db.tasks| && |o.db.logs| == |s.db.logs| && o.db.candidates == s.db.candidates
    && (forall i :: 0 <= i < |s.db.tasks| && i != id ==>
                      o.db.tasks[i] == s.db.tasks[i] && o.db.logs[i] == s.db.logs[i])
    && var t, log := o.db.tasks[id], s.db.logs[id];
       && o.result == Ok(t.status)
       && StatusAfter(s, id, signal, listing, now, t.status)
       && ProgressAfter(s, id, signal, listing, t)
       && var event := Event(|log| + 1, t.status, System, Noted(s, id, signal, listing), now);
          o.db.logs[id] == if Repeated(s, id, signal, listing, event) then log else log + [event]
  }

  /** The newest event already says what this one would, without progress, and the completion state stands. */
  ghost predicate Repeated(s: System, id: TaskId, signal: SignalReply, listing: ListingReply, e: Event)
    requires id < |s.seen| == |s.db.tasks| == |s.db.logs|
  {
    var t, log := s.db.tasks[id], s.db.logs[id];
    && Looks(t, signal, listing) && e.evidence.NoReliableProgress?
    && |log| > 0 && log[|log| - 1].status == e.status && log[|log| - 1].source == System
    && log[|log| - 1].evidence == e.evidence
    && Completion.Fold(Birth(t.completion.value), Listings(s, id, listing)) == t.completion
  }

  /** An update that brings a row to where the poll should leave it. */
  ghost predicate Right(s: System, id: TaskId, signal: SignalReply, listing: ListingReply, now: int, u: Update)
    requires id < |s.seen| == |s.db.tasks|
  {
    && u.source == System && u.evidence == Noted(s, id, signal, listing) && u.occurredAt == now
    && StatusAfter(s, id, signal, listing, now, u.status)
    && ProgressAfter(s, id, signal, listing, Apply(s.db.tasks[id], u))
  }

  lemma RightIsRecorded(s: System, id: TaskId, signal: SignalReply, listing: ListingReply, now: int, u: Update)
    requires Consistent(s) && id < |s.db.tasks| == |s.seen| == |s.db.logs| && Active(s.db.tasks[id].status)
    requires Right(s, id, signal, listing, now, u)
    requires !(s.db.tasks[id].owned && u.owned == Some(false) && Active(u.status) && DirectoryHeldByAnother(s.db, id))
    requires !Repeated(s, id, signal, listing,
                       Event(|s.db.logs[id]| + 1, u.status, System, Noted(s, id, signal, listing), now))
    ensures Leaves(s, id, signal, listing, now, Carry(s.db, id, Write(u)))
  {
    hide Consistent, Valid, StatusAfter, ProgressAfter, Noted, DirectoryHeldByAnother, Carry, Repeated, LogOk;
    RowFacts(s, id);
    Recorded(s.db, id, u);
  }

  /** A poll that does not get to judge a listing. */
  lemma SignalPoll(s: System, id: TaskId, signal: SignalReply, listing: ListingReply, now: int)
    requires Consistent(s) && id < |s.db.tasks| && Active(s.db.tasks[id].status)
    requires !Looks(s.db.tasks[id], signal, listing)
    ensures |s.db.logs| == |s.seen| == |s.db.tasks|
    ensures Leaves(s, id, signal, listing, now, Poll(s.db, id, true, signal, listing, now))
  {
    hide PollPlan, Carry, Consistent, Valid, Right, Leaves, DirectoryHeldByAnother, LogOk, RowOk, Observable;
    RowFacts(s, id);
    var t, log := s.db.tasks[id], s.db.logs[id];
    SignalPlan(s, id, signal, listing, now);
    RightIsRecorded(s, id, signal, listing, now, PollPlan(t, log, true, signal, listing, now).update);
  }

  lemma SignalPlan(s: System, id: TaskId, signal: SignalReply, listing: ListingReply, now: int)
    requires id < |s.db.tasks| == |s.seen| == |s.db.logs| && Active(s.db.tasks[id].status)
    requires var t := s.db.tasks[id]; !Looks(t, signal, listing) && (t.completion.Some? ==> Observable(t))
    ensures var plan := PollPlan(s.db.tasks[id], s.db.logs[id], true, signal, listing, now);
            plan.Write? && plan.update.owned != Some(false) && Right(s, id, signal, listing, now, plan.update)
  {
    hide Moved, Right, Looks, Observable;
    if signal.SignalFailed? || signal.signal == SignalUnknown {
      BlindPlan(s, id, signal, listing, now);
    } else {
      ToldPlan(s, id, signal, listing, now);
    }
  }

  /** The client's signal decides. */
  lemma ToldPlan(s: System, id: TaskId, signal: SignalReply, listing: ListingReply, now: int)
    requires id < |s.db.tasks| == |s.seen| == |s.db.logs| && Active(s.db.tasks[id].status)
    requires signal.Signal? && signal.signal != SignalUnknown
    ensures var plan := PollPlan(s.db.tasks[id], s.db.logs[id], true, signal, listing, now);
            plan.Write? && plan.update.owned != Some(false) && Right(s, id, signal, listing, now, plan.update)
  {
    hide FilePlan, Moved, Settled, Untouched, OwnedNow, PlanOk, Observable, Waited;
    var t := s.db.tasks[id];
    match signal.signal {
      case SignalFinished => MovedOk(t, Completed, TaskApiFinished, now, Some(true));
      case SignalError => MovedOk(t, Failed, ExternalTaskFailed, now, None);
      case SignalDownloading => MovedOk(t, Downloading, TaskApiDownloading, now, Some(true));
      case SignalInit =>
        MovedOk(t, if t.status == Submitting then Submitted else t.status, TaskApiInit, now, Some(true));
    }
  }

  /** The poll learns nothing. */
  lemma BlindPlan(s: System, id: TaskId, signal: SignalReply, listing: ListingReply, now: int)
    requires id < |s.db.tasks| == |s.seen| == |s.db.logs| && Active(s.db.tasks[id].status)
    requires signal.SignalFailed? || signal.signal == SignalUnknown
    requires var t := s.db.tasks[id]; !Looks(t, signal, listing) && (t.completion.Some? ==> Observable(t))
    ensures var plan := PollPlan(s.db.tasks[id], s.db.logs[id], true, signal, listing, now);
            plan.Write? && plan.update.owned != Some(false) && Right(s, id, signal, listing, now, plan.update)
  {
    hide FilePlan, Moved, Settled, Untouched, OwnedNow, PlanOk, Completion.Fold;
    var t := s.db.tasks[id];
    WaitedFollows(t, now);
    if signal.Signal? && t.completion.None? {
      MovedOk(t, Waited(t, now), BaselineUnavailable, now, None);
    }
  }

  /** A poll that judges a listing and does not raise. */
  lemma FilePoll(s: System, id: TaskId, listing: ListingReply, now: int)
    requires Consistent(s) && id < |s.db.tasks| && Active(s.db.tasks[id].status) && HonestListing(s.db, id, listing)
    requires Looks(s.db.tasks[id], Signal(SignalUnknown), listing)
    requires !Raises(s.db.tasks[id], Signal(SignalUnknown), listing)
    ensures |s.db.logs| == |s.seen| == |s.db.tasks|
    ensures !HandsBack(s, id, Signal(SignalUnknown), listing) ==>
              Leaves(s, id, Signal(SignalUnknown), listing, now,
                     Poll(s.db, id, true, Signal(SignalUnknown), listing, now))
  {
    hide PollPlan, AppendEvent, Consistent, Valid, Leaves, DirectoryHeldByAnother, LogOk, RowOk, Raises;
    hide Right, OwnedNow, Settled, Completion.Observe, Completion.Fold, Completion.TotalSize, Repeated, Untouched;
    RowFacts(s, id);
    var t, log := s.db.tasks[id], s.db.logs[id];
    ObservationFacts(s, id, listing);
    var o := Completion.Observe(t.completion.value, listing.snapshot).value;
    ObservedPlan(t, log, true, listing, now);
    FileDecision(t, log, listing.snapshot, now);
    HeldMeans(s.db, id);
    var target := FileTarget(t, o, now);
    FileRight(s, id, listing, now, o);
    RepeatsMeans(s, id, listing, o,
                 Event(|log| + 1, target, System, Noted(s, id, Signal(SignalUnknown), listing), now));
    if Repeats(t, log, target, o) {
      SkipLeaves(s, id, listing, now, o);
    } else if !HandsBack(s, id, Signal(SignalUnknown), listing) {
      RightIsRecorded(s, id, Signal(SignalUnknown), listing, now, FileUpdate(target, o, now));
    }
  }

  lemma FileDecision(t: Task, log: seq<Event>, snapshot: Completion.Snapshot, now: int)
    requires Active(t.status) && t.completion.Some? && Completion.Observe(t.completion.value, snapshot).Ok?
    ensures var o := Completion.Observe(t.completion.value, snapshot).value;
            var target := FileTarget(t, o, now);
            FilePlan(t, log, true, snapshot, now)
            == if Repeats(t, log, target, o) then Skip(target) else Write(FileUpdate(target, o, now))
  {
    hide Completion.Observe, Repeats;
    WaitedFollows(t, now);
    var o := Completion.Observe(t.completion.value, snapshot).value;
    TransitionFollows(t.status, Some(FileTarget(t, o, now)), true, None, None);
  }

  /** An observation that is skipped finds the row as it would have left it. */
  lemma SkipLeaves(s: System, id: TaskId, listing: ListingReply, now: int, o: Completion.Observation)
    requires id < |s.db.tasks| == |s.seen| == |s.db.logs| && LogOk(s.db.tasks[id], s.db.logs[id])
    requires RowOk(s.db.tasks[id], s.db.logs[id], s.seen[id])
    requires Looks(s.db.tasks[id], Signal(SignalUnknown), listing) && Observed(s, id, listing, o)
    requires var target := FileTarget(s.db.tasks[id], o, now);
             && Repeats(s.db.tasks[id], s.db.logs[id], target, o)
             && Right(s, id, Signal(SignalUnknown), listing, now, FileUpdate(target, o, now))
    ensures Leaves(s, id, Signal(SignalUnknown), listing, now,
                   Outcome(s.db, Ok(FileTarget(s.db.tasks[id], o, now))))
  {
    hide OwnedNow, Settled, Untouched, Completion.Fold, Completion.TotalSize, Listings, FileTarget;
    hide StatusAfter, Replayed, Proven, Repeated, Noted, Completion.ReportsCompletion;
    var target := FileTarget(s.db.tasks[id], o, now);
    RepeatsMeans(s, id, listing, o,
                 Event(|s.db.logs[id]| + 1, target, System, Noted(s, id, Signal(SignalUnknown), listing), now));
  }

  lemma HeldMeans(db: Db, id: TaskId)
    requires id < |db.tasks|
    ensures DirectoryHeldByAnother(db, id) <==>
              exists j :: 0 <= j < |db.tasks| && j != id && WaitsIn(db.tasks[j], db.tasks[id])
  {
    if DirectoryHeldByAnother(db, id) {
      var j :| 0 <= j < |db.tasks| && j != id && Waiting(db.tasks[j]) && SameDestination(db.tasks[j], db.tasks[id]);
      assert WaitsIn(db.tasks[j], db.tasks[id]);
    }
    if j :| 0 <= j < |db.tasks| && j != id && WaitsIn(db.tasks[j], db.tasks[id]) {
      assert Waiting(db.tasks[j]) && SameDestination(db.tasks[j], db.tasks[id]);
    }
  }

  /** The observation of the new listing, as `ObservationFacts` describes it. */
  ghost predicate Observed(s: System, id: TaskId, listing: ListingReply, o: Completion.Observation)
    requires id < |s.db.tasks| == |s.seen| && Looks(s.db.tasks[id], Signal(SignalUnknown), listing)
  {
    var changes := OwnedNow(s, id, listing);
    && o.completed == Settled(s, id, listing)
    && o.changedCount == |changes| && o.changedSize == Completion.TotalSize(changes)
    && (o.state.owned == [] <==> Untouched(s, id, listing))
    && Completion.Fold(Birth(s.db.tasks[id].completion.value), Listings(s, id, listing)) == Some(o.state)
  }

  lemma FileRight(s: System, id: TaskId, listing: ListingReply, now: int, o: Completion.Observation)
    requires id < |s.db.tasks| == |s.seen| && Active(s.db.tasks[id].status)
    requires Looks(s.db.tasks[id], Signal(SignalUnknown), listing) && Observed(s, id, listing, o)
    ensures Right(s, id, Signal(SignalUnknown), listing, now, FileUpdate(FileTarget(s.db.tasks[id], o, now), o, now))
    ensures FileEvidence(o) == Noted(s, id, Signal(SignalUnknown), listing)
  {
    hide OwnedNow, Settled, Untouched, Completion.Fold, Completion.TotalSize, Listings;
    var changes := OwnedNow(s, id, listing);
    Completion.TotalSizePositive(changes);
    assert |changes| == 0 ==> changes == [];
  }

  lemma RepeatsMeans(s: System, id: TaskId, listing: ListingReply, o: Completion.Observation, e: Event)
    requires id < |s.db.tasks| == |s.seen| == |s.db.logs|
    requires Looks(s.db.tasks[id], Signal(SignalUnknown), listing) && Observed(s, id, listing, o)
    requires e.evidence == FileEvidence(o)
    ensures Repeated(s, id, Signal(SignalUnknown), listing, e) <==> Repeats(s.db.tasks[id], s.db.logs[id], e.status, o)
  {
    hide OwnedNow, Settled, Untouched, Completion.Fold, Completion.TotalSize, Listings;
  }

  // ---- The outcome of every poll ----

  lemma RaisesMeans(s: System, id: TaskId, signal: SignalReply, listing: ListingReply)
    requires Consistent(s) && id < |s.db.tasks|
    ensures Raises(s.db.tasks[id], signal, listing) <==>
              Contention.MeetsFileAtDirectory(s.db.tasks[id], signal, listing)
  {
    hide Consistent, Completion.SizeOf;
    RowFacts(s, id);
  }

  lemma HandsBackMeans(s: System, id: TaskId, signal: SignalReply, listing: ListingReply)
    requires Consistent(s) && id < |s.db.tasks| && HonestListing(s.db, id, listing)
    requires !Raises(s.db.tasks[id], signal, listing)
    ensures |s.seen| == |s.db.tasks|
    ensures HandsBack(s, id, signal, listing) <==> Contention.HandsBackHeld(s.db, id, signal, listing)
  {
    hide Consistent, Valid, LogOk, RowOk, Raises, Untouched, Settled, OwnedNow, DirectoryHeldByAnother;
    hide Completion.Observe, Completion.Fold, Completion.TotalSize;
    RowFacts(s, id);
    HeldMeans(s.db, id);
    if Looks(s.db.tasks[id], signal, listing) {
      ObservationFacts(s, id, listing);
      if Untouched(s, id, listing) {
        UntouchedIsUnsettled(s, id, listing);
      }
    }
  }

  lemma UntouchedIsUnsettled(s: System, id: TaskId, listing: ListingReply)
    requires id < |s.seen| && id < |s.db.tasks| && s.db.tasks[id].completion.Some? && listing.Listing?
    requires Untouched(s, id, listing)
    ensures !Settled(s, id, listing) && OwnedNow(s, id, listing) == []
  {
    hide Completion.Diff, Completion.Items, Completion.FrozenOwners;
    var files := Listings(s, id, listing);
    assert Completion.Changes(s.db.tasks[id].completion.value.baseline, files[|files| - 1]) == [];
  }

  /**
   * Everything a poll of an unfinished task does, in every system a run reaches: it raises or is refused and
   * changes nothing, or it leaves the row, the log and the answer that the client's word, the deadline and the
   * listings call for.
   */
  lemma PollOutcome(s: System, id: TaskId, signal: SignalReply, listing: ListingReply, now: int)
    requires Consistent(s) && id < |s.db.tasks| && HonestListing(s.db, id, listing)
    requires s.db.tasks[id].status != Completed && s.db.tasks[id].status != Failed
    ensures |s.db.logs| == |s.seen| == |s.db.tasks|
    ensures var o := Poll(s.db, id, true, signal, listing, now);
            if Raises(s.db.tasks[id], signal, listing) then o == Outcome(s.db, Err(OutsideDestination))
            else if HandsBack(s, id, signal, listing)
            then o == Outcome(s.db, Err(StoreRefused(IntegrityViolation)))
            else Leaves(s, id, signal, listing, now, o)
  {
    hide Consistent, Valid, Poll, Leaves, Raises, HandsBack, Looks, LogOk, RowOk, HonestListing;
    hide Contention.HandsBackHeld, Contention.MeetsFileAtDirectory;
    RowFacts(s, id);
    RaisesMeans(s, id, signal, listing);
    Contention.PollRaisesIff(s, id, true, signal, listing, now);
    if !Raises(s.db.tasks[id], signal, listing) {
      HandsBackMeans(s, id, signal, listing);
      if HandsBack(s, id, signal, listing) {
        Contention.PollReturnsIff(s, id, signal, listing, now);
        Refused(s, id, signal, listing, now);
      } else if Looks(s.db.tasks[id], signal, listing) {
        LooksAlone(s.db.tasks[id], signal, listing);
        FilePoll(s, id, listing, now);
      } else {
        SignalPoll(s, id, signal, listing, now);
      }
    }
  }

  lemma LooksAlone(t: Task, signal: SignalReply, listing: ListingReply)
    requires Looks(t, signal, listing)
    ensures signal == Signal(SignalUnknown)
  {
  }

  lemma Refused(s: System, id: TaskId, signal: SignalReply, listing: ListingReply, now: int)
    requires Consistent(s) && id < |s.db.tasks| && Active(s.db.tasks[id].status)
    requires Contention.HandsBackHeld(s.db, id, signal, listing)
    ensures |s.db.logs| == |s.db.tasks|
    ensures Poll(s.db, id, true, signal, listing, now).result == Err(StoreRefused(IntegrityViolation))
  {
    hide Consistent, Poll, ReleasesDirectory, DirectoryHeldByAnother;
    Contention.PollRefusedInRunsIff(s, id, signal, listing, now);
  }

  /** A finished task is left alone, and an unknown one is an error. */
  lemma PollOfNone(db: Db, id: TaskId, signal: SignalReply, listing: ListingReply, now: int)
    requires |db.logs| == |db.tasks|
    requires id < |db.tasks| ==> db.tasks[id].status == Completed || db.tasks[id].status == Failed
    ensures Poll(db, id, true, signal, listing, now)
            == Outcome(db, if id < |db.tasks| then Ok(db.tasks[id].status) else Err(UnknownTask))
  {
  }

  /** Some owned change of the new listing has content. */
  ghost predicate Progresses(s: System, id: TaskId, signal: SignalReply, listing: ListingReply)
    requires id < |s.seen| && id < |s.db.tasks|
  {
    && Looks(s.db.tasks[id], signal, listing) && !Raises(s.db.tasks[id], signal, listing)
    && exists f :: f in OwnedNow(s, id, listing) && f.size > 0
  }

  /** A poll that says nothing of the download, with the deadline still ahead, or that changes nothing at all. */
  ghost predicate Stays(s: System, id: TaskId, signal: SignalReply, listing: ListingReply, now: int)
    requires id < |s.seen| && id < |s.db.tasks|
  {
    var t := s.db.tasks[id];
    || Raises(t, signal, listing) || HandsBack(s, id, signal, listing)
    || (&& (signal.SignalFailed? || signal == Signal(SignalUnknown)) && !Progresses(s, id, signal, listing)
        && !(t.attentionAfter.Some? && now >= t.attentionAfter.value))
  }

  /**
   * A poll leaves a task downloading exactly if the client says so, if the listing shows owned content that is
   * not yet settled, or if the task was downloading and the client says INIT or nothing before the deadline.
   */
  lemma PollDownloadsIff(s: System, id: TaskId, signal: SignalReply, listing: ListingReply, now: int)
    requires Consistent(s) && id < |s.db.tasks| && HonestListing(s.db, id, listing)
    requires s.db.tasks[id].status != Completed && s.db.tasks[id].status != Failed
    ensures |s.db.logs| == |s.seen| == |s.db.tasks| == |Poll(s.db, id, true, signal, listing, now).db.tasks|
    ensures Poll(s.db, id, true, signal, listing, now).db.tasks[id].status == Downloading <==>
              || signal == Signal(SignalDownloading)
              || (Progresses(s, id, signal, listing) && !Settled(s, id, listing))
              || (s.db.tasks[id].status == Downloading
                  && (signal == Signal(SignalInit) || Stays(s, id, signal, listing, now)))
  {
    hide Consistent, Poll, Settled, Untouched, OwnedNow, HonestListing, Raises, HandsBack;
    PollStatusFacts(s, id, signal, listing, now);
  }

  /**
   * A poll leaves a task submitted exactly if it was submitting or submitted and the client says INIT, or if it was
   * submitted and the client says nothing before the deadline.
   */
  lemma PollSubmitsIff(s: System, id: TaskId, signal: SignalReply, listing: ListingReply, now: int)
    requires Consistent(s) && id < |s.db.tasks| && HonestListing(s.db, id, listing)
    requires s.db.tasks[id].status != Completed && s.db.tasks[id].status != Failed
    ensures |s.db.logs| == |s.seen| == |s.db.tasks| == |Poll(s.db, id, true, signal, listing, now).db.tasks|
    ensures Poll(s.db, id, true, signal, listing, now).db.tasks[id].status == Submitted <==>
              || (signal == Signal(SignalInit) && s.db.tasks[id].status in {Submitting, Submitted})
              || (s.db.tasks[id].status == Submitted && Stays(s, id, signal, listing, now))
  {
    hide Consistent, Poll, Settled, Untouched, OwnedNow, HonestListing, Raises, HandsBack;
    PollStatusFacts(s, id, signal, listing, now);
  }

  lemma PollStatusFacts(s: System, id: TaskId, signal: SignalReply, listing: ListingReply, now: int)
    requires Consistent(s) && id < |s.db.tasks| && HonestListing(s.db, id, listing)
    requires s.db.tasks[id].status != Completed && s.db.tasks[id].status != Failed
    ensures |s.db.logs| == |s.seen| == |s.db.tasks| == |Poll(s.db, id, true, signal, listing, now).db.tasks|
    ensures var after := Poll(s.db, id, true, signal, listing, now).db.tasks[id].status;
            if Raises(s.db.tasks[id], signal, listing) || HandsBack(s, id, signal, listing)
            then after == s.db.tasks[id].status
            else StatusAfter(s, id, signal, listing, now, after)
    ensures Raises(s.db.tasks[id], signal, listing) || HandsBack(s, id, signal, listing) ==>
              signal == Signal(SignalUnknown) && !Progresses(s, id, signal, listing)
    ensures Looks(s.db.tasks[id], signal, listing) && Settled(s, id, listing) ==>
              exists f :: f in OwnedNow(s, id, listing) && f.size > 0
  {
    hide Consistent, Poll, StatusAfter, ProgressAfter, Noted, Repeated, HonestListing, Untouched;
    PollOutcome(s, id, signal, listing, now);
    if HandsBack(s, id, signal, listing) {
      UntouchedIsUnsettled(s, id, listing);
    }
    if Looks(s.db.tasks[id], signal, listing) && Settled(s, id, listing) {
      SettledHasContent(s, id, listing);
    }
  }

  lemma SettledHasContent(s: System, id: TaskId, listing: ListingReply)
    requires id < |s.seen| && id < |s.db.tasks| && s.db.tasks[id].completion.Some? && listing.Listing?
    requires Settled(s, id, listing)
    ensures exists f :: f in OwnedNow(s, id, listing) && f.size > 0
  {
    hide Completion.OwnedChanges, Completion.FrozenOwners;
  }

  // ---- The deadline ----

  ghost predicate DeadlinesOf(config: Config, db: Db) {
    && |db.logs| == |db.tasks|
    && forall i :: 0 <= i < |db.tasks| ==>
         && |db.logs[i]| > 0
         && db.tasks[i].attentionAfter == Some(db.logs[i][0].occurredAt + config.attentionAfterSeconds)
  }

  lemma StepKeepsDeadlines(config: Config, s: System, op: Op, deduplicate: bool)
    requires Consistent(s) && Possible(s.db, op) && DeadlinesOf(config, s.db)
    ensures DeadlinesOf(config, Step(s, config, op, deduplicate).db)
  {
    hide Consistent, Possible, Perform, Sound;
    ConsistentIsSound(s);
    SoundShape(s.db);
    var after := Step(s, config, op, deduplicate).db;
    forall i | 0 <= i < |s.db.tasks|
      ensures |s.db.tasks| <= |after.tasks| == |after.logs| && |after.logs[i]| > 0
      ensures after.tasks[i].attentionAfter == Some(after.logs[i][0].occurredAt + config.attentionAfterSeconds)
    {
      OperationProgresses(s.db, config, op, deduplicate, i);
    }
    NewDeadline(config, s.db, op, deduplicate);
  }

  lemma NewDeadline(config: Config, db: Db, op: Op, deduplicate: bool)
    requires Sound(db) && Possible(db, op)
    ensures var after := Perform(db, config, op, deduplicate);
            && |db.logs| == |db.tasks| <= |after.tasks| == |after.logs|
            && forall i :: |db.tasks| <= i < |after.tasks| ==>
                 && |after.logs[i]| > 0
                 && after.tasks[i].attentionAfter == Some(after.logs[i][0].occurredAt + config.attentionAfterSeconds)
  {
    hide Valid, Poll, ManualComplete, SettleRow, Honest, FindCandidate, FirstClaim, DestinationTaken;
    SoundShape(db);
    if !Adds(op) {
      OperationTouchesOne(db, config, op, deduplicate);
    }
  }

  /** In every run a task's deadline is the time of its claim plus the configured delay, and it never moves. */
  lemma {:induction false} DeadlineIsFixed(config: Config, deduplicate: bool, systems: seq<System>, ops: seq<Op>,
                                           k: nat)
    requires Run(config, deduplicate, systems, ops) && k < |systems|
    ensures DeadlinesOf(config, systems[k].db)
  {
    hide Consistent, Possible, Step, DeadlinesOf, Advance;
    if k == 0 {
      NoDeadlines(config);
    } else {
      DeadlineIsFixed(config, deduplicate, systems, ops, k - 1);
      ConsistentAt(config, deduplicate, systems, ops, k - 1);
      StepKeepsDeadlines(config, systems[k - 1], ops[k - 1], deduplicate);
    }
  }

  lemma NoDeadlines(config: Config)
    ensures DeadlinesOf(config, EMPTY.db)
  {
  }
}
