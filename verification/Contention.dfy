/**
 * Where the unique constraints bite, and where they do not reach: exactly when a poll is refused because
 * of the index on destinations, and how one hash comes to be claimed for two contents. Both are reached
 * by ordinary operations.
 */
module Contention {
  import opened Wrappers
  import opened DownloadState
  import opened Store
  import opened Lifecycle
  import opened Submission
  import Btih
  import Completion
  import Fallback
  import History
  import Magnet
  import Paths

  /** Where the poller's last event was uneventful, the ownership flag already says what that listing said. */
  lemma ReleasingIsNoRepeat(t: Task, log: seq<Event>, signal: SignalReply, listing: ListingReply, now: int)
    requires Active(t.status) && History.Quiet(t, log) && ReleasesDirectory(t, signal, listing)
    ensures PollPlan(t, log, true, signal, listing, now) == PollPlan(t, log, false, signal, listing, now)
  {
    hide Completion.Observe;
    WaitedFollows(t, now);
    var o := Completion.Observe(t.completion.value, listing.snapshot).value;
    TransitionFollows(t.status, Some(FileTarget(t, o, now)), true, None, None);
  }

  lemma OtherwiseOnlySkips(t: Task, log: seq<Event>, signal: SignalReply, listing: ListingReply, now: int)
    ensures var plan := PollPlan(t, log, true, signal, listing, now);
            plan == PollPlan(t, log, false, signal, listing, now) || plan.Skip?
  {
    hide Completion.Observe;
  }

  /**
   * In every store a run reaches, a poll is refused by the database exactly when the task held its
   * directory through an earlier signal, the listing shows nothing it owns, and another waiting task has
   * taken the directory meanwhile.
   */
  lemma PollRefusedInRunsIff(s: History.System, id: TaskId, signal: SignalReply, listing: ListingReply, now: int)
    requires History.Consistent(s)
    requires id < |s.db.tasks| && Active(s.db.tasks[id].status)
    ensures |s.db.logs| == |s.db.tasks|
    ensures Poll(s.db, id, true, signal, listing, now).result == Err(StoreRefused(IntegrityViolation))
            <==> ReleasesDirectory(s.db.tasks[id], signal, listing) && DirectoryHeldByAnother(s.db, id)
  {
    hide PollPlan, ReleasesDirectory, DirectoryHeldByAnother, Valid, DestinationTaken, MaxSequence;
    hide History.Replayed, History.Proven;
    SoundLogs(s.db);
    var t, log := s.db.tasks[id], s.db.logs[id];
    assert History.RowOk(t, log, s.seen[id]);
    PollRefusedIff(s.db, id, signal, listing, now);
    OtherwiseOnlySkips(t, log, signal, listing, now);
    if ReleasesDirectory(t, signal, listing) {
      ReleasingIsNoRepeat(t, log, signal, listing, now);
    }
  }

  // ---- A poll that raises ----

  /** A poll that meets a changed file at the task's own directory path, before it owns anything. */
  ghost predicate MeetsFileAtDirectory(t: Task, signal: SignalReply, listing: ListingReply) {
    && signal == Signal(SignalUnknown) && Observable(t) && listing.Listing?
    && Completion.FileAtDestination(t.completion.value, listing.snapshot)
  }

  /** A poll raises exactly then, and leaves the store as it was. */
  lemma PollRaisesIff(s: History.System, id: TaskId, deduplicate: bool, signal: SignalReply, listing: ListingReply,
                      now: int)
    requires History.Consistent(s) && History.HonestListing(s.db, id, listing)
    requires id < |s.db.tasks| && Active(s.db.tasks[id].status)
    ensures |s.db.logs| == |s.db.tasks|
    ensures var o := Poll(s.db, id, deduplicate, signal, listing, now);
            && (o.result == Err(OutsideDestination) <==> MeetsFileAtDirectory(s.db.tasks[id], signal, listing))
            && (o.result == Err(OutsideDestination) ==> o.db == s.db)
  {
    hide PollPlan, FilePlan, DestinationTaken, MaxSequence, Valid, Completion.Observe, Completion.Inside;
    hide Completion.FileAtDestination;
    SoundLogs(s.db);
    var t, log := s.db.tasks[id], s.db.logs[id];
    assert History.RowOk(t, log, s.seen[id]);
    if signal == Signal(SignalUnknown) && Observable(t) && listing.Listing? {
      History.DirectoryIsNormal(s.db, id);
      History.ObservedPlan(t, log, deduplicate, listing, now);
      FilePlanOk(t, log, deduplicate, listing.snapshot, now);
      Completion.ObserveRaisesIff(t.completion.value, listing.snapshot);
    } else {
      History.OtherPlan(t, log, deduplicate, signal, listing, now);
    }
  }

  /** A poll hands back a directory that another task waits for. */
  ghost predicate HandsBackHeld(db: Db, id: TaskId, signal: SignalReply, listing: ListingReply)
    requires id < |db.tasks|
  {
    ReleasesDirectory(db.tasks[id], signal, listing) && DirectoryHeldByAnother(db, id)
  }

  /**
   * A poll returns normally exactly if it neither meets a file at the directory path nor hands back a held
   * directory.
   */
  lemma PollReturnsIff(s: History.System, id: TaskId, signal: SignalReply, listing: ListingReply, now: int)
    requires History.Consistent(s) && History.HonestListing(s.db, id, listing)
    requires id < |s.db.tasks| && Active(s.db.tasks[id].status)
    ensures |s.db.logs| == |s.db.tasks|
    ensures var o := Poll(s.db, id, true, signal, listing, now);
            && (o.result.Ok? <==> !MeetsFileAtDirectory(s.db.tasks[id], signal, listing)
                                   && !HandsBackHeld(s.db, id, signal, listing))
            && (o.result.Err? ==> o.db == s.db)
  {
    hide PollPlan, DestinationTaken, MaxSequence, Valid, ReleasesDirectory, DirectoryHeldByAnother,
    MeetsFileAtDirectory;
    hide History.RowOk;
    SoundLogs(s.db);
    PollRaisesIff(s, id, true, signal, listing, now);
    PollRefusedInRunsIff(s, id, signal, listing, now);
    PlanFollows(s.db.tasks[id], s.db.logs[id], true, signal, listing, now);
    OnlyOutside(s.db.tasks[id], s.db.logs[id], signal, listing, now);
  }

  lemma OnlyOutside(t: Task, log: seq<Event>, signal: SignalReply, listing: ListingReply, now: int)
    ensures var plan := PollPlan(t, log, true, signal, listing, now);
            plan.Raise? ==> plan.error == OutsideDestination || plan.error == IllegalTransition
  {
    hide Completion.Observe;
  }

  /**
   * A poll moves a task to attention exactly when the deadline has passed, the poll learned nothing
   * reliable, and it did not have to hand back a held directory. A poll that meets a changed file at the
   * directory path is not uneventful: it raises, so such a task never comes to attention.
   */
  lemma AttentionIffDue(s: History.System, id: TaskId, signal: SignalReply, listing: ListingReply, now: int)
    requires History.Consistent(s) && History.HonestListing(s.db, id, listing)
    requires id < |s.db.tasks| && Active(s.db.tasks[id].status) && s.db.tasks[id].status != AttentionRequired
    ensures |s.db.logs| == |s.db.tasks| == |Poll(s.db, id, true, signal, listing, now).db.tasks|
    ensures Poll(s.db, id, true, signal, listing, now).db.tasks[id].status == AttentionRequired
            <==> && Due(Some(now), s.db.tasks[id].attentionAfter)
                 && Uneventful(s.db.tasks[id], signal, listing)
                 && !HandsBackHeld(s.db, id, signal, listing)
    ensures MeetsFileAtDirectory(s.db.tasks[id], signal, listing) ==> !Uneventful(s.db.tasks[id], signal, listing)
  {
    hide Valid, Poll, Uneventful, HandsBackHeld, MeetsFileAtDirectory, History.RowOk, Completion.Inside;
    SoundLogs(s.db);
    PollReturnsIff(s, id, signal, listing, now);
    RaisingIsEventful(s, id, signal, listing);
    if Poll(s.db, id, true, signal, listing, now).result.Ok? {
      AttentionWhenRecorded(s.db, id, true, signal, listing, now);
    }
  }

  lemma RaisingIsEventful(s: History.System, id: TaskId, signal: SignalReply, listing: ListingReply)
    requires History.Consistent(s) && id < |s.db.tasks| && History.HonestListing(s.db, id, listing)
    ensures MeetsFileAtDirectory(s.db.tasks[id], signal, listing) ==> !Uneventful(s.db.tasks[id], signal, listing)
  {
    hide Valid, Completion.Observe, Completion.Inside, Completion.FileAtDestination;
    SoundLogs(s.db);
    var t := s.db.tasks[id];
    assert History.RowOk(t, s.db.logs[id], s.seen[id]);
    if MeetsFileAtDirectory(t, signal, listing) {
      History.DirectoryIsNormal(s.db, id);
      Completion.ObserveRaisesIff(t.completion.value, listing.snapshot);
    }
  }

  /** However late it is, the first poll of a just submitted task that finds a file in place of the directory raises. */
  lemma RaiseIsReachable(btih: string, size: nat, now: int)
    requires Btih.NormalBtih(btih)
    ensures var s := AfterFirst(btih).db;
            && Sound(s) && |s.logs| == |s.tasks| && JustSubmitted(s, 0)
            && var listing := Listing([Completion.FileFact("/" + btih, size)]);
               && History.HonestListing(s, 0, listing)
               && Poll(s, 0, true, Signal(SignalUnknown), listing, now) == Outcome(s, Err(OutsideDestination))
  {
    hide Sound, Submit, Magnet.ParseMagnet;
    FirstSubmission(btih);
    FirstRaises(AfterFirst(btih).db, btih, size, now);
  }

  lemma FirstRaises(s: Db, btih: string, size: nat, now: int)
    requires Btih.NormalBtih(btih) && Sound(s) && |s.logs| == |s.tasks| && JustSubmitted(s, 0)
    requires s.tasks[0].destination == Some("/" + btih) && s.tasks[0].completion.value.destination == "/" + btih
    requires s.tasks[0].completion.value.baseline == []
    ensures var listing := Listing([Completion.FileFact("/" + btih, size)]);
            && History.HonestListing(s, 0, listing)
            && Poll(s, 0, true, Signal(SignalUnknown), listing, now) == Outcome(s, Err(OutsideDestination))
  {
    hide Sound, Completion.Observe, DestinationTaken, MaxSequence;
    var t, snapshot := s.tasks[0], [Completion.FileFact("/" + btih, size)];
    Paths.NormalBtihIsName(btih);
    Paths.NoTrailingSlash([btih]);
    assert Paths.Absolute([btih]) == "/" + btih;
    Completion.ObserveRaisesIff(t.completion.value, snapshot);
    FilePlanOk(t, s.logs[0], true, snapshot, now);
  }

  // ---- Ordinary operations lead there ----

  /** A task as an accepted submission leaves it. */
  ghost predicate JustSubmitted(db: Db, id: TaskId) {
    && id < |db.tasks|
    && var t := db.tasks[id];
       && t.status == Submitted && Waiting(t) && Observable(t)
       && t.completion.value == History.Birth(t.completion.value)
  }

  /** A DOWNLOADING signal marks the task as owning its directory. */
  lemma DownloadingOwns(db: Db, id: TaskId, now: int)
    requires Sound(db) && |db.logs| == |db.tasks| && JustSubmitted(db, id)
    ensures var o := Poll(db, id, true, Signal(SignalDownloading), ListingFailed(""), now);
            && Sound(o.db) && |o.db.logs| == |o.db.tasks| == |db.tasks| && o.result == Ok(Downloading)
            && o.db.tasks[id] == db.tasks[id].(status := Downloading, owned := true, errorCode := None)
            && |o.db.logs[id]| > 0 && o.db.logs[id][|o.db.logs[id]| - 1].evidence == TaskApiDownloading
            && (forall j :: 0 <= j < |db.tasks| && j != id ==> o.db.tasks[j] == db.tasks[j])
  {
    hide Sound, MaxSequence;
    History.OperationKeepsSound(db, Config(0, 0),
                                History.PollTask(id, Signal(SignalDownloading), ListingFailed(""), now), true);
  }

  lemma NoneWaitsBeside(db: Db, id: TaskId)
    requires Sound(db) && id < |db.tasks| && Waiting(db.tasks[id])
    ensures forall j :: 0 <= j < |db.tasks| && j != id && Waiting(db.tasks[j])
              ==> !SameDestination(db.tasks[j], db.tasks[id])
    ensures db.tasks[id].client == CLIENT_KEY
  {
    NoOtherWaits(db.tasks, id);
  }

  /** With the directory owned and nobody waiting for it, a confirmed retry takes it. */
  lemma RetryTakesDirectory(db: Db, config: Config, id: TaskId, now: int)
    requires Sound(db) && |db.logs| == |db.tasks| && id < |db.tasks| && db.tasks[id].client == CLIENT_KEY
    requires OwnDirectory(db.candidates, db.tasks[id])
    requires forall j :: 0 <= j < |db.tasks| && Waiting(db.tasks[j]) ==> !SameDestination(db.tasks[j], db.tasks[id])
    ensures var o := Retry(db, config, id, true, ResultUnknown("network_timeout", None), now);
            && o.result == Ok(|db.tasks|) && Sound(o.db) && |o.db.logs| == |o.db.tasks| == |db.tasks| + 1
            && db.tasks <= o.db.tasks && db.logs <= o.db.logs
            && Waiting(o.db.tasks[|db.tasks|]) && SameDestination(o.db.tasks[|db.tasks|], db.tasks[id])
  {
    hide Magnet.ParseMagnet, Valid, NextGeneration, MaxSequence, FirstClaim;
    var reply := ResultUnknown("network_timeout", None);
    RetryIsHonest(db, id);
    StoredHashIsNormal(db, id);
    Magnet.ParseBareLink(db.candidates[db.tasks[id].candidate]);
    var args := RetryArgs(db, id);
    SubmitKeepsSound(db, config, args, reply, now);
    NextGenerationNeverConflicts(db, ClaimOf(config, args, now), now);
    HonestClaim(db, config, args, now);
    ClaimKeepsValid(db, ClaimOf(config, args, now), now);
    var claimed := ClaimDownload(db, ClaimOf(config, args, now), now);
    SubmitAppendsOnly(db, config, args, reply, now);
    SettleNeverRefused(claimed.value, |db.tasks|, SubmitEvent(config, args.destination, reply, now));
  }

  /** An unchanged listing then hands the directory back. */
  lemma UnchangedListingReleases(t: Task)
    requires Observable(t) && t.owned && t.completion.value == History.Birth(t.completion.value)
    ensures ReleasesDirectory(t, Signal(SignalUnknown), Listing(t.completion.value.baseline))
  {
    var c := t.completion.value;
    Completion.ItemsSound(c.baseline);
    UnchangedDiff(c.baseline, Completion.Items(c.baseline));
  }

  /** Signal, confirmed retry, unchanged listing: the last poll of any just submitted task is refused. */
  lemma RefusalFollows(db: Db, config: Config, id: TaskId, now: int)
    requires Sound(db) && |db.logs| == |db.tasks| && JustSubmitted(db, id)
    ensures var a := Poll(db, id, true, Signal(SignalDownloading), ListingFailed(""), now).db;
            && |a.logs| == |a.tasks| == |db.tasks| && OwnDirectory(a.candidates, a.tasks[id])
            && var b := Retry(a, config, id, true, ResultUnknown("network_timeout", None), now).db;
               && |b.logs| == |b.tasks|
               && Poll(b, id, true, Signal(SignalUnknown), Listing(db.tasks[id].completion.value.baseline), now).result
                  == Err(StoreRefused(IntegrityViolation))
  {
    hide Valid, Poll, Retry, ReleasesDirectory, PollPlan, DestinationTaken, MaxSequence;
    NoneWaitsBeside(db, id);
    DownloadingOwns(db, id, now);
    var a := Poll(db, id, true, Signal(SignalDownloading), ListingFailed(""), now).db;
    RetryIsHonest(a, id);
    RetryTakesDirectory(a, config, id, now);
    var b := Retry(a, config, id, true, ResultUnknown("network_timeout", None), now).db;
    var listing := Listing(db.tasks[id].completion.value.baseline);
    assert b.tasks[id] == a.tasks[id] && b.logs[id] == a.logs[id];
    UnchangedListingReleases(b.tasks[id]);
    HeldByRetry(b, id, |a.tasks|);
    PollRefusedIff(b, id, Signal(SignalUnknown), listing, now);
    ReleasingIsNoRepeat(b.tasks[id], b.logs[id], Signal(SignalUnknown), listing, now);
    SamePlanSamePoll(b, id, Signal(SignalUnknown), listing, now);
  }

  lemma HeldByRetry(db: Db, id: TaskId, other: TaskId)
    requires id < |db.tasks| && other < |db.tasks| && id != other
    requires Waiting(db.tasks[other]) && SameDestination(db.tasks[other], db.tasks[id])
    ensures DirectoryHeldByAnother(db, id)
  {
  }

  lemma SamePlanSamePoll(db: Db, id: TaskId, signal: SignalReply, listing: ListingReply, now: int)
    requires |db.logs| == |db.tasks| && id < |db.tasks|
    requires PollPlan(db.tasks[id], db.logs[id], true, signal, listing, now)
             == PollPlan(db.tasks[id], db.logs[id], false, signal, listing, now)
    ensures Poll(db, id, true, signal, listing, now) == Poll(db, id, false, signal, listing, now)
  {
    hide PollPlan;
  }

  function FirstArgs(btih: string): SubmitArgs {
    SubmitArgs(0, 0, "magnet:?xt=urn:btih:" + btih, "/" + btih, 0, None)
  }

  /** The store right after the submission of one candidate at the root of the drive. */
  function AfterFirst(btih: string): Outcome<Result<TaskId, SubmitError>> {
    Submit(Db([btih], [], []), Config(86400, 2), FirstArgs(btih), SubmitAccepted(btih, []), 0)
  }

  /** From a store with one candidate and no task, four ordinary operations end in a refused poll. */
  lemma RefusalIsReachable(btih: string)
    requires Btih.NormalBtih(btih)
    ensures var s := AfterFirst(btih).db;
            && Sound(s) && |s.logs| == |s.tasks| && JustSubmitted(s, 0)
            && var a := Poll(s, 0, true, Signal(SignalDownloading), ListingFailed(""), 1).db;
               && |a.logs| == |a.tasks| == 1 && OwnDirectory(a.candidates, a.tasks[0])
               && var b := Retry(a, Config(86400, 2), 0, true, ResultUnknown("network_timeout", None), 1).db;
                  && |b.logs| == |b.tasks|
                  && Poll(b, 0, true, Signal(SignalUnknown), Listing([]),
                          1).result == Err(StoreRefused(IntegrityViolation))
  {
    hide Poll, Retry, Magnet.ParseMagnet, Submit, Sound;
    FirstSubmission(btih);
    RefusalFollows(AfterFirst(btih).db, Config(86400, 2), 0, 1);
  }

  lemma FirstIsHonest(btih: string)
    requires Btih.NormalBtih(btih)
    ensures Sound(Db([btih], [], [])) && Honest(Db([btih], [], []), FirstArgs(btih))
  {
    Paths.NormalBtihIsName(btih);
    Paths.AbsoluteSegments([btih]);
    assert Paths.Absolute([btih]) == "/" + btih;
  }

  lemma FirstSubmission(btih: string)
    requires Btih.NormalBtih(btih)
    ensures var s := AfterFirst(btih).db;
            && Sound(s) && |s.logs| == |s.tasks| == 1 && JustSubmitted(s, 0)
            && s.tasks[0].completion.value.baseline == []
            && s.tasks[0].destination == Some("/" + btih) && s.tasks[0].completion.value.destination == "/" + btih
  {
    hide Magnet.ParseMagnet, MaxSequence, Valid;
    Magnet.ParseBareLink(btih);
    FirstIsHonest(btih);
    SubmitKeepsSound(Db([btih], [], []), Config(86400, 2), FirstArgs(btih), SubmitAccepted(btih, []), 0);
  }

  lemma {:induction false} UnchangedDiff(baseline: Completion.Snapshot, items: seq<Completion.FileFact>)
    requires forall f :: f in items ==> Completion.SizeOf(baseline, f.path) == Some(f.size)
    ensures Completion.Diff(baseline, items) == []
  {
    if |items| != 0 {
      assert items[0] in items;
      assert forall f :: f in items[1..] ==> f in items;
      UnchangedDiff(baseline, items[1..]);
    }
  }

  // ---- One hash, two contents ----

  /** An attempt of the item loop whose claim meets nobody: its row and its answer. */
  lemma AttemptLands(db: Db, config: Config, item: Fallback.Item, i: nat, generation: nat, supersedes: Option<TaskId>,
                     reply: SubmitReply, now: int)
    requires Sound(db) && |db.logs| == |db.tasks| && Fallback.Prepared(db, item) && i < |item.accepted|
    requires supersedes.Some? ==> Fallback.LinksTo(db, item, generation, supersedes.value)
    requires Paths.ResolveTaskDestination(item.directory, item.accepted[i]).Ok? && config.requiredObservations >= 2
    requires reply.SubmitAccepted? || reply.Rejected?
    requires var args := ArgsAt(db, item, i, generation, supersedes);
             !Rivalled(db, ClaimOf(config, args, now)) && !Awaited(db, ClaimOf(config, args, now))
    ensures var args := ArgsAt(db, item, i, generation, supersedes);
            var o := Submit(db, config, args, reply, now);
            && o.result == Ok(|db.tasks|) && Sound(o.db) && o.db.candidates == db.candidates
            && |o.db.tasks| == |o.db.logs| == |db.tasks| + 1 && db.tasks <= o.db.tasks
            && SameIdentity(o.db.tasks[|db.tasks|], NewTask(ClaimOf(config, args, now)))
            && o.db.tasks[|db.tasks|].status == (if reply.Rejected? then Failed else Submitted)
            && (reply.Rejected? ==> o.db.tasks[|db.tasks|].errorCode == Some(reply.code))
  {
    hide Magnet.ParseMagnet, Submit, Valid, NextGeneration, Paths.ResolveTaskDestination;
    hide Fallback.CandidateId, Rivalled, Awaited, DestinationOf;
    var args := ArgsAt(db, item, i, generation, supersedes);
    Fallback.AttemptIsHonest(db, item, i, generation, supersedes);
    Fallback.CandidateIdFound(db, item.accepted[i]);
    Magnet.ParseBareLink(item.accepted[i]);
    HonestClaim(db, config, args, now);
    ClaimOutcome(db, ClaimOf(config, args, now), now);
    SubmitOutcome(db, config, args, reply, now);
    SubmitKeepsSound(db, config, args, reply, now);
    SubmitAppendsOnly(db, config, args, reply, now);
    ResolvedIsAbsolute(item.directory, item.accepted[i]);
  }

  function ArgsAt(db: Db, item: Fallback.Item, i: nat, generation: nat, supersedes: Option<TaskId>): SubmitArgs
    requires i < |item.accepted| && Paths.ResolveTaskDestination(item.directory, item.accepted[i]).Ok?
  {
    Fallback.AttemptArgs(item, Fallback.CandidateId(db, item.accepted[i]), i,
                         Paths.ResolveTaskDestination(item.directory, item.accepted[i]).value, generation, supersedes)
  }

  lemma ResolvedIsAbsolute(directory: string, btih: string)
    requires Paths.ResolveTaskDestination(directory, btih).Ok?
    ensures "/" <= Paths.ResolveTaskDestination(directory, btih).value
  {
    Paths.TaskDestinationShape(directory, btih);
  }

  const SETTINGS := Config(86400, 2)

  /** The first candidate is rejected, every other one accepted. */
  function RejectFirst(btih: string): Fallback.Remote {
    Fallback.Remote(i => if i == 0 then Rejected("explicit_rejection") else SubmitAccepted(btih, []), i => 0)
  }

  function AcceptAll(btih: string): Fallback.Remote {
    Fallback.Remote(i => SubmitAccepted(btih, []), i => 0)
  }

  function FirstItem(first: string, second: string): Fallback.Item {
    Fallback.Item(0, "/a", [first, second])
  }

  function SecondItem(second: string): Fallback.Item {
    Fallback.Item(1, "/b", [second])
  }

  lemma TwoCandidates(first: string, second: string)
    requires Btih.NormalBtih(first) && Btih.NormalBtih(second) && first != second
    ensures Sound(Db([first, second], [], []))
  {
    hide Btih.NormalBtih;
  }

  lemma CandidateIds(db: Db, first: string, second: string)
    requires db.candidates == [first, second] && first != second
    ensures Fallback.CandidateId(db, first) == 0 && Fallback.CandidateId(db, second) == 1
  {
    assert [first, second][..1] == [first];
  }

  lemma OneName(name: string)
    requires Paths.ValidName(name)
    ensures Paths.Normalize("/" + name) == Ok("/" + name)
  {
    Paths.AbsoluteSegments([name]);
    assert Paths.Absolute([name]) == "/" + name;
  }

  lemma TwoDirectories(btih: string)
    requires Btih.NormalBtih(btih)
    ensures Paths.ResolveTaskDestination("/a", btih).Ok? && Paths.ResolveTaskDestination("/b", btih).Ok?
    ensures Paths.ResolveTaskDestination("/a", btih) != Paths.ResolveTaskDestination("/b", btih)
  {
    hide Paths.Normalize, Btih.NormalBtih, Btih.NormalizeBtih, Paths.ResolveTaskDestination, Btih.Denoted;
    Btih.NormalizeIdempotent(btih);
    OneName("a");
    OneName("b");
    assert "/" + "a" == "/a" && "/" + "b" == "/b";
    Paths.TaskDestinationShape("/a", btih);
    Paths.TaskDestinationShape("/b", btih);
    Paths.TaskDestinationInjective("/a", btih, "/b", btih);
    assert "/a"[1] != "/b"[1];
  }

  lemma ApartDirectories(x: string, y: string)
    requires Btih.NormalBtih(x) && Btih.NormalBtih(y)
    ensures Paths.ResolveTaskDestination("/a", x) != Paths.ResolveTaskDestination("/b", y)
  {
    hide Paths.Normalize, Btih.NormalBtih, Btih.NormalizeBtih, Paths.ResolveTaskDestination, Btih.Denoted;
    TwoDirectories(x);
    TwoDirectories(y);
    OneName("a");
    OneName("b");
    assert "/" + "a" == "/a" && "/" + "b" == "/b";
    Paths.TaskDestinationInjective("/a", x, "/b", y);
    assert "/a"[1] != "/b"[1];
  }

  /** Nobody waits in the directory of the item's candidate `i`. */
  ghost predicate Free(db: Db, item: Fallback.Item, i: nat)
    requires i < |item.accepted|
  {
    var destination := Paths.ResolveTaskDestination(item.directory, item.accepted[i]);
    destination.Ok? && forall j :: 0 <= j < |db.tasks| && Waiting(db.tasks[j])
                         ==> db.tasks[j].destination != Some(destination.value)
  }

  /** A failed task for the item's first candidate and a submitted one for its second have been added. */
  ghost predicate FellBack(db: Db, item: Fallback.Item, after: Db) {
    && Sound(after) && |item.accepted| == 2 && after.candidates == db.candidates
    && |after.logs| == |after.tasks| == |db.tasks| + 2 && db.tasks <= after.tasks
    && Paths.ResolveTaskDestination(item.directory, item.accepted[1]).Ok?
    && var s, t := after.tasks[|db.tasks|], after.tasks[|db.tasks| + 1];
       && s.client == t.client == CLIENT_KEY && s.content == t.content == item.content
       && s.candidate == Fallback.CandidateId(db, item.accepted[0])
       && t.candidate == Fallback.CandidateId(db, item.accepted[1])
       && s.generation == 0 < t.generation && s.status == Failed && t.status == Submitted
       && s.supersedes == None && t.supersedes == Some(|db.tasks|)
       && t.destination == Some(Paths.ResolveTaskDestination(item.directory, item.accepted[1]).value)
  }

  /** The first candidate is rejected, the second accepted. */
  lemma LoopFallsBack(db: Db, item: Fallback.Item, btih: string)
    requires Sound(db) && |db.logs| == |db.tasks| && Fallback.Prepared(db, item) && |item.accepted| == 2
    requires Free(db, item, 0) && Free(db, item, 1)
    requires !Rivalled(db, ClaimOf(SETTINGS, ArgsAt(db, item, 0, 0, None), 0))
    ensures FellBack(db, item,
                     Fallback.SubmitItem(db, SETTINGS, item, false, Fallback.EMPTY_STATS, RejectFirst(btih)).db)
  {
    hide Submit, Sound, Paths.ResolveTaskDestination, Fallback.CandidateId, NextGeneration;
    hide Fallback.Conclude, Btih.NormalBtih;
    var remote := RejectFirst(btih);
    AttemptLands(db, SETTINGS, item, 0, 0, None, remote.reply(0), 0);
    var o := Submit(db, SETTINGS, ArgsAt(db, item, 0, 0, None), remote.reply(0), 0);
    SameCandidateIds(db, o.db, item);
    var next := Fallback.CandidateId(o.db, item.accepted[1]);
    var generation := NextGeneration(o.db, CLIENT_KEY, item.content, next);
    NextExceeds(o.db, item.content, next, |db.tasks|);
    NextMeetsNobody(o.db, item, generation, |db.tasks|);
    AttemptLands(o.db, SETTINGS, item, 1, generation, Some(|db.tasks|), remote.reply(1), 0);
    var o2 := Submit(o.db, SETTINGS, ArgsAt(o.db, item, 1, generation, Some(|db.tasks|)), remote.reply(1), 0);
    var stats := Fallback.EMPTY_STATS.(submitAttempts := 1, submitFailures := 1, candidateFallbacks := 1);
    Fallback.ConcludeEnds(o2.db, stats.(submitAttempts := 2), item, next,
                          Fallback.Attempt(1, next, generation, Some(|db.tasks|), Some(|db.tasks| + 1)), o2.result,
                          true);
    assert !Fallback.FallsBack(o2.db, item, 1, o2.result);
    assert Fallback.Loop(o.db, SETTINGS, item, 1, generation, Some(|db.tasks|), true, stats, remote).db == o2.db;
    assert Fallback.FallsBack(o.db, item, 0, o.result);
  }

  lemma SameCandidateIds(a: Db, b: Db, item: Fallback.Item)
    requires a.candidates == b.candidates
    ensures forall i :: 0 <= i < |item.accepted|
              ==> Fallback.CandidateId(a, item.accepted[i]) == Fallback.CandidateId(b, item.accepted[i])
  {
  }

  /** The fallback's claim has no rival, and the rejected task waits for nothing. */
  lemma NextMeetsNobody(db: Db, item: Fallback.Item, generation: nat, rejected: TaskId)
    requires |item.accepted| == 2 && Free(db, item, 1)
    requires generation == NextGeneration(db, CLIENT_KEY, item.content, Fallback.CandidateId(db, item.accepted[1]))
    ensures var c := ClaimOf(SETTINGS, ArgsAt(db, item, 1, generation, Some(rejected)), 0);
            !Rivalled(db, c) && !Awaited(db, c)
  {
    hide Paths.ResolveTaskDestination, Fallback.CandidateId;
  }

  /**
   * A hash is not claimed once across all contents: a fallback holds the second hash at a later
   * generation, so another content claims the same hash afresh and both are submitted, unlinked.
   */
  lemma HashClaimedTwice(first: string, second: string)
    requires Btih.NormalBtih(first) && Btih.NormalBtih(second) && first != second
    ensures var a := Fallback.SubmitItem(Db([first, second], [], []), SETTINGS, FirstItem(first, second), false,
                                         Fallback.EMPTY_STATS, RejectFirst(second)).db;
            && |a.logs| == |a.tasks| == 2
            && var b := Fallback.SubmitItem(a, SETTINGS, SecondItem(second), false, Fallback.EMPTY_STATS,
                                            AcceptAll(second)).db;
               && |b.tasks| == 3
               && b.tasks[1].candidate == b.tasks[2].candidate && b.tasks[1].content != b.tasks[2].content
               && b.tasks[1].status == b.tasks[2].status == Submitted && b.tasks[2].supersedes == None
  {
    hide Submit, Sound, Paths.ResolveTaskDestination, Fallback.CandidateId, NextGeneration;
    hide Fallback.Conclude, Btih.NormalBtih, Fallback.SubmitItem;
    TwoCandidates(first, second);
    TwoDirectories(first);
    TwoDirectories(second);
    var db := Db([first, second], [], []);
    CandidateIds(db, first, second);
    LoopFallsBack(db, FirstItem(first, second), second);
    var a := Fallback.SubmitItem(db, SETTINGS, FirstItem(first, second), false, Fallback.EMPTY_STATS,
                                 RejectFirst(second)).db;
    CandidateIds(a, first, second);
    LoopLands(a, SecondItem(second), second);
  }

  /** A single candidate is accepted. */
  lemma LoopLands(db: Db, item: Fallback.Item, btih: string)
    requires Sound(db) && |db.logs| == |db.tasks| && Fallback.Prepared(db, item) && |item.accepted| == 1
    requires Free(db, item, 0)
    requires !Rivalled(db, ClaimOf(SETTINGS, ArgsAt(db, item, 0, 0, None), 0))
    ensures var after := Fallback.SubmitItem(db, SETTINGS, item, false, Fallback.EMPTY_STATS, AcceptAll(btih)).db;
            && Sound(after) && after.candidates == db.candidates && |after.logs| == |after.tasks|
            && |after.tasks| == |db.tasks| + 1 && db.tasks <= after.tasks
            && var t := after.tasks[|db.tasks|];
               && t.client == CLIENT_KEY && t.content == item.content && t.generation == 0 && t.supersedes == None
               && t.candidate == Fallback.CandidateId(db, item.accepted[0]) && t.status == Submitted
               && t.destination == Some(Paths.ResolveTaskDestination(item.directory, item.accepted[0]).value)
  {
    hide Submit, Sound, Paths.ResolveTaskDestination, Fallback.CandidateId, Fallback.Conclude, Btih.NormalBtih;
    AttemptLands(db, SETTINGS, item, 0, 0, None, SubmitAccepted(btih, []), 0);
    var o := Submit(db, SETTINGS, ArgsAt(db, item, 0, 0, None), SubmitAccepted(btih, []), 0);
    var candidate := Fallback.CandidateId(db, item.accepted[0]);
    Fallback.ConcludeEnds(o.db, Fallback.EMPTY_STATS.(submitAttempts := 1), item, candidate,
                          Fallback.Attempt(0, candidate, 0, None, Some(|db.tasks|)), o.result, false);
  }

  /**
   * The other way to the same failure: one content holds the hash from its first claim, and another falls
   * back onto it, at the generation after. Both are submitted, and neither supersedes the other.
   */
  lemma HashClaimedByFallback(first: string, second: string)
    requires Btih.NormalBtih(first) && Btih.NormalBtih(second) && first != second
    ensures var a := Fallback.SubmitItem(Db([first, second], [], []), SETTINGS, Fallback.Item(0, "/a", [second]), false,
                                         Fallback.EMPTY_STATS, AcceptAll(second)).db;
            && |a.logs| == |a.tasks| == 1
            && var b := Fallback.SubmitItem(a, SETTINGS, Fallback.Item(1, "/b", [first, second]), false,
                                            Fallback.EMPTY_STATS, RejectFirst(second)).db;
               && |b.tasks| == 3
               && b.tasks[0].candidate == b.tasks[2].candidate && b.tasks[0].content != b.tasks[2].content
               && b.tasks[0].status == b.tasks[2].status == Submitted
               && b.tasks[0].supersedes == None && b.tasks[1].supersedes == None && b.tasks[2].supersedes == Some(1)
  {
    hide Submit, Sound, Paths.ResolveTaskDestination, Fallback.CandidateId, NextGeneration;
    hide Fallback.Conclude, Btih.NormalBtih, Fallback.SubmitItem;
    TwoCandidates(first, second);
    TwoDirectories(first);
    TwoDirectories(second);
    ApartDirectories(second, first);
    var db := Db([first, second], [], []);
    CandidateIds(db, first, second);
    LoopLands(db, Fallback.Item(0, "/a", [second]), second);
    var a := Fallback.SubmitItem(db, SETTINGS, Fallback.Item(0, "/a", [second]), false, Fallback.EMPTY_STATS,
                                 AcceptAll(second)).db;
    CandidateIds(a, first, second);
    LoopFallsBack(a, Fallback.Item(1, "/b", [first, second]), second);
  }
}
