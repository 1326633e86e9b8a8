/**
 * The poller skips an uneventful observation that repeats the newest event. Skipping is a stutter: a
 * poller that records every observation takes every task through the same states.
 */
module Stutter {
  import opened Wrappers
  import opened DownloadState
  import opened Store
  import opened Lifecycle
  import opened Submission
  import opened History
  import Btih
  import Completion

  /** Two events alike, up to their place in the log and their time. */
  ghost predicate Alike(e: Event, f: Event) {
    e.status == f.status && e.source == f.source && e.evidence == f.evidence
  }

  ghost predicate SameEnd(log: seq<Event>, log': seq<Event>) {
    |log| > 0 && |log'| > 0 && Alike(log[|log| - 1], log'[|log'| - 1])
  }

  /** The same tasks; the logs may differ, but end alike. */
  ghost predicate Mirrors(a: Db, b: Db) {
    && a.candidates == b.candidates && a.tasks == b.tasks
    && |a.logs| == |a.tasks| && |b.logs| == |b.tasks|
    && forall i :: 0 <= i < |a.logs| ==> SameEnd(a.logs[i], b.logs[i])
  }

  lemma ClaimMirrors(a: Db, b: Db, c: Claim, now: int)
    requires Mirrors(a, b)
    ensures var ra, rb := ClaimDownload(a, c, now), ClaimDownload(b, c, now);
            && (ra.Ok? <==> rb.Ok?)
            && (ra.Err? ==> ra.error == rb.error)
            && (ra.Ok? ==> Mirrors(ra.value, rb.value))
  {
    hide FirstClaim, DestinationTaken;
  }

  lemma AppendMirrors(a: Db, b: Db, id: TaskId, u: Update)
    requires Mirrors(a, b)
    ensures var ra, rb := AppendEvent(a, id, u), AppendEvent(b, id, u);
            && (ra.Ok? <==> rb.Ok?)
            && (ra.Err? ==> ra.error == rb.error)
            && (ra.Ok? ==> Mirrors(ra.value, rb.value))
  {
    hide DestinationTaken, MaxSequence;
  }

  lemma SettleMirrors(a: Db, b: Db, config: Config, id: TaskId, reply: SubmitReply, now: int)
    requires Mirrors(a, b) && Unsettled(a, id) && Unsettled(b, id)
    ensures Mirrors(SettleRow(a, config, id, reply, now).db, SettleRow(b, config, id, reply, now).db)
  {
    hide SubmitEvent, AppendEvent;
    var event := SubmitEvent(config, a.tasks[id].destination.value, reply, now);
    if event.Ok? {
      AppendMirrors(a, b, id, event.value);
    }
  }

  /** Recording a repeated uneventful observation would change nothing but the log. */
  lemma RepeatedAppendIsStutter(db: Db, id: TaskId, snapshot: Completion.Snapshot, now: int)
    requires Sound(db) && |db.logs| == |db.tasks| && id < |db.tasks| && Active(db.tasks[id].status)
    requires Quiet(db.tasks[id], db.logs[id]) && LogOk(db.tasks[id], db.logs[id])
    requires db.tasks[id].completion.Some?
    requires Completion.Observe(db.tasks[id].completion.value, snapshot).Ok?
    requires var t := db.tasks[id];
             var o := Completion.Observe(t.completion.value, snapshot).value;
             Repeats(t, db.logs[id], FileTarget(t, o, now), o)
    ensures var t := db.tasks[id];
            var o := Completion.Observe(t.completion.value, snapshot).value;
            var u := FileUpdate(FileTarget(t, o, now), o, now);
            && Apply(t, u) == t
            && AppendEvent(db, id, u).Ok?
            && AppendEvent(db, id, u).value.tasks == db.tasks
  {
    hide Completion.Observe, MaxSequence;
    var t := db.tasks[id];
    var o := Completion.Observe(t.completion.value, snapshot).value;
    var u := FileUpdate(FileTarget(t, o, now), o, now);
    assert Apply(t, u) == t;
    if Waiting(t) {
      NoOtherWaits(db.tasks, id);
    }
    assert !DestinationTaken(db.tasks, t, id);
    assert db.tasks[id := t] == db.tasks;
  }

  /** One poll of each kind, from mirrored databases: same answer, mirrored databases. */
  lemma FilePollMirrors(a: Db, b: Db, id: TaskId, snapshot: Completion.Snapshot, now: int)
    requires Mirrors(a, b) && Sound(b) && id < |a.tasks| && Active(a.tasks[id].status) && a.tasks[id].completion.Some?
    requires Quiet(b.tasks[id], b.logs[id]) && LogOk(b.tasks[id], b.logs[id])
    ensures var oa := Carry(a, id, FilePlan(a.tasks[id], a.logs[id], true, snapshot, now));
            var ob := Carry(b, id, FilePlan(b.tasks[id], b.logs[id], false, snapshot, now));
            oa.result == ob.result && Mirrors(oa.db, ob.db)
  {
    hide FilePlan, Sound, AppendEvent, Completion.Observe, Quiet, LogOk;
    var t := a.tasks[id];
    FilePlanOk(t, a.logs[id], true, snapshot, now);
    FilePlanOk(t, b.logs[id], false, snapshot, now);
    var plan, plan' := FilePlan(t, a.logs[id], true, snapshot, now), FilePlan(t, b.logs[id], false, snapshot, now);
    if plan.Write? {
      AppendMirrors(a, b, id, plan.update);
    } else if plan.Skip? {
      assert SameEnd(a.logs[id], b.logs[id]);
      RepeatedAppendIsStutter(b, id, snapshot, now);
      StutterKeepsMirror(a, b, id, plan'.update);
    }
  }

  lemma StutterKeepsMirror(a: Db, b: Db, id: TaskId, u: Update)
    requires Mirrors(a, b) && id < |a.tasks|
    requires AppendEvent(b, id, u).Ok? && AppendEvent(b, id, u).value.tasks == b.tasks
    requires var e := a.logs[id][|a.logs[id]| - 1];
             e.status == u.status && e.source == u.source && e.evidence == u.evidence
    ensures Mirrors(a, AppendEvent(b, id, u).value)
  {
    hide DestinationTaken, MaxSequence;
  }

  lemma LogsIndependent(t: Task, log: seq<Event>, log': seq<Event>, signal: SignalReply, listing: ListingReply,
                        now: int)
    requires !(signal == Signal(SignalUnknown) && Observable(t) && listing.Listing?)
    ensures PollPlan(t, log, true, signal, listing, now) == PollPlan(t, log', false, signal, listing, now)
  {
  }

  lemma PollMirrors(a: Db, b: Db, id: TaskId, signal: SignalReply, listing: ListingReply, now: int)
    requires Mirrors(a, b) && Sound(b)
    requires id < |b.tasks| ==> Quiet(b.tasks[id], b.logs[id]) && LogOk(b.tasks[id], b.logs[id])
    ensures var oa, ob := Poll(a, id, true, signal, listing, now), Poll(b, id, false, signal, listing, now);
            oa.result == ob.result && Mirrors(oa.db, ob.db)
  {
    hide PollPlan, FilePlan, AppendEvent, Sound, Quiet, LogOk;
    if id < |a.tasks| && Active(a.tasks[id].status) {
      var t := a.tasks[id];
      if signal == Signal(SignalUnknown) && Observable(t) && listing.Listing? {
        ObservedPlan(t, a.logs[id], true, listing, now);
        ObservedPlan(t, b.logs[id], false, listing, now);
        FilePollMirrors(a, b, id, listing.snapshot, now);
      } else {
        LogsIndependent(t, a.logs[id], b.logs[id], signal, listing, now);
        var plan := PollPlan(t, a.logs[id], true, signal, listing, now);
        OtherPlan(t, a.logs[id], true, signal, listing, now);
        AppendMirrors(a, b, id, plan.update);
      }
    }
  }

  lemma ManualMirrors(a: Db, b: Db, id: TaskId, confirmed: bool, now: int)
    requires Mirrors(a, b)
    ensures var oa, ob := ManualComplete(a, id, confirmed, now), ManualComplete(b, id, confirmed, now);
            oa.result == ob.result && Mirrors(oa.db, ob.db)
  {
    hide AppendEvent;
    if id < |a.tasks| {
      var r := Transition(a.tasks[id].status, Some(Completed), true, None, None);
      if r.Ok? {
        AppendMirrors(a, b, id, Plain(r.value, ManualConfirmation, now).(source := Manual));
      }
    }
  }

  lemma OperationMirrors(a: Db, b: Db, config: Config, op: Op)
    requires Mirrors(a, b) && Sound(a) && Sound(b) && Possible(a, op) && Possible(b, op)
    requires forall i :: 0 <= i < |b.tasks| ==> Quiet(b.tasks[i], b.logs[i])
    ensures Mirrors(Perform(a, config, op, true), Perform(b, config, op, false))
  {
    hide Poll, ManualComplete, SettleRow, ClaimDownload, Valid, Honest, FindCandidate, SameEnd, Quiet;
    SoundShape(a);
    SoundShape(b);
    match op {
      case Prepare(btih) =>
      case ClaimTask(args, now) =>
        ClaimMirrors(a, b, ClaimOf(config, args, now), now);
      case SettleTask(id, reply, now) =>
        SettleMirrors(a, b, config, id, reply, now);
      case PollTask(id, signal, listing, now) =>
        SoundLog(b, id);
        PollMirrors(a, b, id, signal, listing, now);
      case CompleteTask(id, confirmed, now) =>
        ManualMirrors(a, b, id, confirmed, now);
    }
  }

  /** What is possible does not depend on the logs, except on how they end. */
  lemma PossibleMirrors(a: Db, b: Db, op: Op)
    requires Mirrors(a, b) && Possible(a, op)
    ensures Possible(b, op)
  {
    hide DestinationOf, Btih.NormalBtih, Completion.Inside;
    if op.SettleTask? {
      assert SameEnd(a.logs[op.id], b.logs[op.id]);
    }
  }

  lemma SoundLog(db: Db, id: TaskId)
    requires Sound(db)
    ensures |db.logs| == |db.tasks|
    ensures id < |db.tasks| ==> LogOk(db.tasks[id], db.logs[id])
  {
  }

  /**
   * The deduplicating poller and one that records every observation, driven by the same operations and
   * the same remote replies, hold the same tasks after every step of every run.
   */
  lemma {:induction false} DeduplicationIsInvisible(config: Config, quiet: seq<System>, verbose: seq<System>,
                                                    ops: seq<Op>, k: nat)
    requires Run(config, true, quiet, ops) && Run(config, false, verbose, ops) && k < |quiet|
    ensures Mirrors(quiet[k].db, verbose[k].db)
  {
    hide Step, Consistent, Mirrors, Possible, Advance;
    if k == 0 {
      EmptyMirrors();
    } else {
      DeduplicationIsInvisible(config, quiet, verbose, ops, k - 1);
      ConsistentAt(config, true, quiet, ops, k - 1);
      ConsistentAt(config, false, verbose, ops, k - 1);
      StepMirrors(config, quiet[k - 1], verbose[k - 1], ops[k - 1]);
    }
  }

  lemma RunPrefix(config: Config, deduplicate: bool, systems: seq<System>, ops: seq<Op>)
    requires Run(config, deduplicate, systems, ops) && |ops| > 0
    ensures Run(config, deduplicate, systems[..|ops|], ops[..|ops| - 1])
  {
    hide Possible, Advance;
  }

  lemma RunGrows(config: Config, deduplicate: bool, systems: seq<System>, ops: seq<Op>, op: Op)
    requires Run(config, deduplicate, systems, ops) && Possible(systems[|ops|].db, op)
    ensures Run(config, deduplicate, systems + [Advance(systems[|ops|], config, op, deduplicate)], ops + [op])
  {
    hide Possible, Advance;
  }

  /**
   * Every run of the deduplicating poller has a run of the recording one beside it, with the same operations and
   * the same tasks.
   */
  lemma {:induction false} RecordingRunExists(config: Config, quiet: seq<System>, ops: seq<Op>)
    requires Run(config, true, quiet, ops)
    ensures exists verbose: seq<System> ::
              Run(config, false, verbose, ops) && |verbose| == |quiet|
              && forall k :: 0 <= k < |quiet| ==> Mirrors(quiet[k].db, verbose[k].db)
    decreases |ops|
  {
    hide Possible, Advance, Mirrors, Consistent;
    if |ops| == 0 {
      EmptyMirrors();
      assert Run(config, false, [EMPTY], ops);
    } else {
      var n := |ops| - 1;
      RunPrefix(config, true, quiet, ops);
      RecordingRunExists(config, quiet[..|ops|], ops[..n]);
      var verbose: seq<System> :| Run(config, false, verbose, ops[..n]) && |verbose| == |ops|
                                  && forall k :: 0 <= k < |ops| ==> Mirrors(quiet[..|ops|][k].db, verbose[k].db);
      assert Mirrors(quiet[..|ops|][n].db, verbose[n].db);
      PossibleMirrors(quiet[n].db, verbose[n].db, ops[n]);
      RunGrows(config, false, verbose, ops[..n], ops[n]);
      assert ops[..n] + [ops[n]] == ops;
      var all := verbose + [Advance(verbose[n], config, ops[n], false)];
      forall k | 0 <= k < |quiet| ensures Mirrors(quiet[k].db, all[k].db) {
        DeduplicationIsInvisible(config, quiet, all, ops, k);
      }
    }
  }

  lemma EmptyMirrors()
    ensures Mirrors(EMPTY.db, EMPTY.db)
  {
  }

  lemma RowsAreQuiet(s: System)
    requires Consistent(s)
    ensures |s.db.logs| == |s.db.tasks|
    ensures forall i :: 0 <= i < |s.db.tasks| ==> Quiet(s.db.tasks[i], s.db.logs[i])
  {
    SoundShape(s.db);
    forall i | 0 <= i < |s.db.tasks| ensures Quiet(s.db.tasks[i], s.db.logs[i]) {
      assert RowOk(s.db.tasks[i], s.db.logs[i], s.seen[i]);
    }
  }

  lemma StepMirrors(config: Config, a: System, b: System, op: Op)
    requires Consistent(a) && Consistent(b) && Mirrors(a.db, b.db) && Possible(a.db, op) && Possible(b.db, op)
    ensures Mirrors(Step(a, config, op, true).db, Step(b, config, op, false).db)
  {
    hide Perform, Mirrors, Possible, Sound, RowOk;
    SoundShape(b.db);
    RowsAreQuiet(b);
    OperationMirrors(a.db, b.db, config, op);
  }
}
