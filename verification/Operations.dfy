/**
 * The services' operations as sequences of transactions: submitting, retrying, submitting by hand, and the
 * whole fallback loop of an item. Every store they leave behind is therefore one that a run reaches.
 */
module Operations {
  import opened Wrappers
  import opened Store
  import opened Lifecycle
  import opened Submission
  import opened History
  import Btih
  import Fallback
  import Magnet
  import Paths

  // ---- Sequences of transactions ----

  /** Performing the transactions in order is possible and leads to `after`. */
  ghost predicate Leads(db: Db, config: Config, ops: seq<Op>, after: Db)
    decreases |ops|
  {
    if |ops| == 0 then db == after
    else Sound(db) && Possible(db, ops[0]) && Leads(Perform(db, config, ops[0], true), config, ops[1..], after)
  }

  /** Some sequence of transactions leads from one store to the other. */
  ghost predicate Reaches(db: Db, config: Config, after: Db) {
    exists ops :: Leads(db, config, ops, after)
  }

  lemma {:induction false} LeadsAppend(db: Db, config: Config, first: seq<Op>, middle: Db, second: seq<Op>, after: Db)
    requires Leads(db, config, first, middle) && Leads(middle, config, second, after)
    ensures Leads(db, config, first + second, after)
    decreases |first|
  {
    hide Perform, Possible, Sound;
    if |first| == 0 {
      assert first + second == second;
    } else {
      LeadsAppend(Perform(db, config, first[0], true), config, first[1..], middle, second, after);
      assert (first + second)[1..] == first[1..] + second;
    }
  }

  lemma ReachesTransitive(a: Db, config: Config, b: Db, c: Db)
    requires Reaches(a, config, b) && Reaches(b, config, c)
    ensures Reaches(a, config, c)
  {
    hide Leads;
    var first :| Leads(a, config, first, b);
    var second :| Leads(b, config, second, c);
    LeadsAppend(a, config, first, b, second, c);
  }

  lemma ReachesItself(db: Db, config: Config)
    ensures Reaches(db, config, db)
  {
    assert Leads(db, config, [], db);
  }

  lemma ReachesByOne(db: Db, config: Config, op: Op)
    requires Sound(db) && Possible(db, op)
    ensures Reaches(db, config, Perform(db, config, op, true))
  {
    hide Perform, Possible, Sound;
    assert [op][1..] == [];
    assert Leads(db, config, [op], Perform(db, config, op, true));
  }

  lemma {:induction false} LeadsSound(db: Db, config: Config, ops: seq<Op>, after: Db)
    requires Sound(db) && Leads(db, config, ops, after)
    ensures Sound(after)
    decreases |ops|
  {
    hide Perform, Possible, Sound;
    if |ops| != 0 {
      OperationKeepsSound(db, config, ops[0], true);
      LeadsSound(Perform(db, config, ops[0], true), config, ops[1..], after);
    }
  }

  lemma ReachesSound(db: Db, config: Config, after: Db)
    requires Sound(db) && Reaches(db, config, after)
    ensures Sound(after)
  {
    hide Leads, Sound;
    var ops :| Leads(db, config, ops, after);
    LeadsSound(db, config, ops, after);
  }

  /** The systems that the transactions lead through, after the first. */
  ghost function Trail(s: System, config: Config, ops: seq<Op>): seq<System>
    decreases |ops|
  {
    if |ops| == 0 then []
    else [Advance(s, config, ops[0], true)] + Trail(Advance(s, config, ops[0], true), config, ops[1..])
  }

  lemma {:induction false} TrailRuns(s: System, config: Config, ops: seq<Op>, after: Db)
    requires Consistent(s) && Leads(s.db, config, ops, after)
    ensures var systems := [s] + Trail(s, config, ops);
            && |systems| == |ops| + 1
            && systems[|ops|].db == after
            && forall k :: 0 <= k < |ops| ==>
                 Possible(systems[k].db, ops[k]) && systems[k + 1] == Advance(systems[k], config, ops[k], true)
    decreases |ops|
  {
    hide Perform, Possible, Consistent;
    if |ops| != 0 {
      ConsistentIsSound(s);
      StepKeepsConsistent(s, config, ops[0], true);
      var next := Advance(s, config, ops[0], true);
      TrailRuns(next, config, ops[1..], after);
      var systems, rest := [s] + Trail(s, config, ops), [next] + Trail(next, config, ops[1..]);
      assert systems == [s] + rest;
      forall k | 0 <= k < |ops|
        ensures Possible(systems[k].db, ops[k]) && systems[k + 1] == Advance(systems[k], config, ops[k], true)
      {
        if k > 0 { assert ops[k] == ops[1..][k - 1] && systems[k] == rest[k - 1] && systems[k + 1] == rest[k]; }
      }
    }
  }

  /** A run that ends in a store goes on to every store reached from there. */
  lemma RunsGoOn(config: Config, systems: seq<System>, ops: seq<Op>, after: Db)
    requires Run(config, true, systems, ops) && Reaches(systems[|ops|].db, config, after)
    ensures exists systems': seq<System>, ops': seq<Op> ::
              Run(config, true, systems', ops') && systems <= systems' && ops <= ops' && systems'[|ops'|].db == after
  {
    hide Leads, Advance, Possible, Consistent;
    var more :| Leads(systems[|ops|].db, config, more, after);
    ConsistentAt(config, true, systems, ops, |ops|);
    var trail := Trail(systems[|ops|], config, more);
    TrailRuns(systems[|ops|], config, more, after);
    var systems', ops' := systems + trail, ops + more;
    assert systems'[|ops|..] == [systems[|ops|]] + trail;
    forall k | 0 <= k < |ops'|
      ensures Possible(systems'[k].db, ops'[k]) && systems'[k + 1] == Advance(systems'[k], config, ops'[k], true)
    {
      if k >= |ops| {
        assert systems'[k] == systems'[|ops|..][k - |ops|] && systems'[k + 1] == systems'[|ops|..][k - |ops| + 1];
      }
    }
    assert systems'[|ops'|] == systems'[|ops|..][|more|];
    assert Run(config, true, systems', ops');
  }

  // ---- Submitting ----

  /** Submitting is a claim and, if the claim succeeds, the recording of the client's reply. */
  lemma SubmitReaches(db: Db, config: Config, args: SubmitArgs, reply: SubmitReply, now: int)
    requires Sound(db) && Honest(db, args) && |db.logs| == |db.tasks|
    ensures Reaches(db, config, Submit(db, config, args, reply, now).db)
  {
    hide Magnet.ParseMagnet, Sound, Honest, FirstClaim, DestinationTaken, Reaches, SubmitEvent;
    ReachesItself(db, config);
    var claimed := ClaimDownload(db, ClaimOf(config, args, now), now);
    if Submit(db, config, args, reply, now).db != db {
      ClaimKeepsSound(db, config, args, now);
      ReachesByOne(db, config, ClaimTask(args, now));
      ClaimIsUnsettled(db, config, args, now);
      ReachesByOne(claimed.value, config, SettleTask(|db.tasks|, reply, now));
      ReachesTransitive(db, config, claimed.value, Submit(db, config, args, reply, now).db);
    }
  }

  lemma ClaimIsUnsettled(db: Db, config: Config, args: SubmitArgs, now: int)
    requires |db.logs| == |db.tasks| && ClaimDownload(db, ClaimOf(config, args, now), now).Ok?
    ensures var claimed := ClaimDownload(db, ClaimOf(config, args, now), now).value;
            Unsettled(claimed, |db.tasks|) && claimed.tasks[|db.tasks|] == NewTask(ClaimOf(config, args, now))
  {
    hide FirstClaim, DestinationTaken;
  }

  lemma RetryReaches(db: Db, config: Config, id: TaskId, confirmed: bool, reply: SubmitReply, now: int)
    requires Sound(db) && |db.logs| == |db.tasks|
    ensures id < |db.tasks| ==> OwnDirectory(db.candidates, db.tasks[id])
    ensures Reaches(db, config, Retry(db, config, id, confirmed, reply, now).db)
  {
    hide Submit, Sound, Honest, Reaches, NextGeneration, DestinationOf;
    ReachesItself(db, config);
    if id < |db.tasks| {
      RetryIsHonest(db, id);
      SubmitReaches(db, config, RetryArgs(db, id), reply, now);
    }
  }

  lemma MagnetReaches(db: Db, config: Config, content: nat, magnetUri: string, directory: string, force: bool,
                      confirmed: bool, duplicate: Option<TaskId>, reply: SubmitReply, now: int)
    requires Sound(db) && |db.logs| == |db.tasks|
    requires ParseByHand(magnetUri).Ok? ==> LookupAnswer(db, ParseByHand(magnetUri).value.btih, duplicate)
    ensures Reaches(db, config,
                    SubmitMagnet(db, config, content, magnetUri, directory, force, confirmed, duplicate, reply, now).db)
  {
    hide Submit, Sound, Honest, Reaches, NextGeneration, Magnet.ParseMagnet, Magnet.CanonicalUri;
    hide Paths.ResolveTaskDestination, UpsertCandidate, LookupAnswer;
    ReachesItself(db, config);
    var parsed := ParseByHand(magnetUri);
    if parsed.Ok? && (duplicate.Some? <==> force) {
      var btih := parsed.value.btih;
      ParsedIsNormal(magnetUri);
      PrepareKeepsSound(db, btih);
      ReachesByOne(db, config, Prepare(btih));
      var (stored, candidate) := UpsertCandidate(db, btih);
      var destination := Paths.ResolveTaskDestination(directory, btih);
      if destination.Ok? {
        FollowingIsHonest(db, content, magnetUri, directory, duplicate);
        var args := Following(stored, content, candidate, Magnet.CanonicalUri(parsed.value), destination.value,
                              duplicate);
        SubmitReaches(stored, config, args, reply, now);
        ReachesTransitive(db, config, stored, Submit(stored, config, args, reply, now).db);
      }
    }
  }

  lemma AuthorizedReaches(db: Db, config: Config, content: nat, magnetUri: string, directory: string,
                          confirmed: bool, duplicate: Option<TaskId>, reply: SubmitReply, now: int)
    requires Sound(db) && |db.logs| == |db.tasks|
    requires ParseByHand(magnetUri).Ok? ==> LookupAnswer(db, ParseByHand(magnetUri).value.btih, duplicate)
    ensures Reaches(db, config,
                    SubmitAuthorized(db, config, content, magnetUri, directory, confirmed, duplicate, reply, now).db)
  {
    hide Sound, Reaches, LookupAnswer, SubmitMagnet, SubmitAuthorized;
    AuthorizedIsUnforced(db, config, content, magnetUri, directory, confirmed, duplicate, reply, now);
    MagnetReaches(db, config, content, magnetUri, directory, false, confirmed, duplicate, reply, now);
  }

  lemma ChosenReaches(db: Db, config: Config, content: nat, candidate: nat, magnetUri: string, directory: string,
                      confirmed: bool, reply: SubmitReply, now: int)
    requires Sound(db) && |db.logs| == |db.tasks|
    ensures Reaches(db, config,
                    SubmitChosen(db, config, content, candidate, magnetUri, directory, confirmed, reply, now).db)
  {
    hide Submit, Reaches, DestinationOf, Paths.ResolveTaskDestination, Btih.NormalBtih;
    ReachesItself(db, config);
    if confirmed && candidate < |db.candidates| {
      var destination := Paths.ResolveTaskDestination(directory, db.candidates[candidate]);
      if destination.Ok? {
        ResolvedDirectory(directory, db.candidates[candidate]);
        SubmitReaches(db, config, SubmitArgs(content, candidate, magnetUri, destination.value, 0, None), reply, now);
      }
    }
  }

  // ---- The fallback loop ----

  /** The loop of an item is its attempts, one after the other. */
  lemma {:induction false} LoopReaches(db: Db, config: Config, item: Fallback.Item, i: nat, generation: nat,
                                       supersedes: Option<TaskId>, partial: bool, stats: Fallback.Stats,
                                       remote: Fallback.Remote)
    requires Sound(db) && |db.logs| == |db.tasks| && Fallback.Prepared(db, item) && i < |item.accepted|
    requires supersedes.Some? ==> Fallback.LinksTo(db, item, generation, supersedes.value)
    ensures Reaches(db, config, Fallback.Loop(db, config, item, i, generation, supersedes, partial, stats, remote).db)
    decreases |item.accepted| - i
  {
    hide Submit, Sound, Honest, Reaches, NextGeneration, Fallback.Conclude, Fallback.CandidateId;
    hide Paths.ResolveTaskDestination;
    var candidate := Fallback.CandidateId(db, item.accepted[i]);
    var destination := Paths.ResolveTaskDestination(item.directory, item.accepted[i]);
    ReachesItself(db, config);
    if destination.Ok? {
      Fallback.AttemptIsHonest(db, item, i, generation, supersedes);
      var args := Fallback.AttemptArgs(item, candidate, i, destination.value, generation, supersedes);
      SubmitReaches(db, config, args, remote.reply(i), remote.now(i));
      SubmitAppendsOnly(db, config, args, remote.reply(i), remote.now(i));
      var o := Submit(db, config, args, remote.reply(i), remote.now(i));
      ReachesSound(db, config, o.db);
      var counted := stats.(submitAttempts := stats.submitAttempts + 1);
      if Fallback.FallsBack(o.db, item, i, o.result) {
        var next := Fallback.CandidateId(o.db, item.accepted[i + 1]);
        var stats' := counted.(submitFailures := counted.submitFailures + 1,
                               candidateFallbacks := counted.candidateFallbacks + 1);
        var generation' := NextGeneration(o.db, CLIENT_KEY, item.content, next);
        RejectedLinks(o.db, item, next, o.result.value);
        LoopReaches(o.db, config, item, i + 1, generation', Some(o.result.value), true, stats', remote);
        ReachesTransitive(db, config, o.db,
                          Fallback.Loop(o.db, config, item, i + 1, generation', Some(o.result.value), true, stats',
                                        remote).db);
      } else {
        var attempt := Fallback.Attempt(i, candidate, generation, supersedes,
                                        if o.result.Ok? then Some(o.result.value) else None);
        Fallback.ConcludeEnds(o.db, counted, item, candidate, attempt, o.result, partial);
      }
    }
  }

  /** The next generation continues the rejected attempt. */
  lemma RejectedLinks(db: Db, item: Fallback.Item, next: nat, id: TaskId)
    requires Sound(db) && id < |db.tasks| && db.tasks[id].content == item.content
    ensures Fallback.LinksTo(db, item, NextGeneration(db, CLIENT_KEY, item.content, next), id)
  {
    NextExceeds(db, item.content, next, id);
  }
}
