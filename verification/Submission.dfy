/**
 * The callers of `submit_candidate` other than the run loop: retrying a task (downloads/service.py)
 * and submitting a magnet by hand (manual.py). All of them choose a generation and a predecessor.
 */
module Submission {
  import opened Wrappers
  import opened DownloadState
  import opened Store
  import opened Lifecycle
  import Btih
  import Magnet
  import Paths

  /** Every task is claimed for the one download client. */
  ghost predicate OneClient(tasks: seq<Task>) {
    forall i :: 0 <= i < |tasks| ==> tasks[i].client == CLIENT_KEY
  }

  ghost predicate Sound(db: Db) {
    Valid(db) && OneClient(db.tasks)
  }

  /** A submission that starts a history at generation zero, or continues one at the next generation. */
  function Following(db: Db, content: nat, candidate: nat, magnetUri: string, destination: string,
                     predecessor: Option<TaskId>): SubmitArgs {
    SubmitArgs(content, candidate, magnetUri, destination,
               if predecessor.None? then 0 else NextGeneration(db, CLIENT_KEY, content, candidate),
               predecessor)
  }

  /** What all callers have in common. */
  ghost predicate Honest(db: Db, args: SubmitArgs) {
    && args.candidate < |db.candidates|
    && DestinationOf(args.destination, db.candidates[args.candidate])
    && (args.supersedes.Some? ==>
          && args.supersedes.value < |db.tasks|
          && Claims(db.tasks[args.supersedes.value], CLIENT_KEY, args.content, args.candidate)
          && db.tasks[args.supersedes.value].generation < args.generation)
  }

  /** The generation is the next one, read off the very store the claim is made on. */
  predicate AtNextGeneration(db: Db, args: SubmitArgs) {
    args.generation == NextGeneration(db, CLIENT_KEY, args.content, args.candidate)
  }

  /** A predecessor that claims the content or the hash lies below the next generation. */
  lemma NextExceeds(db: Db, content: nat, candidate: nat, id: TaskId)
    requires id < |db.tasks| && Claims(db.tasks[id], CLIENT_KEY, content, candidate)
    ensures NextGeneration(db, CLIENT_KEY, content, candidate) > db.tasks[id].generation
  {
  }

  /** Submitting adds at most one row, the last one, and touches no other. */
  lemma SubmitAppendsOnly(db: Db, config: Config, args: SubmitArgs, reply: SubmitReply, now: int)
    requires |db.logs| == |db.tasks|
    ensures var o := Submit(db, config, args, reply, now);
            && o.db.candidates == db.candidates
            && |o.db.tasks| == |o.db.logs|
            && db.tasks <= o.db.tasks && db.logs <= o.db.logs
            && |o.db.tasks| <= |db.tasks| + 1
            && (o.result.Ok? ==> o.result.value == |db.tasks| && |o.db.tasks| == |db.tasks| + 1)
            && (|o.db.tasks| > |db.tasks| ==>
                  SameIdentity(o.db.tasks[|db.tasks|], NewTask(ClaimOf(config, args, now)))
                  && !o.db.tasks[|db.tasks|].owned)
  {
    hide Magnet.ParseMagnet, FirstClaim, DestinationTaken, MaxSequence;
    var c := ClaimOf(config, args, now);
    var claimed := ClaimDownload(db, c, now);
    if claimed.Ok? {
      var id := |db.tasks|;
      assert claimed.value.tasks[id] == NewTask(c);
      var event := SubmitEvent(config, args.destination, reply, now);
      SubmitEventFollows(config, args.destination, reply, now);
      if event.Ok? {
        assert SameIdentity(Apply(NewTask(c), event.value), NewTask(c));
      }
    }
  }

  lemma SubmitKeepsSound(db: Db, config: Config, args: SubmitArgs, reply: SubmitReply, now: int)
    requires Sound(db) && Honest(db, args)
    ensures Sound(Submit(db, config, args, reply, now).db)
    ensures AtNextGeneration(db, args) ==>
              Submit(db, config, args, reply, now).result != Err(ClaimRefused(IdempotencyConflict))
  {
    hide Magnet.ParseMagnet, FirstClaim, DestinationTaken, Valid, DestinationOf, Submit, NextGeneration;
    HonestClaim(db, config, args, now);
    SoundLogs(db);
    SubmitKeepsValid(db, config, args, reply, now);
    SubmitAppendsOnly(db, config, args, reply, now);
    if AtNextGeneration(db, args) {
      NextGenerationNeverConflicts(db, ClaimOf(config, args, now), now);
      if Submit(db, config, args, reply, now).result == Err(ClaimRefused(IdempotencyConflict)) {
        ClaimConflictOnly(db, config, args, reply, now);
      }
    }
  }

  /** Everything a submission does whose link names the candidate's hash. */
  ghost predicate Submits(db: Db, config: Config, args: SubmitArgs, reply: SubmitReply, now: int,
                          o: Outcome<Result<TaskId, SubmitError>>) {
    var c := ClaimOf(config, args, now);
    var unusable := config.requiredObservations < 2 || !("/" <= args.destination);
    if Rivalled(db, c) then o == Outcome(db, Err(ClaimRefused(IdempotencyConflict)))
    else if Awaited(db, c) then o == Outcome(db, Err(ClaimRefused(DestinationBusy)))
    else
      && |o.db.tasks| == |o.db.logs| == |db.tasks| + 1
      && db.tasks <= o.db.tasks && db.logs <= o.db.logs && o.db.candidates == db.candidates
      && Submission(o.db.tasks[|db.tasks|], args, config, reply, now)
      && o.result == (if reply.Crashed? then Err(ClientCrashed)
                      else if BaselineIn(reply).Some? && unusable then Err(InvalidCompletionState)
                      else Ok(|db.tasks|))
  }

  lemma SubmitsExactly(db: Db, config: Config, args: SubmitArgs, reply: SubmitReply, now: int)
    requires Sound(db) && Honest(db, args)
    requires Magnet.ParseMagnet(args.magnetUri).Ok?
    requires Magnet.ParseMagnet(args.magnetUri).value.btih == db.candidates[args.candidate]
    ensures |db.logs| == |db.tasks|
    ensures Submits(db, config, args, reply, now, Submit(db, config, args, reply, now))
  {
    hide Submit, Magnet.ParseMagnet, Rivalled, Awaited, Valid, Honest, Submission;
    HonestClaim(db, config, args, now);
    SubmitRefusals(db, config, args, reply, now);
    SubmitOutcome(db, config, args, reply, now);
  }

  lemma SoundLogs(db: Db)
    requires Sound(db)
    ensures |db.logs| == |db.tasks|
  {
  }

  lemma HonestClaim(db: Db, config: Config, args: SubmitArgs, now: int)
    requires Sound(db) && Honest(db, args)
    ensures ClaimOk(db, ClaimOf(config, args, now))
  {
  }

  /** A submission reports a conflict only when its claim did. */
  lemma ClaimConflictOnly(db: Db, config: Config, args: SubmitArgs, reply: SubmitReply, now: int)
    requires |db.logs| == |db.tasks|
    requires Submit(db, config, args, reply, now).result == Err(ClaimRefused(IdempotencyConflict))
    ensures ClaimDownload(db, ClaimOf(config, args, now), now) == Err(IdempotencyConflict)
    ensures Submit(db, config, args, reply, now).db == db
  {
    hide Magnet.ParseMagnet;
  }

  // ---- Retry ----

  datatype RetryError = NothingToRetry | RetryNotConfirmed | RetryFailed(cause: SubmitError)

  function RetryArgs(db: Db, id: TaskId): SubmitArgs
    requires id < |db.tasks| && db.tasks[id].candidate < |db.candidates| && db.tasks[id].destination.Some?
  {
    var t := db.tasks[id];
    SubmitArgs(t.content, t.candidate, "magnet:?xt=urn:btih:" + db.candidates[t.candidate], t.destination.value,
               NextGeneration(db, t.client, t.content, t.candidate), Some(id))
  }

  /** `retry`. Every stored task has a directory and a candidate, which `Valid` records. */
  function Retry(db: Db, config: Config, id: TaskId, confirmed: bool, reply: SubmitReply,
                 now: int): Outcome<Result<TaskId, RetryError>>
    requires |db.logs| == |db.tasks|
    requires id < |db.tasks| ==> db.tasks[id].candidate < |db.candidates| && db.tasks[id].destination.Some?
  {
    if id >= |db.tasks| then Outcome(db, Err(NothingToRetry))
    else if db.tasks[id].status != Failed && !confirmed then Outcome(db, Err(RetryNotConfirmed))
    else
      var o := Submit(db, config, RetryArgs(db, id), reply, now);
      Outcome(o.db, if o.result.Ok? then Ok(o.result.value) else Err(RetryFailed(o.result.error)))
  }

  lemma RetryIsHonest(db: Db, id: TaskId)
    requires Sound(db) && id < |db.tasks|
    ensures OwnDirectory(db.candidates, db.tasks[id]) && Honest(db, RetryArgs(db, id))
    ensures AtNextGeneration(db, RetryArgs(db, id))
  {
    assert OwnDirectory(db.candidates, db.tasks[id]);
  }

  /** A retry's answer: a linked task one generation up, or a refusal that a retry can meet. */
  ghost predicate ForwardRetry(db: Db, id: TaskId, o: Outcome<Result<TaskId, RetryError>>)
    requires id < |db.tasks|
  {
    && (o.result.Ok? ==>
          && o.result.value == |db.tasks| < |o.db.tasks|
          && var s, t := db.tasks[id], o.db.tasks[o.result.value];
             && t.supersedes == Some(id) && t.generation > s.generation
             && t.content == s.content && t.candidate == s.candidate && t.destination == s.destination)
    && (o.result.Err? ==>
          || o.result.error == RetryNotConfirmed
          || o.result.error == RetryFailed(ClaimRefused(DestinationBusy))
          || o.result.error == RetryFailed(ClientCrashed)
          || o.result.error == RetryFailed(InvalidCompletionState))
  }

  lemma SubmitErrors(db: Db, config: Config, args: SubmitArgs, reply: SubmitReply, now: int)
    requires Valid(db) && ClaimOk(db, ClaimOf(config, args, now))
    requires Magnet.ParseMagnet(args.magnetUri).Ok?
    requires Magnet.ParseMagnet(args.magnetUri).value.btih == db.candidates[args.candidate]
    ensures var r := Submit(db, config, args, reply, now).result;
            r.Err? ==> || r.error == ClaimRefused(DestinationBusy) || r.error == ClaimRefused(IdempotencyConflict)
                       || r.error == ClientCrashed || r.error == InvalidCompletionState
  {
    hide Magnet.ParseMagnet;
    SubmitKeepsValid(db, config, args, reply, now);
    ClaimOutcome(db, ClaimOf(config, args, now), now);
  }

  /**
   * A retry of any stored task, whatever the client answers: it is a new task for the same content,
   * hash and directory at a strictly higher generation, linked to the retried one; the link it carries
   * parses to the stored hash, and the database only refuses it for a busy directory.
   */
  lemma RetryLinksForward(db: Db, config: Config, id: TaskId, confirmed: bool, reply: SubmitReply, now: int)
    requires Sound(db) && id < |db.tasks|
    ensures OwnDirectory(db.candidates, db.tasks[id])
    ensures var o := Retry(db, config, id, confirmed, reply, now);
            Sound(o.db) && db.tasks <= o.db.tasks && db.logs <= o.db.logs && ForwardRetry(db, id, o)
  {
    hide Magnet.ParseMagnet, Submit, NextGeneration, Valid, DestinationOf;
    SoundLogs(db);
    RetryIsHonest(db, id);
    var args := RetryArgs(db, id);
    HonestClaim(db, config, args, now);
    SubmitKeepsSound(db, config, args, reply, now);
    SubmitAppendsOnly(db, config, args, reply, now);
    LinkRises(db, id);
    StoredHashIsNormal(db, id);
    Magnet.ParseBareLink(db.candidates[db.tasks[id].candidate]);
    SubmitErrors(db, config, args, reply, now);
  }

  /** Exactly what a retry does: it is refused unread, or it submits the task's own hash again, one generation up. */
  lemma RetryOutcome(db: Db, config: Config, id: TaskId, confirmed: bool, reply: SubmitReply, now: int)
    requires Sound(db)
    ensures |db.logs| == |db.tasks|
    ensures id < |db.tasks| ==> OwnDirectory(db.candidates, db.tasks[id])
    ensures var o := Retry(db, config, id, confirmed, reply, now);
            if id >= |db.tasks| then o == Outcome(db, Err(NothingToRetry))
            else if db.tasks[id].status != Failed && !confirmed then o == Outcome(db, Err(RetryNotConfirmed))
            else
              var t := db.tasks[id];
              var args := SubmitArgs(t.content, t.candidate, "magnet:?xt=urn:btih:" + db.candidates[t.candidate],
                                     t.destination.value, NextGeneration(db, CLIENT_KEY, t.content, t.candidate),
                                     Some(id));
              exists s :: && Submits(db, config, args, reply, now, s)
                          && o.db == s.db
                          && o.result == (if s.result.Ok? then Ok(s.result.value) else Err(RetryFailed(s.result.error)))
  {
    hide Magnet.ParseMagnet, Submit, NextGeneration, Valid, DestinationOf, Submits, Honest;
    SoundLogs(db);
    if id < |db.tasks| {
      RetryIsHonest(db, id);
      var args := RetryArgs(db, id);
      StoredHashIsNormal(db, id);
      Magnet.ParseBareLink(db.candidates[db.tasks[id].candidate]);
      SubmitsExactly(db, config, args, reply, now);
    }
  }

  lemma StoredHashIsNormal(db: Db, id: TaskId)
    requires Valid(db) && id < |db.tasks| && db.tasks[id].candidate < |db.candidates|
    ensures Btih.NormalBtih(db.candidates[db.tasks[id].candidate])
  {
    StoredIsNormal(db, db.tasks[id].candidate);
  }

  lemma LinkRises(db: Db, id: TaskId)
    requires id < |db.tasks| && db.tasks[id].candidate < |db.candidates| && db.tasks[id].destination.Some?
    ensures RetryArgs(db, id).generation > db.tasks[id].generation
  {
  }

  // ---- Magnets submitted by hand ----

  datatype MagnetError =
    | NotConfirmed
    | InvalidMagnet
    | ForceConfirmationRequired
    | ForceNotRequired
    | BadDestination
    | DuplicateDownload
    | CandidateNotAccepted
    | SubmitRaised(cause: SubmitError)

  ghost predicate HasHash(db: Db, t: Task, btih: string) {
    t.candidate < |db.candidates| && db.candidates[t.candidate] == btih
  }

  /** An answer of `find_download_by_btih`: nothing, if no task has the hash, or some task that has it. */
  ghost predicate LookupAnswer(db: Db, btih: string, found: Option<TaskId>) {
    && (found.Some? ==> found.value < |db.tasks| && HasHash(db, db.tasks[found.value], btih))
    && (found.None? ==> forall i :: 0 <= i < |db.tasks| ==> !HasHash(db, db.tasks[i], btih))
  }

  /** `_parse`: an over-long link is refused unread. */
  function ParseByHand(magnetUri: string): Result<Magnet.Magnet, Btih.MagnetError> {
    if |magnetUri| > 8000 then Err(Btih.WrongScheme) else Magnet.ParseMagnet(magnetUri)
  }

  /** `submit_magnet`, given the row of its content item, the profile's directory and the lookup's answer. */
  function SubmitMagnet(db: Db, config: Config, content: nat, magnetUri: string, directory: string,
                        force: bool, confirmed: bool, duplicate: Option<TaskId>,
                        reply: SubmitReply, now: int): Outcome<Result<TaskId, MagnetError>>
    requires |db.logs| == |db.tasks|
  {
    var parsed := ParseByHand(magnetUri);
    if !confirmed then Outcome(db, Err(NotConfirmed))
    else if parsed.Err? then Outcome(db, Err(InvalidMagnet))
    else if duplicate.Some? && !force then Outcome(db, Err(ForceConfirmationRequired))
    else if duplicate.None? && force then Outcome(db, Err(ForceNotRequired))
    else
      var (stored, candidate) := UpsertCandidate(db, parsed.value.btih);
      var destination := Paths.ResolveTaskDestination(directory, parsed.value.btih);
      if destination.Err? then Outcome(stored, Err(BadDestination))
      else
        var args := Following(stored, content, candidate, Magnet.CanonicalUri(parsed.value), destination.value,
                              duplicate);
        Reported(Submit(stored, config, args, reply, now))
  }

  /** `submit_authorized_magnet`: for a content item of the watchlist, and never twice. */
  function SubmitAuthorized(db: Db, config: Config, content: nat, magnetUri: string, directory: string,
                            confirmed: bool, duplicate: Option<TaskId>, reply: SubmitReply,
                            now: int): Outcome<Result<TaskId, MagnetError>>
    requires |db.logs| == |db.tasks|
  {
    var parsed := ParseByHand(magnetUri);
    if !confirmed then Outcome(db, Err(NotConfirmed))
    else if parsed.Err? then Outcome(db, Err(InvalidMagnet))
    else if duplicate.Some? then Outcome(db, Err(DuplicateDownload))
    else
      var (stored, candidate) := UpsertCandidate(db, parsed.value.btih);
      var destination := Paths.ResolveTaskDestination(directory, parsed.value.btih);
      if destination.Err? then Outcome(stored, Err(BadDestination))
      else
        var args := SubmitArgs(content, candidate, Magnet.CanonicalUri(parsed.value), destination.value, 0, None);
        Reported(Submit(stored, config, args, reply, now))
  }

  /** `submit_number_candidate`: a candidate that a finished run accepted, with the link its evidence recorded. */
  function SubmitChosen(db: Db, config: Config, content: nat, candidate: nat, magnetUri: string, directory: string,
                        confirmed: bool, reply: SubmitReply, now: int): Outcome<Result<TaskId, MagnetError>>
    requires |db.logs| == |db.tasks|
  {
    if !confirmed then Outcome(db, Err(NotConfirmed))
    else if candidate >= |db.candidates| then Outcome(db, Err(CandidateNotAccepted))
    else
      var destination := Paths.ResolveTaskDestination(directory, db.candidates[candidate]);
      if destination.Err? then Outcome(db, Err(BadDestination))
      else Reported(Submit(db, config, SubmitArgs(content, candidate, magnetUri, destination.value, 0, None), reply,
                           now))
  }

  /** How the manual operations report a submission. */
  function Reported(o: Outcome<Result<TaskId, SubmitError>>): Outcome<Result<TaskId, MagnetError>> {
    Outcome(o.db,
            if o.result.Ok? then Ok(o.result.value)
            else if o.result.error == ClaimRefused(IdempotencyConflict) then Err(DuplicateDownload)
            else Err(SubmitRaised(o.result.error)))
  }

  /** A resolved task directory belongs to its hash. */
  lemma ResolvedDirectory(directory: string, btih: string)
    requires Btih.NormalBtih(btih) && Paths.ResolveTaskDestination(directory, btih).Ok?
    ensures DestinationOf(Paths.ResolveTaskDestination(directory, btih).value, btih)
  {
    Btih.NormalizeIdempotent(btih);
    Paths.TaskDestinationShape(directory, btih);
  }

  lemma ParsedIsNormal(magnetUri: string)
    requires Magnet.ParseMagnet(magnetUri).Ok?
    ensures Btih.NormalBtih(Magnet.ParseMagnet(magnetUri).value.btih)
  {
    Magnet.CommonIsNormal(Magnet.RawBtihs(Magnet.ParseQuery(Magnet.UrlSplit(magnetUri).value.query)));
  }

  /** What `submit_magnet` submits continues the duplicate it was forced over, or starts a history. */
  lemma FollowingIsHonest(db: Db, content: nat, magnetUri: string, directory: string, duplicate: Option<TaskId>)
    requires Sound(db) && ParseByHand(magnetUri).Ok?
    requires LookupAnswer(db, ParseByHand(magnetUri).value.btih, duplicate)
    requires Paths.ResolveTaskDestination(directory, ParseByHand(magnetUri).value.btih).Ok?
    ensures var parsed := ParseByHand(magnetUri).value;
            var (stored, candidate) := UpsertCandidate(db, parsed.btih);
            && Sound(stored)
            && var args := Following(stored, content, candidate, Magnet.CanonicalUri(parsed),
                                     Paths.ResolveTaskDestination(directory, parsed.btih).value, duplicate);
               Honest(stored, args) && (duplicate.Some? ==> AtNextGeneration(stored, args))
  {
    hide Magnet.ParseMagnet, Magnet.CanonicalUri, NextGeneration, DestinationOf, Paths.ResolveTaskDestination;
    var btih := ParseByHand(magnetUri).value.btih;
    ParsedIsNormal(magnetUri);
    UpsertKeepsValid(db, btih);
    var (stored, candidate) := UpsertCandidate(db, btih);
    ResolvedDirectory(directory, btih);
    if duplicate.Some? {
      CandidateOfHash(stored, stored.tasks[duplicate.value].candidate, candidate);
      NextExceeds(stored, content, candidate, duplicate.value);
    }
  }

  lemma SubmitMagnetKeepsSound(db: Db, config: Config, content: nat, magnetUri: string, directory: string,
                               force: bool, confirmed: bool, duplicate: Option<TaskId>, reply: SubmitReply, now: int)
    requires Sound(db)
    requires ParseByHand(magnetUri).Ok? ==> LookupAnswer(db, ParseByHand(magnetUri).value.btih, duplicate)
    ensures var o := SubmitMagnet(db, config, content, magnetUri, directory, force, confirmed, duplicate, reply, now);
            && Sound(o.db)
            && db.tasks <= o.db.tasks && db.logs <= o.db.logs
            && (o.result.Ok? ==>
                  && o.result.value == |db.tasks| && |o.db.tasks| == |db.tasks| + 1
                  && o.db.tasks[o.result.value].supersedes == duplicate)
            && (force ==> o.result != Err(DuplicateDownload))
  {
    hide Magnet.ParseMagnet, Magnet.CanonicalUri, Submit, NextGeneration, DestinationOf, Paths.ResolveTaskDestination;
    var parsed := ParseByHand(magnetUri);
    if parsed.Ok? && (duplicate.Some? <==> force) {
      var btih := parsed.value.btih;
      ParsedIsNormal(magnetUri);
      UpsertKeepsValid(db, btih);
      var (stored, candidate) := UpsertCandidate(db, btih);
      var destination := Paths.ResolveTaskDestination(directory, btih);
      if destination.Ok? {
        FollowingIsHonest(db, content, magnetUri, directory, duplicate);
        var args := Following(stored, content, candidate, Magnet.CanonicalUri(parsed.value), destination.value,
                              duplicate);
        SubmitKeepsSound(stored, config, args, reply, now);
        SubmitAppendsOnly(stored, config, args, reply, now);
      }
    }
  }

  /** An authorized magnet does to the database what an unforced hand-submitted one does. */
  lemma AuthorizedIsUnforced(db: Db, config: Config, content: nat, magnetUri: string, directory: string,
                             confirmed: bool, duplicate: Option<TaskId>, reply: SubmitReply, now: int)
    requires |db.logs| == |db.tasks|
    ensures var a := SubmitAuthorized(db, config, content, magnetUri, directory, confirmed, duplicate, reply, now);
            var m := SubmitMagnet(db, config, content, magnetUri, directory, false, confirmed, duplicate, reply, now);
            && a.db == m.db
            && a.result == if m.result == Err(ForceConfirmationRequired) then Err(DuplicateDownload) else m.result
  {
    hide Submit, Magnet.ParseMagnet, Magnet.CanonicalUri, NextGeneration, Paths.ResolveTaskDestination, FindCandidate;
  }

  lemma SubmitChosenKeepsSound(db: Db, config: Config, content: nat, candidate: nat, magnetUri: string,
                               directory: string,
                               confirmed: bool, reply: SubmitReply, now: int)
    requires Sound(db) && |db.logs| == |db.tasks|
    ensures var o := SubmitChosen(db, config, content, candidate, magnetUri, directory, confirmed, reply, now);
            && Sound(o.db)
            && db.tasks <= o.db.tasks && db.logs <= o.db.logs
            && (o.result.Ok? ==>
                  && o.result.value == |db.tasks| && |o.db.tasks| == |db.tasks| + 1
                  && o.db.tasks[o.result.value].supersedes == None)
  {
    hide Submit, NextGeneration, DestinationOf, Paths.ResolveTaskDestination, Btih.NormalBtih;
    if confirmed && candidate < |db.candidates| {
      var destination := Paths.ResolveTaskDestination(directory, db.candidates[candidate]);
      if destination.Ok? {
        ResolvedDirectory(directory, db.candidates[candidate]);
        var args := SubmitArgs(content, candidate, magnetUri, destination.value, 0, None);
        SubmitKeepsSound(db, config, args, reply, now);
        SubmitAppendsOnly(db, config, args, reply, now);
      }
    }
  }

  /** How the manual operations report a submission. */
  ghost predicate Reports(s: Outcome<Result<TaskId, SubmitError>>, o: Outcome<Result<TaskId, MagnetError>>) {
    && o.db == s.db
    && o.result == (match s.result
                    case Ok(id) => Ok(id)
                    case Err(ClaimRefused(IdempotencyConflict)) => Err(DuplicateDownload)
                    case Err(e) => Err(SubmitRaised(e)))
  }

  /** The store with a hash in it, at its old place if it was known. */
  ghost predicate Knows(db: Db, btih: string, stored: Db, candidate: nat) {
    && stored.tasks == db.tasks && stored.logs == db.logs
    && stored.candidates == (if btih in db.candidates then db.candidates else db.candidates + [btih])
    && candidate < |stored.candidates| && stored.candidates[candidate] == btih
  }

  /** A submission for a hash into a directory of its own below the given one. */
  ghost predicate SubmitsHash(db: Db, config: Config, content: nat, btih: string, directory: string, generation: nat,
                              supersedes: Option<TaskId>, candidate: nat, reply: SubmitReply, now: int,
                              o: Outcome<Result<TaskId, MagnetError>>) {
    exists link, s ::
      && Submits(db, config, SubmitArgs(content, candidate, link,
                                        Paths.Absolute(Paths.Segments(directory) + [btih]), generation, supersedes),
                 reply, now, s)
      && Reports(s, o)
  }

  lemma DirectoryOfHash(directory: string, btih: string)
    requires Btih.NormalBtih(btih)
    ensures Paths.ResolveTaskDestination(directory, btih).Ok? <==> Paths.Normalize(directory).Ok?
    ensures Paths.Normalize(directory).Ok? ==>
              Paths.ResolveTaskDestination(directory, btih) == Ok(Paths.Absolute(Paths.Segments(directory) + [btih]))
  {
    Btih.NormalizeIdempotent(btih);
    Paths.TaskDestinationShape(directory, btih);
  }

  /**
   * Exactly what a submission by hand does: it is refused unread or for its directory, or it submits the link's hash,
   * at generation zero if nobody holds the hash, or superseding the found holder if forced.
   */
  lemma MagnetOutcome(db: Db, config: Config, content: nat, magnetUri: string, directory: string,
                      force: bool, confirmed: bool, duplicate: Option<TaskId>, reply: SubmitReply, now: int)
    requires Sound(db)
    requires |magnetUri| <= 8000 && Magnet.ParseMagnet(magnetUri).Ok? ==>
               LookupAnswer(db, Magnet.ParseMagnet(magnetUri).value.btih, duplicate)
    ensures |db.logs| == |db.tasks|
    ensures var o := SubmitMagnet(db, config, content, magnetUri, directory, force, confirmed, duplicate, reply, now);
            if !confirmed then o == Outcome(db, Err(NotConfirmed))
            else if |magnetUri| > 8000 || Magnet.ParseMagnet(magnetUri).Err?
            then o == Outcome(db, Err(InvalidMagnet))
            else if duplicate.Some? && !force then o == Outcome(db, Err(ForceConfirmationRequired))
            else if duplicate.None? && force then o == Outcome(db, Err(ForceNotRequired))
            else
              var btih := Magnet.ParseMagnet(magnetUri).value.btih;
              exists stored, candidate ::
                && Knows(db, btih, stored, candidate)
                && if Paths.Normalize(directory).Err? then o == Outcome(stored, Err(BadDestination))
                   else SubmitsHash(stored, config, content, btih, directory,
                                    if force then NextGeneration(stored, CLIENT_KEY, content, candidate) else 0,
                                    duplicate, candidate, reply, now, o)
  {
    hide Magnet.ParseMagnet, Magnet.CanonicalUri, Submit, NextGeneration, Valid, DestinationOf, Submits, Honest;
    hide Paths.ResolveTaskDestination, Paths.Normalize, Paths.Segments, Paths.Absolute, LookupAnswer, SubmitsHash;
    hide UpsertCandidate;
    SoundLogs(db);
    if confirmed && ParseByHand(magnetUri).Ok? && (duplicate.Some? <==> force) {
      var parsed := ParseByHand(magnetUri).value;
      ParsedIsNormal(magnetUri);
      Stores(db, parsed.btih);
      var (stored, candidate) := UpsertCandidate(db, parsed.btih);
      DirectoryOfHash(directory, parsed.btih);
      if Paths.Normalize(directory).Ok? {
        FollowingIsHonest(db, content, magnetUri, directory, duplicate);
        Magnet.ParsePrintParse(magnetUri);
        var destination := Paths.ResolveTaskDestination(directory, parsed.btih).value;
        var args := Following(stored, content, candidate, Magnet.CanonicalUri(parsed), destination, duplicate);
        SubmitsExactly(stored, config, args, reply, now);
        ReportedSubmission(stored, config, args, directory, parsed.btih, reply, now);
      }
    }
  }

  /** Exactly what submitting a chosen candidate does: its hash starts a history at generation zero. */
  lemma ChosenOutcome(db: Db, config: Config, content: nat, candidate: nat, magnetUri: string, directory: string,
                      confirmed: bool, reply: SubmitReply, now: int)
    requires Sound(db)
    requires candidate < |db.candidates| ==> Magnet.ParseMagnet(magnetUri).Ok?
                                             && Magnet.ParseMagnet(magnetUri).value.btih == db.candidates[candidate]
    ensures |db.logs| == |db.tasks|
    ensures var o := SubmitChosen(db, config, content, candidate, magnetUri, directory, confirmed, reply, now);
            if !confirmed then o == Outcome(db, Err(NotConfirmed))
            else if candidate >= |db.candidates| then o == Outcome(db, Err(CandidateNotAccepted))
            else if Paths.Normalize(directory).Err? then o == Outcome(db, Err(BadDestination))
            else SubmitsHash(db, config, content, db.candidates[candidate], directory, 0, None, candidate, reply, now,
                             o)
  {
    hide Magnet.ParseMagnet, Submit, Valid, Submits, Honest, DestinationOf;
    hide Paths.ResolveTaskDestination, Paths.Normalize, Paths.Segments, Paths.Absolute, SubmitsHash, Reported;
    SoundLogs(db);
    if confirmed && candidate < |db.candidates| {
      var btih := db.candidates[candidate];
      StoredIsNormal(db, candidate);
      DirectoryOfHash(directory, btih);
      if Paths.Normalize(directory).Ok? {
        ResolvedDirectory(directory, btih);
        var destination := Paths.ResolveTaskDestination(directory, btih).value;
        var args := SubmitArgs(content, candidate, magnetUri, destination, 0, None);
        StartIsHonest(db, args);
        SubmitsExactly(db, config, args, reply, now);
        ReportedSubmission(db, config, args, directory, btih, reply, now);
      }
    }
  }

  lemma StoredIsNormal(db: Db, candidate: nat)
    requires Valid(db) && candidate < |db.candidates|
    ensures Btih.NormalBtih(db.candidates[candidate])
  {
  }

  lemma StartIsHonest(db: Db, args: SubmitArgs)
    requires args.candidate < |db.candidates| && DestinationOf(args.destination, db.candidates[args.candidate])
    requires args.supersedes == None
    ensures Honest(db, args)
  {
  }

  lemma Stores(db: Db, btih: string)
    requires |db.logs| == |db.tasks|
    ensures Knows(db, btih, UpsertCandidate(db, btih).0, UpsertCandidate(db, btih).1)
  {
    var found := FindCandidate(db.candidates, btih);
    if found.Some? { assert db.candidates[found.value] in db.candidates; }
  }

  lemma ReportedSubmission(db: Db, config: Config, args: SubmitArgs, directory: string, btih: string,
                           reply: SubmitReply, now: int)
    requires |db.logs| == |db.tasks| && args.destination == Paths.Absolute(Paths.Segments(directory) + [btih])
    requires Submits(db, config, args, reply, now, Submit(db, config, args, reply, now))
    ensures SubmitsHash(db, config, args.content, btih, directory, args.generation, args.supersedes, args.candidate,
                        reply, now, Reported(Submit(db, config, args, reply, now)))
  {
    hide Submit, Submits, Paths.Absolute, Paths.Segments;
    var s := Submit(db, config, args, reply, now);
    assert Reports(s, Reported(s));
    assert args == SubmitArgs(args.content, args.candidate, args.magnetUri, args.destination, args.generation,
                              args.supersedes);
  }

  lemma CandidateOfHash(db: Db, a: nat, b: nat)
    requires Candidates(db.candidates) && a < |db.candidates| && b < |db.candidates|
    requires db.candidates[a] == db.candidates[b]
    ensures a == b
  {
  }

  // ---- The operations as the services run them ----

  class ManualService {
    const downloads: DownloadService

    constructor (downloads: DownloadService)
      ensures this.downloads == downloads
    {
      this.downloads := downloads;
    }

    /** `retry`. */
    method RetryTask(id: TaskId, confirmed: bool, reply: SubmitReply, now: int) returns (r: Result<TaskId, RetryError>)
      requires |downloads.repository.logs| == |downloads.repository.tasks|
      requires id < |downloads.repository.tasks| ==>
                 var t := downloads.repository.tasks[id];
                 t.candidate < |downloads.repository.candidates| && t.destination.Some?
      modifies downloads.repository
      ensures Outcome(downloads.repository.State(), r)
              == Retry(old(downloads.repository.State()), downloads.config, id, confirmed, reply, now)
    {
      hide Submit;
      var repository := downloads.repository;
      if id >= |repository.tasks| {
        return Err(NothingToRetry);
      }
      var task := repository.tasks[id];
      if task.status != Failed && !confirmed {
        return Err(RetryNotConfirmed);
      }
      var generation := NextGeneration(repository.State(), task.client, task.content, task.candidate);
      var args := SubmitArgs(task.content, task.candidate,
                             "magnet:?xt=urn:btih:" + repository.candidates[task.candidate],
                             task.destination.value, generation, Some(id));
      var submitted := downloads.SubmitCandidate(args, reply, now);
      r := if submitted.Ok? then Ok(submitted.value) else Err(RetryFailed(submitted.error));
    }

    /** `submit_magnet`. */
    method SubmitByHand(content: nat, magnetUri: string, directory: string, force: bool, confirmed: bool,
                        duplicate: Option<TaskId>, reply: SubmitReply, now: int)
      returns (r: Result<TaskId, MagnetError>)
      requires |downloads.repository.logs| == |downloads.repository.tasks|
      modifies downloads.repository
      ensures Outcome(downloads.repository.State(), r)
              == SubmitMagnet(old(downloads.repository.State()), downloads.config, content, magnetUri, directory,
                              force, confirmed, duplicate, reply, now)
    {
      hide Submit, ParseByHand, Magnet.CanonicalUri, Paths.ResolveTaskDestination, NextGeneration, FindCandidate;
      var repository := downloads.repository;
      if !confirmed {
        return Err(NotConfirmed);
      }
      var parsed := ParseByHand(magnetUri);
      if parsed.Err? {
        return Err(InvalidMagnet);
      }
      if duplicate.Some? && !force {
        return Err(ForceConfirmationRequired);
      }
      if duplicate.None? && force {
        return Err(ForceNotRequired);
      }
      var candidate := repository.Upsert(parsed.value.btih);
      var generation: nat, supersedes := 0, None;
      if force {
        generation := NextGeneration(repository.State(), CLIENT_KEY, content, candidate);
        supersedes := duplicate;
      }
      var destination := Paths.ResolveTaskDestination(directory, parsed.value.btih);
      if destination.Err? {
        return Err(BadDestination);
      }
      var submitted := downloads.SubmitCandidate(
        SubmitArgs(content, candidate, Magnet.CanonicalUri(parsed.value), destination.value, generation,
                   supersedes), reply, now);
      if submitted.Ok? {
        return Ok(submitted.value);
      }
      r := Err(if submitted.error == ClaimRefused(IdempotencyConflict) then DuplicateDownload
               else SubmitRaised(submitted.error));
    }
  }
}
