/**
 * The download tables of the database (db/models.py, db/repository.py): tasks, their event logs,
 * the unique constraints, and the transactions that claim a task or append an event.
 * Rows are never deleted, so a table is a sequence and a row id is its position.
 */
module Store {
  import opened Wrappers
  import opened DownloadState
  import Completion
  import Paths
  import Btih

  type TaskId = nat

  datatype Source = System | Manual

  datatype Evidence =
    | ClaimCreated
    | SubmissionResultUnknown
    | ExternalTaskAlreadyExists
    | ExplicitRejection
    | ClientError
    | Accepted
    | PollFailed
    | SnapshotFailed
    | TaskApiFinished
    | ExternalTaskFailed
    | TaskApiDownloading
    | TaskApiInit
    | BaselineUnavailable
    | StableFilesCompleted(fileCount: nat, totalSize: nat)
    | FileChangesObserved(fileCount: nat, totalSize: nat)
    | NoReliableProgress(fileCount: nat, totalSize: nat)
    | ManualConfirmation

  datatype Event = Event(sequence: nat, status: Status, source: Source, evidence: Evidence, occurredAt: int)

  datatype Task = Task(
    client: string,
    content: nat,
    candidate: nat,
    generation: nat,
    supersedes: Option<TaskId>,
    destination: Option<string>,
    status: Status,
    owned: bool,
    attentionAfter: Option<int>,
    externalReference: Option<string>,
    baseline: Option<Completion.Snapshot>,
    completion: Option<Completion.CompletionState>,
    errorCode: Option<string>,
    manualCompleted: bool)

  /** `candidates[i]` is the info hash of candidate `i`. */
  datatype Db = Db(candidates: seq<string>, tasks: seq<Task>, logs: seq<seq<Event>>)

  // ---- Queries ----

  predicate Claims(t: Task, client: string, content: nat, candidate: nat) {
    t.client == client && (t.content == content || t.candidate == candidate)
  }

  /** The earliest task at a generation that claims the content or the info hash. */
  function FirstClaim(tasks: seq<Task>, client: string, content: nat, candidate: nat,
                      generation: nat): (r: Option<TaskId>)
    ensures r.Some? ==> r.value < |tasks| && tasks[r.value].generation == generation
                        && Claims(tasks[r.value], client, content, candidate)
                        && forall i :: 0 <= i < r.value && tasks[i].generation == generation
                                       ==> !Claims(tasks[i], client, content, candidate)
    ensures r.None? ==> forall i :: 0 <= i < |tasks| && tasks[i].generation == generation
                                    ==> !Claims(tasks[i], client, content, candidate)
  {
    if |tasks| == 0 then None
    else
      var n := |tasks| - 1;
      var earlier := FirstClaim(tasks[..n], client, content, candidate, generation);
      if earlier.Some? then earlier
      else if tasks[n].generation == generation && Claims(tasks[n], client, content, candidate) then Some(n)
      else None
  }

  /** The highest generation that claims the content or the info hash, zero if none does. */
  function MaxGeneration(tasks: seq<Task>, client: string, content: nat, candidate: nat): (g: nat)
    ensures forall i :: 0 <= i < |tasks| && Claims(tasks[i], client, content, candidate) ==> tasks[i].generation <= g
  {
    if |tasks| == 0 then 0
    else
      var n := |tasks| - 1;
      var earlier := MaxGeneration(tasks[..n], client, content, candidate);
      if Claims(tasks[n], client, content, candidate) && tasks[n].generation > earlier
      then tasks[n].generation else earlier
  }

  /** `next_download_generation`. */
  function NextGeneration(db: Db, client: string, content: nat, candidate: nat): nat {
    MaxGeneration(db.tasks, client, content, candidate) + 1
  }

  /** Rows covered by the partial unique index on destinations. */
  predicate Waiting(t: Task) {
    t.destination.Some? && !t.owned && Active(t.status)
  }

  predicate SameDestination(s: Task, t: Task) {
    s.client == t.client && s.destination == t.destination
  }

  predicate DestinationTaken(tasks: seq<Task>, t: Task, except: nat) {
    Waiting(t) && exists j :: 0 <= j < |tasks| && j != except && Waiting(tasks[j]) && SameDestination(tasks[j], t)
  }

  // ---- Transactions ----

  datatype StoreError =
    | IdempotencyConflict
    | DestinationBusy
    | NoSuchTask
    | IntegrityViolation

  datatype Claim = Claim(
    client: string,
    content: nat,
    candidate: nat,
    generation: nat,
    supersedes: Option<TaskId>,
    destination: Option<string>,
    attentionAfter: Option<int>)

  function NewTask(c: Claim): Task {
    Task(c.client, c.content, c.candidate, c.generation, c.supersedes, c.destination, Submitting, false,
         c.attentionAfter, None, None, None, None, false)
  }

  /** `claim_download`: the new row has the next free id. */
  function ClaimDownload(db: Db, c: Claim, now: int): Result<Db, StoreError> {
    if FirstClaim(db.tasks, c.client, c.content, c.candidate, c.generation).Some? then Err(IdempotencyConflict)
    else if DestinationTaken(db.tasks, NewTask(c), |db.tasks|) then Err(DestinationBusy)
    else if c.candidate >= |db.candidates| || (c.supersedes.Some? && c.supersedes.value >= |db.tasks|)
    then Err(IntegrityViolation)
    else Ok(Db(db.candidates, db.tasks + [NewTask(c)],
               db.logs + [[Event(1, Submitting, System, ClaimCreated, now)]]))
  }

  datatype Update = Update(
    status: Status,
    source: Source,
    evidence: Evidence,
    occurredAt: int,
    externalReference: Option<string>,
    baseline: Option<Completion.Snapshot>,
    completion: Option<Completion.CompletionState>,
    errorCode: Option<string>,
    owned: Option<bool>)

  /** An update that only moves the status. */
  function Plain(status: Status, evidence: Evidence, now: int): Update {
    Update(status, System, evidence, now, None, None, None, None, None)
  }

  function Or<T>(new': Option<T>, old': Option<T>): Option<T> {
    if new'.Some? then new' else old'
  }

  function Apply(t: Task, u: Update): Task {
    t.(status := u.status,
       externalReference := Or(u.externalReference, t.externalReference),
       baseline := Or(u.baseline, t.baseline),
       completion := Or(u.completion, t.completion),
       errorCode := u.errorCode,
       owned := if u.owned.Some? then u.owned.value else t.owned,
       manualCompleted := t.manualCompleted || (u.source == Manual && u.status == Completed))
  }

  function MaxSequence(log: seq<Event>): nat {
    if |log| == 0 then 0
    else
      var earlier := MaxSequence(log[..|log| - 1]);
      if log[|log| - 1].sequence > earlier then log[|log| - 1].sequence else earlier
  }

  /** `append_download_event`. */
  function AppendEvent(db: Db, id: TaskId, u: Update): Result<Db, StoreError>
    requires |db.logs| == |db.tasks|
  {
    if id >= |db.tasks| then Err(NoSuchTask)
    else
      var t := Apply(db.tasks[id], u);
      if DestinationTaken(db.tasks, t, id) then Err(IntegrityViolation)
      else
        var e := Event(MaxSequence(db.logs[id]) + 1, u.status, u.source, u.evidence, u.occurredAt);
        Ok(Db(db.candidates, db.tasks[id := t], db.logs[id := db.logs[id] + [e]]))
  }

  /** `upsert_candidate` of a normalised hash: the existing row, or a new last one. */
  function FindCandidate(candidates: seq<string>, btih: string): (r: Option<nat>)
    ensures r.Some? ==> r.value < |candidates| && candidates[r.value] == btih
    ensures r.None? ==> btih !in candidates
  {
    if |candidates| == 0 then None
    else if candidates[|candidates| - 1] == btih then Some(|candidates| - 1)
    else FindCandidate(candidates[..|candidates| - 1], btih)
  }

  function UpsertCandidate(db: Db, btih: string): (r: (Db, nat))
    ensures r.1 < |r.0.candidates| && r.0.candidates[r.1] == btih
    ensures r.0.tasks == db.tasks && r.0.logs == db.logs
    ensures db.candidates <= r.0.candidates
  {
    var existing := FindCandidate(db.candidates, btih);
    if existing.Some? then (db, existing.value)
    else (db.(candidates := db.candidates + [btih]), |db.candidates|)
  }

  // ---- What every reachable database satisfies ----

  ghost predicate UniqueClaims(tasks: seq<Task>) {
    forall i, j :: 0 <= i < j < |tasks| && tasks[i].client == tasks[j].client
                   && tasks[i].generation == tasks[j].generation
      ==> tasks[i].content != tasks[j].content && tasks[i].candidate != tasks[j].candidate
  }

  ghost predicate UniqueDestinations(tasks: seq<Task>) {
    forall i, j :: 0 <= i < j < |tasks| && Waiting(tasks[i]) && Waiting(tasks[j])
      ==> !SameDestination(tasks[i], tasks[j])
  }

  lemma NoOtherWaits(tasks: seq<Task>, id: TaskId)
    requires UniqueDestinations(tasks) && id < |tasks| && Waiting(tasks[id])
    ensures forall j :: 0 <= j < |tasks| && j != id && Waiting(tasks[j]) ==> !SameDestination(tasks[j], tasks[id])
  {
    forall j | 0 <= j < |tasks| && j != id && Waiting(tasks[j])
      ensures !SameDestination(tasks[j], tasks[id])
    {
      if id < j {
        assert !SameDestination(tasks[id], tasks[j]);
      }
    }
  }

  /** A supersedes link goes back to an earlier generation of the same content or info hash. */
  ghost predicate LinkOk(tasks: seq<Task>, t: Task) {
    t.supersedes.Some? ==>
      && t.supersedes.value < |tasks|
      && Claims(tasks[t.supersedes.value], t.client, t.content, t.candidate)
      && tasks[t.supersedes.value].generation < t.generation
  }

  ghost predicate Links(tasks: seq<Task>) {
    forall i :: 0 <= i < |tasks| ==> LinkOk(tasks, tasks[i])
  }

  /** Sequences count from one, statuses follow the table, and the log's end is the task's status. */
  ghost predicate LogOk(t: Task, log: seq<Event>) {
    && |log| >= 1
    && log[0].status == Submitting
    && (forall i :: 0 <= i < |log| ==> log[i].sequence == i + 1)
    && (forall i :: 0 <= i < |log| - 1 ==> Follows(log[i].status, log[i + 1].status))
    && log[|log| - 1].status == t.status
  }

  ghost predicate Logs(db: Db) {
    |db.logs| == |db.tasks| && forall i :: 0 <= i < |db.tasks| ==> LogOk(db.tasks[i], db.logs[i])
  }

  ghost predicate Candidates(candidates: seq<string>) {
    && (forall i :: 0 <= i < |candidates| ==> Btih.NormalBtih(candidates[i]))
    && (forall i, j :: 0 <= i < j < |candidates| ==> candidates[i] != candidates[j])
  }

  /** A task directory is a normal path that ends in the task's own info hash. */
  ghost predicate DestinationOf(destination: string, btih: string) {
    var names := Paths.Segments(destination);
    && destination == Paths.Absolute(names) && Paths.ValidNames(names)
    && |names| > 0 && names[|names| - 1] == btih
  }

  ghost predicate OwnDirectory(candidates: seq<string>, t: Task) {
    && t.candidate < |candidates|
    && t.destination.Some? && DestinationOf(t.destination.value, candidates[t.candidate])
  }

  ghost predicate OwnDirectories(db: Db) {
    forall i :: 0 <= i < |db.tasks| ==> OwnDirectory(db.candidates, db.tasks[i])
  }

  ghost predicate Valid(db: Db) {
    && Candidates(db.candidates) && OwnDirectories(db)
    && UniqueClaims(db.tasks) && UniqueDestinations(db.tasks) && Links(db.tasks) && Logs(db)
  }

  /** What an honest caller of `claim_download` provides. */
  ghost predicate ClaimOk(db: Db, c: Claim) {
    && c.candidate < |db.candidates|
    && OwnDirectory(db.candidates, NewTask(c))
    && LinkOk(db.tasks, NewTask(c))
  }

  lemma NewRowKeepsClaims(tasks: seq<Task>, c: Claim)
    requires UniqueClaims(tasks)
    requires FirstClaim(tasks, c.client, c.content, c.candidate, c.generation).None?
    ensures UniqueClaims(tasks + [NewTask(c)])
  {
    var n, after := |tasks|, tasks + [NewTask(c)];
    forall i, j | 0 <= i < j < |after| && after[i].client == after[j].client
                   && after[i].generation == after[j].generation
      ensures after[i].content != after[j].content && after[i].candidate != after[j].candidate
    {
      if j == n {
        assert !Claims(tasks[i], c.client, c.content, c.candidate);
      }
    }
  }

  lemma NewRowKeepsLinks(tasks: seq<Task>, t: Task)
    requires Links(tasks) && LinkOk(tasks, t)
    ensures Links(tasks + [t])
  {
    var after := tasks + [t];
    forall i | 0 <= i < |after| ensures LinkOk(after, after[i]) {
      assert LinkOk(tasks, after[i]);
    }
  }

  lemma NewRowKeepsDestinations(tasks: seq<Task>, t: Task)
    requires UniqueDestinations(tasks) && !DestinationTaken(tasks, t, |tasks|)
    ensures UniqueDestinations(tasks + [t])
  {
  }

  lemma ClaimKeepsValid(db: Db, c: Claim, now: int)
    requires Valid(db) && ClaimOk(db, c)
    ensures ClaimDownload(db, c, now).Ok? ==> Valid(ClaimDownload(db, c, now).value)
  {
    hide DestinationOf, DestinationTaken, FirstClaim;
    var r := ClaimDownload(db, c, now);
    if r.Ok? {
      NewRowKeepsClaims(db.tasks, c);
      NewRowKeepsLinks(db.tasks, NewTask(c));
      NewRowKeepsDestinations(db.tasks, NewTask(c));
    }
  }

  /** Of the same client and generation, for the same content or the same hash. */
  predicate Rivals(t: Task, c: Claim) {
    t.client == c.client && t.generation == c.generation && (t.content == c.content || t.candidate == c.candidate)
  }

  /** Unfinished, in the same directory of the same client, and not yet known to own anything there. */
  predicate Blocks(t: Task, c: Claim) {
    && t.client == c.client && t.destination.Some? && t.destination == c.destination
    && !t.owned && t.status != Completed && t.status != Failed
  }

  /** Someone already holds the content or the hash at this generation. */
  ghost predicate Rivalled(db: Db, c: Claim) {
    exists i :: 0 <= i < |db.tasks| && Rivals(db.tasks[i], c)
  }

  /** Another task waits for a download in this directory. */
  ghost predicate Awaited(db: Db, c: Claim) {
    exists i :: 0 <= i < |db.tasks| && Blocks(db.tasks[i], c)
  }

  /** A row as a claim writes it. */
  ghost predicate Opened(t: Task, c: Claim) {
    && t.client == c.client && t.content == c.content && t.candidate == c.candidate && t.generation == c.generation
    && t.supersedes == c.supersedes && t.destination == c.destination && t.attentionAfter == c.attentionAfter
    && t.status == Submitting && !t.owned && !t.manualCompleted
    && t.externalReference == None && t.baseline == None && t.completion == None && t.errorCode == None
  }

  /** The claim is refused exactly for a rival claim, or else for a waiting task in the same directory. */
  lemma ClaimOutcome(db: Db, c: Claim, now: int)
    requires Valid(db) && ClaimOk(db, c)
    ensures var r := ClaimDownload(db, c, now);
            && (r == Err(IdempotencyConflict) <==> Rivalled(db, c))
            && (r == Err(DestinationBusy) <==> !Rivalled(db, c) && Awaited(db, c))
            && (r.Ok? <==> !Rivalled(db, c) && !Awaited(db, c))
            && (r.Ok? ==>
                  && |r.value.tasks| == |db.tasks| + 1 && db.tasks <= r.value.tasks
                  && Opened(r.value.tasks[|db.tasks|], c)
                  && r.value.logs == db.logs + [[Event(1, Submitting, System, ClaimCreated, now)]]
                  && r.value.candidates == db.candidates)
  {
    hide Valid, DestinationOf;
  }

  /**
   * Claims are unique by hash per generation only: a claim for a hash that some task already holds succeeds
   * exactly when no task holds the hash or the content at the claim's own generation and none waits in the
   * directory.
   */
  lemma SecondClaimIff(db: Db, c: Claim, now: int, holder: TaskId)
    requires Valid(db) && ClaimOk(db, c)
    requires holder < |db.tasks| && db.tasks[holder].client == c.client && db.tasks[holder].candidate == c.candidate
    ensures ClaimDownload(db, c, now).Ok?
            <==> && !Awaited(db, c)
                 && forall i :: 0 <= i < |db.tasks| && Claims(db.tasks[i], c.client, c.content, c.candidate)
                                ==> db.tasks[i].generation != c.generation
  {
    hide Valid, Awaited;
    ClaimOutcome(db, c, now);
    if Rivalled(db, c) {
      var i :| 0 <= i < |db.tasks| && Rivals(db.tasks[i], c);
    }
  }

  /**
   * A fallback's claim at the next generation succeeds exactly when none waits in the directory, whoever holds the
   * hash.
   */
  lemma NextClaimIff(db: Db, c: Claim, now: int)
    requires Valid(db) && ClaimOk(db, c) && c.generation == NextGeneration(db, c.client, c.content, c.candidate)
    ensures ClaimDownload(db, c, now).Ok? <==> !Awaited(db, c)
  {
    hide Valid, Awaited;
    ClaimOutcome(db, c, now);
    NextGenerationNeverConflicts(db, c, now);
  }

  lemma {:induction false} MaxGenerationAttained(tasks: seq<Task>, client: string, content: nat, candidate: nat)
    ensures var g := MaxGeneration(tasks, client, content, candidate);
            g == 0 || exists i :: 0 <= i < |tasks| && Claims(tasks[i], client, content, candidate)
                                && tasks[i].generation == g
  {
    if |tasks| != 0 {
      var n := |tasks| - 1;
      MaxGenerationAttained(tasks[..n], client, content, candidate);
      var g := MaxGeneration(tasks[..n], client, content, candidate);
      if i :| 0 <= i < n && Claims(tasks[..n][i], client, content, candidate) && tasks[..n][i].generation == g {
        assert Claims(tasks[i], client, content, candidate) && tasks[i].generation == g;
      }
    }
  }

  /** The client's task has the content or the hash. */
  predicate Has(t: Task, client: string, content: nat, candidate: nat) {
    t.client == client && (t.content == content || t.candidate == candidate)
  }

  /**
   * The next generation is above that of every task with the content or the hash, and one above some such task's,
   * or it is the first.
   */
  lemma NextGenerationIsNext(db: Db, client: string, content: nat, candidate: nat)
    ensures var g := NextGeneration(db, client, content, candidate);
            && (forall i :: 0 <= i < |db.tasks| && Has(db.tasks[i], client, content, candidate) ==>
                  db.tasks[i].generation < g)
            && (g == 1 || exists i :: 0 <= i < |db.tasks| && Has(db.tasks[i], client, content, candidate)
                                      && db.tasks[i].generation + 1 == g)
  {
    hide MaxGeneration;
    MaxGenerationAttained(db.tasks, client, content, candidate);
    assert forall i :: 0 <= i < |db.tasks| ==>
             Has(db.tasks[i], client, content, candidate) == Claims(db.tasks[i], client, content, candidate);
  }

  /** Claiming at the next generation never meets a rival claim. */
  lemma NextGenerationNeverConflicts(db: Db, c: Claim, now: int)
    requires c.generation == NextGeneration(db, c.client, c.content, c.candidate)
    ensures ClaimDownload(db, c, now) != Err(IdempotencyConflict)
  {
  }

  /** A busy directory is only ever held by a task for the same info hash. */
  lemma BusyMeansSameHash(db: Db, c: Claim, now: int)
    requires Valid(db) && ClaimOk(db, c)
    requires ClaimDownload(db, c, now) == Err(DestinationBusy)
    ensures exists j :: 0 <= j < |db.tasks| && Waiting(db.tasks[j]) && SameDestination(db.tasks[j], NewTask(c))
                        && db.tasks[j].candidate == c.candidate
  {
    hide FirstClaim;
    var j :| 0 <= j < |db.tasks| && j != |db.tasks| && Waiting(db.tasks[j]) && SameDestination(db.tasks[j], NewTask(c));
    assert OwnDirectory(db.candidates, db.tasks[j]);
    SameDirectorySameHash(db, db.tasks[j], NewTask(c));
  }

  lemma SameDirectorySameHash(db: Db, s: Task, t: Task)
    requires Candidates(db.candidates) && OwnDirectory(db.candidates, s) && OwnDirectory(db.candidates, t)
    requires s.destination == t.destination
    ensures s.candidate == t.candidate
  {
  }

  lemma {:induction false} MaxSequenceCounts(log: seq<Event>)
    requires forall i :: 0 <= i < |log| ==> log[i].sequence == i + 1
    ensures MaxSequence(log) == |log|
  {
    if |log| != 0 {
      MaxSequenceCounts(log[..|log| - 1]);
    }
  }

  /** An update changes a task's progress, never its identity. */
  ghost predicate SameIdentity(s: Task, t: Task) {
    && s.client == t.client && s.content == t.content && s.candidate == t.candidate
    && s.generation == t.generation && s.supersedes == t.supersedes && s.destination == t.destination
    && s.attentionAfter == t.attentionAfter
  }

  lemma ReplaceKeepsIdentities(tasks: seq<Task>, id: TaskId, t: Task)
    requires id < |tasks| && SameIdentity(tasks[id], t)
    ensures UniqueClaims(tasks) ==> UniqueClaims(tasks[id := t])
    ensures Links(tasks) ==> Links(tasks[id := t])
  {
    var after := tasks[id := t];
    assert forall i :: 0 <= i < |tasks| ==> SameIdentity(tasks[i], after[i]);
    if Links(tasks) {
      forall i | 0 <= i < |after| ensures LinkOk(after, after[i]) {
        assert LinkOk(tasks, tasks[i]);
        assert SameIdentity(tasks[i], after[i]);
      }
    }
  }

  lemma ReplaceKeepsDestinations(tasks: seq<Task>, id: TaskId, t: Task)
    requires id < |tasks| && UniqueDestinations(tasks) && !DestinationTaken(tasks, t, id)
    ensures UniqueDestinations(tasks[id := t])
  {
  }

  lemma ReplaceKeepsDirectories(db: Db, id: TaskId, t: Task)
    requires |db.logs| == |db.tasks| && id < |db.tasks| && SameIdentity(db.tasks[id], t) && OwnDirectories(db)
    ensures OwnDirectories(db.(tasks := db.tasks[id := t]))
  {
    var after := db.tasks[id := t];
    forall i | 0 <= i < |after| ensures OwnDirectory(db.candidates, after[i]) {
      assert OwnDirectory(db.candidates, db.tasks[i]);
    }
  }

  lemma AppendKeepsLog(t: Task, log: seq<Event>, u: Update)
    requires LogOk(t, log) && Follows(t.status, u.status)
    ensures LogOk(Apply(t, u), log + [Event(MaxSequence(log) + 1, u.status, u.source, u.evidence, u.occurredAt)])
  {
    MaxSequenceCounts(log);
  }

  lemma AppendKeepsLogs(db: Db, id: TaskId, u: Update)
    requires Logs(db) && AppendEvent(db, id, u).Ok?
    requires Follows(db.tasks[id].status, u.status)
    ensures Logs(AppendEvent(db, id, u).value)
  {
    var after := AppendEvent(db, id, u).value;
    assert LogOk(db.tasks[id], db.logs[id]);
    AppendKeepsLog(db.tasks[id], db.logs[id], u);
    forall i | 0 <= i < |after.tasks| ensures LogOk(after.tasks[i], after.logs[i]) {
      assert LogOk(db.tasks[i], db.logs[i]);
    }
  }

  lemma AppendKeepsValid(db: Db, id: TaskId, u: Update)
    requires Valid(db)
    requires id < |db.tasks| ==> Follows(db.tasks[id].status, u.status)
    ensures AppendEvent(db, id, u).Ok? ==> Valid(AppendEvent(db, id, u).value)
  {
    if AppendEvent(db, id, u).Ok? {
      var t := Apply(db.tasks[id], u);
      ReplaceKeepsIdentities(db.tasks, id, t);
      ReplaceKeepsDestinations(db.tasks, id, t);
      ReplaceKeepsDirectories(db, id, t);
      AppendKeepsLogs(db, id, u);
    }
  }

  lemma UpsertKeepsValid(db: Db, btih: string)
    requires Valid(db) && Btih.NormalBtih(btih)
    ensures Valid(UpsertCandidate(db, btih).0)
  {
    var after := UpsertCandidate(db, btih).0;
    forall i | 0 <= i < |after.tasks| ensures OwnDirectory(after.candidates, after.tasks[i]) {
      assert OwnDirectory(db.candidates, db.tasks[i]);
    }
  }

  /** No history goes back: a log never returns to submitting, and never leaves completed or failed. */
  lemma {:induction false} LogsNeverReopen(t: Task, log: seq<Event>, i: nat, j: nat)
    requires LogOk(t, log) && i < j < |log|
    ensures log[j].status == Submitting ==> log[i].status == Submitting
    ensures Terminal(log[i].status) ==> log[j].status == log[i].status
    decreases j
  {
    assert Follows(log[j - 1].status, log[j].status);
    if i < j - 1 {
      LogsNeverReopen(t, log, i, j - 1);
    }
  }

  // ---- Supersession ----

  /** The tasks a task supersedes, directly and through its predecessors, newest first. */
  function Chain(tasks: seq<Task>, id: TaskId): seq<TaskId>
    requires Links(tasks) && id < |tasks|
    decreases tasks[id].generation
  {
    assert LinkOk(tasks, tasks[id]);
    if tasks[id].supersedes.None? then [id] else [id] + Chain(tasks, tasks[id].supersedes.value)
  }

  /** Supersession is acyclic: generations fall along every chain, so no task repeats and the chain is finite. */
  lemma {:induction false} SupersessionIsAcyclic(tasks: seq<Task>, id: TaskId)
    requires Links(tasks) && id < |tasks|
    ensures var chain := Chain(tasks, id);
            && |chain| <= tasks[id].generation + 1
            && chain[0] == id
            && (forall i :: 0 <= i < |chain| ==> chain[i] < |tasks|)
            && (forall i, j :: 0 <= i < j < |chain| ==> tasks[chain[i]].generation > tasks[chain[j]].generation)
            && tasks[chain[|chain| - 1]].supersedes == None
    decreases tasks[id].generation
  {
    assert LinkOk(tasks, tasks[id]);
    if tasks[id].supersedes.Some? {
      SupersessionIsAcyclic(tasks, tasks[id].supersedes.value);
    }
  }

  // ---- The repository object ----

  class Repository {
    var candidates: seq<string>
    var tasks: seq<Task>
    var logs: seq<seq<Event>>

    function State(): Db
      reads this
    {
      Db(candidates, tasks, logs)
    }

    constructor ()
      ensures State() == Db([], [], [])
    {
      candidates, tasks, logs := [], [], [];
    }

    method ClaimTask(c: Claim, now: int) returns (r: Result<TaskId, StoreError>)
      modifies this
      ensures var after := ClaimDownload(old(State()), c, now);
              && (after.Ok? ==> State() == after.value && r == Ok(|old(tasks)|))
              && (after.Err? ==> State() == old(State()) && r == Err(after.error))
    {
      var existing := FirstClaim(tasks, c.client, c.content, c.candidate, c.generation);
      if existing.Some? {
        return Err(IdempotencyConflict);
      }
      var task := NewTask(c);
      if DestinationTaken(tasks, task, |tasks|) {
        return Err(DestinationBusy);
      }
      if c.candidate >= |candidates| || (c.supersedes.Some? && c.supersedes.value >= |tasks|) {
        return Err(IntegrityViolation);
      }
      r := Ok(|tasks|);
      tasks := tasks + [task];
      logs := logs + [[Event(1, Submitting, System, ClaimCreated, now)]];
    }

    /** The row's columns, assigned one by one. */
    method Updated(row: Task, u: Update) returns (task: Task)
      ensures task == Apply(row, u)
    {
      task := row.(status := u.status);
      if u.externalReference.Some? {
        task := task.(externalReference := u.externalReference);
      }
      if u.baseline.Some? {
        task := task.(baseline := u.baseline);
      }
      if u.completion.Some? {
        task := task.(completion := u.completion);
      }
      task := task.(errorCode := u.errorCode);
      if u.owned.Some? {
        task := task.(owned := u.owned.value);
      }
      if u.source == Manual && u.status == Completed {
        task := task.(manualCompleted := true);
      }
    }

    method Append(id: TaskId, u: Update) returns (r: Result<(), StoreError>)
      requires |logs| == |tasks|
      modifies this
      ensures |logs| == |tasks|
      ensures var after := AppendEvent(old(State()), id, u);
              && (after.Ok? ==> State() == after.value && r == Ok(()))
              && (after.Err? ==> State() == old(State()) && r == Err(after.error))
    {
      hide DestinationTaken, MaxSequence, Apply;
      if id >= |tasks| {
        return Err(NoSuchTask);
      }
      var sequence := MaxSequence(logs[id]);
      var task := Updated(tasks[id], u);
      if DestinationTaken(tasks, task, id) {
        return Err(IntegrityViolation);
      }
      tasks := tasks[id := task];
      logs := logs[id := logs[id] + [Event(sequence + 1, u.status, u.source, u.evidence, u.occurredAt)]];
      r := Ok(());
    }

    method Upsert(btih: string) returns (id: nat)
      modifies this`candidates
      ensures (State(), id) == UpsertCandidate(old(State()), btih)
    {
      var existing := FindCandidate(candidates, btih);
      if existing.Some? {
        return existing.value;
      }
      id := |candidates|;
      candidates := candidates + [btih];
    }
  }
}
