/**
 * A fallback attempt can meet a conflict when two item loops run side by side: both compute the same next
 * generation for the hash they share, and only one of them claims it.
 */
module Conflict {
  import opened Wrappers
  import opened DownloadState
  import opened Store
  import opened Lifecycle
  import opened Submission
  import opened History
  import opened Fallback
  import opened Interleaving
  import Btih
  import Contention
  import Paths

  // ---- Playing moves ----

  /** Making the moves in order is possible and leads to `end`. */
  ghost predicate Plays(world: World, config: Config, moves: seq<Move>, end: World)
    decreases |moves|
  {
    if |moves| == 0 then world == end
    else Movable(world, moves[0]) && Plays(WorldAfter(world, config, moves[0]), config, moves[1..], end)
  }

  ghost predicate CanBecome(world: World, config: Config, end: World) {
    exists moves :: Plays(world, config, moves, end)
  }

  lemma BecomesItself(world: World, config: Config)
    ensures CanBecome(world, config, world)
  {
    assert Plays(world, config, [], world);
  }

  lemma BecomesNext(world: World, config: Config, move: Move, end: World)
    requires Movable(world, move) && CanBecome(WorldAfter(world, config, move), config, end)
    ensures CanBecome(world, config, end)
  {
    hide Movable, WorldAfter;
    var moves :| Plays(WorldAfter(world, config, move), config, moves, end);
    assert ([move] + moves)[1..] == moves;
    assert Plays(world, config, [move] + moves, end);
  }

  /** A loop claims its next candidate and meets nobody. */
  lemma ClaimLands(world: World, config: Config, k: nat)
    requires Orderly(world) && k < |world.workers| && CanClaim(world.workers[k])
    requires var c := ClaimOf(config, ArgsOf(world.system.db, world.workers[k]), 0);
             !Rivalled(world.system.db, c) && !Awaited(world.system.db, c)
    ensures var db, w := world.system.db, world.workers[k];
            var next := WorldAfter(world, config, Act(k, Crashed, 0));
            && Orderly(next) && next.system.db.candidates == db.candidates
            && next.system.db.tasks == db.tasks + [NewTask(ClaimOf(config, ArgsOf(db, w), 0))]
            && next.workers == world.workers[k := Tried(db, w, Some(|db.tasks|), Calling(|db.tasks|))]
  {
    hide Orderly, WorkerOk, RowOk, Sound, Honest, Rivalled, Awaited, FirstClaim, DestinationTaken;
    hide CandidateId, Paths.ResolveTaskDestination;
    var db, w := world.system.db, world.workers[k];
    var args := ArgsOf(db, w);
    NextIsPossibleIn(world, k, 0);
    OrderlySystem(world);
    StepOf(world.system, config, ClaimTask(args, 0));
    HonestClaim(db, config, args, 0);
    SoundIsValid(db);
    ClaimOutcome(db, ClaimOf(config, args, 0), 0);
    ActKeepsOrderly(world, config, k, Crashed, 0);
    SoundLogs(db);
  }

  lemma OrderlySystem(world: World)
    requires Orderly(world)
    ensures Consistent(world.system) && Sound(world.system.db)
  {
    hide RowOk, WorkerOk;
  }

  /** The client rejects the claimed candidate. */
  lemma RejectionLands(world: World, config: Config, k: nat, id: TaskId)
    requires Orderly(world) && k < |world.workers| && world.workers[k].phase == Calling(id)
    ensures var db, w := world.system.db, world.workers[k];
            var next := WorldAfter(world, config, Act(k, Rejected("explicit_rejection"), 0));
            && Orderly(next) && next.system.db.candidates == db.candidates
            && id < |db.tasks|
            && next.system.db.tasks
               == db.tasks[id := db.tasks[id].(status := Failed, errorCode := Some("explicit_rejection"))]
            && next.workers == world.workers[k := w.(phase := Deciding(id))]
  {
    hide Sound, DestinationTaken, MaxSequence, Replayed, Quiet, Proven;
    var db, w := world.system.db, world.workers[k];
    var reply := Rejected("explicit_rejection");
    OrderlySystem(world);
    NextIsPossible(db, w, reply, 0);
    StepOf(world.system, config, SettleTask(id, reply, 0));
    ActKeepsOrderly(world, config, k, reply, 0);
    assert RowOk(db.tasks[id], db.logs[id], world.system.seen[id]);
    SoundIsValid(db);
    SettleNeverRefused(db, id, SubmitEvent(config, db.tasks[id].destination.value, reply, 0));
  }

  /** The loop reads the rejection and turns to its next candidate. */
  lemma DecisionLands(world: World, config: Config, k: nat, id: TaskId)
    requires Orderly(world) && k < |world.workers| && world.workers[k].phase == Deciding(id)
    requires id < |world.system.db.tasks| && ExplicitlyRejected(world.system.db.tasks[id])
    requires |world.workers[k].attempts| < |world.workers[k].item.accepted|
    ensures var db, w := world.system.db, world.workers[k];
            var next := WorldAfter(world, config, Act(k, Crashed, 0));
            var candidate := CandidateId(db, w.item.accepted[|w.attempts|]);
            && Orderly(next) && next.system == world.system
            && next.workers
               == world.workers[k := w.(generation := NextGeneration(db, CLIENT_KEY, w.item.content, candidate),
                                                     supersedes := Some(id), horizon := |db.tasks|,
                                                     phase := Trying)]
  {
    hide Sound, CandidateId, NextGeneration;
    OrderlySystem(world);
    SoundLogs(world.system.db);
    ActKeepsOrderly(world, config, k, Crashed, 0);
  }

  lemma BecomesFurther(a: World, config: Config, b: World, c: World)
    requires CanBecome(a, config, b) && CanBecome(b, config, c)
    ensures CanBecome(a, config, c)
  {
    hide Plays;
    var first :| Plays(a, config, first, b);
    var second :| Plays(b, config, second, c);
    PlaysOn(a, config, first, b, second, c);
  }

  lemma {:induction false} PlaysOn(a: World, config: Config, first: seq<Move>, b: World, second: seq<Move>, c: World)
    requires Plays(a, config, first, b) && Plays(b, config, second, c)
    ensures Plays(a, config, first + second, c)
    decreases |first|
  {
    hide Movable, WorldAfter;
    if |first| == 0 {
      assert first + second == second;
    } else {
      PlaysOn(WorldAfter(a, config, first[0]), config, first[1..], b, second, c);
      assert (first + second)[1..] == first[1..] + second;
    }
  }

  /** A claim that meets nobody and is then rejected. */
  lemma AttemptFails(world: World, config: Config, k: nat) returns (next: World)
    requires Orderly(world) && k < |world.workers| && CanClaim(world.workers[k])
    requires var c := ClaimOf(config, ArgsOf(world.system.db, world.workers[k]), 0);
             !Rivalled(world.system.db, c) && !Awaited(world.system.db, c)
    ensures CanBecome(world, config, next) && Orderly(next) && next.system.db.candidates == world.system.db.candidates
    ensures var db, w := world.system.db, world.workers[k];
            var n := |db.tasks|;
            && |next.system.db.tasks| == n + 1 && db.tasks <= next.system.db.tasks
            && SameIdentity(next.system.db.tasks[n], NewTask(ClaimOf(config, ArgsOf(db, w), 0)))
            && ExplicitlyRejected(next.system.db.tasks[n])
            && next.workers == world.workers[k := Tried(db, w, Some(n), Deciding(n))]
  {
    hide Orderly, CanBecome, CandidateId, Paths.ResolveTaskDestination, Rivalled, Awaited, WorldAfter, CanClaim;
    var n := |world.system.db.tasks|;
    ClaimLands(world, config, k);
    var claimed := WorldAfter(world, config, Act(k, Crashed, 0));
    RejectionLands(claimed, config, k, n);
    next := WorldAfter(claimed, config, Act(k, REJECT, 0));
    BecomesItself(next, config);
    BecomesNext(claimed, config, Act(k, REJECT, 0), next);
    BecomesNext(world, config, Act(k, Crashed, 0), next);
  }

  // ---- Two loops that share a hash ----

  /** Three stored hashes, no task, no loop. */
  function Opening(f1: string, f2: string, h: string): World {
    World(Sys(Db([f1, f2, h], [], []), []), [])
  }

  ghost predicate ThreeHashes(f1: string, f2: string, h: string) {
    Btih.NormalBtih(f1) && Btih.NormalBtih(f2) && Btih.NormalBtih(h) && f1 != f2 && f1 != h && f2 != h
  }

  function ItemX(f1: string, h: string): Item {
    Item(0, "/a", [f1, h])
  }

  function ItemY(f2: string, h: string): Item {
    Item(1, "/b", [f2, h])
  }

  lemma HashIds(db: Db, f1: string, f2: string, h: string)
    requires db.candidates == [f1, f2, h] && ThreeHashes(f1, f2, h)
    ensures CandidateId(db, f1) == 0 && CandidateId(db, f2) == 1 && CandidateId(db, h) == 2
  {
    hide Btih.NormalBtih;
    assert [f1, f2, h][..2] == [f1, f2] && [f1, f2][..1] == [f1];
  }

  lemma OpeningIsOrderly(f1: string, f2: string, h: string)
    requires ThreeHashes(f1, f2, h)
    ensures Orderly(Opening(f1, f2, h))
    ensures Prepared(Opening(f1, f2, h).system.db, ItemX(f1, h)) && Prepared(Opening(f1, f2, h).system.db, ItemY(f2, h))
  {
    hide Btih.NormalBtih;
    var hashes := [f1, f2, h];
    assert hashes[0] == f1 && hashes[1] == f2 && hashes[2] == h;
  }

  /** Both loops have had their first candidate rejected. */
  ghost predicate BothRejected(world: World, f1: string, f2: string, h: string) {
    && Orderly(world) && world.system.db.candidates == [f1, f2, h]
    && |world.system.db.tasks| == 2 && |world.workers| == 2
    && (forall k :: 0 <= k < 2 ==>
          && world.system.db.tasks[k].client == CLIENT_KEY && world.system.db.tasks[k].content == k
          && world.system.db.tasks[k].candidate == k && world.system.db.tasks[k].generation == 0
          && ExplicitlyRejected(world.system.db.tasks[k])
          && world.workers[k].phase == Deciding(k) && |world.workers[k].attempts| == 1)
    && world.workers[0].item == ItemX(f1, h) && world.workers[1].item == ItemY(f2, h)
  }

  const REJECT := Rejected("explicit_rejection")

  /** Both loops started, nothing claimed. */
  ghost predicate BothStarted(world: World, f1: string, f2: string, h: string) {
    && Orderly(world) && world.system.db == Db([f1, f2, h], [], [])
    && world.workers == [NewWorker(ItemX(f1, h)), NewWorker(ItemY(f2, h))]
  }

  lemma StartBoth(f1: string, f2: string, h: string) returns (world: World)
    requires ThreeHashes(f1, f2, h)
    ensures CanBecome(Opening(f1, f2, h), Contention.SETTINGS, world) && BothStarted(world, f1, f2, h)
  {
    hide Orderly, Prepared, CanBecome, ThreeHashes;
    var config := Contention.SETTINGS;
    var w0 := Opening(f1, f2, h);
    OpeningIsOrderly(f1, f2, h);
    StartKeepsOrderly(w0, config, ItemX(f1, h));
    var w1 := WorldAfter(w0, config, Start(ItemX(f1, h)));
    StartKeepsOrderly(w1, config, ItemY(f2, h));
    world := WorldAfter(w1, config, Start(ItemY(f2, h)));
    BecomesItself(world, config);
    BecomesNext(w1, config, Start(ItemY(f2, h)), world);
    BecomesNext(w0, config, Start(ItemX(f1, h)), world);
  }

  lemma RejectBoth(start: World, f1: string, f2: string, h: string) returns (world: World)
    requires ThreeHashes(f1, f2, h) && BothStarted(start, f1, f2, h)
    ensures CanBecome(start, Contention.SETTINGS, world) && BothRejected(world, f1, f2, h)
  {
    hide Orderly, CandidateId, Paths.ResolveTaskDestination, CanBecome, Btih.NormalBtih;
    var config := Contention.SETTINGS;
    Contention.TwoDirectories(f1);
    Contention.TwoDirectories(f2);
    HashIds(start.system.db, f1, f2, h);
    var middle := AttemptFails(start, config, 0);
    HashIds(middle.system.db, f1, f2, h);
    world := AttemptFails(middle, config, 1);
    BecomesFurther(start, config, middle, world);
  }

  /** Both loops go for the shared hash at the same generation, and the first of them has claimed it. */
  ghost predicate OneClaimed(world: World, f1: string, f2: string, h: string) {
    && Orderly(world) && world.system.db.candidates == [f1, f2, h]
    && |world.system.db.tasks| == 3 && |world.workers| == 2
    && (forall k :: 0 <= k < 2 ==>
          && world.system.db.tasks[k].client == CLIENT_KEY && world.system.db.tasks[k].content == k
          && world.system.db.tasks[k].candidate == k && world.system.db.tasks[k].generation == 0
          && ExplicitlyRejected(world.system.db.tasks[k]))
    && world.system.db.tasks[2].client == CLIENT_KEY && world.system.db.tasks[2].content == 0
    && world.system.db.tasks[2].candidate == 2 && world.system.db.tasks[2].generation == 1
    && world.workers[1].item == ItemY(f2, h) && |world.workers[1].attempts| == 1
    && world.workers[1].phase == Trying && world.workers[1].generation == 1
  }

  /** With all rows at generation zero, one of them claiming, the next generation is one. */
  lemma NextIsOne(db: Db, content: nat, candidate: nat)
    requires forall i :: 0 <= i < |db.tasks| ==> db.tasks[i].generation == 0
    ensures NextGeneration(db, CLIENT_KEY, content, candidate) == 1
  {
    NextGenerationIsNext(db, CLIENT_KEY, content, candidate);
  }

  lemma ClaimShared(start: World, f1: string, f2: string, h: string) returns (world: World)
    requires ThreeHashes(f1, f2, h) && BothRejected(start, f1, f2, h)
    ensures CanBecome(start, Contention.SETTINGS, world) && OneClaimed(world, f1, f2, h)
  {
    hide Orderly, CandidateId, Paths.ResolveTaskDestination, CanBecome, Btih.NormalBtih, NextGeneration, WorldAfter;
    var config := Contention.SETTINGS;
    Contention.TwoDirectories(h);
    HashIds(start.system.db, f1, f2, h);
    NextIsOne(start.system.db, 0, 2);
    NextIsOne(start.system.db, 1, 2);
    DecisionLands(start, config, 0, 0);
    var a := WorldAfter(start, config, Act(0, Crashed, 0));
    DecisionLands(a, config, 1, 1);
    var b := WorldAfter(a, config, Act(1, Crashed, 0));
    ClaimLands(b, config, 0);
    world := WorldAfter(b, config, Act(0, Crashed, 0));
    BecomesItself(world, config);
    BecomesNext(b, config, Act(0, Crashed, 0), world);
    BecomesNext(a, config, Act(1, Crashed, 0), world);
    BecomesNext(start, config, Act(0, Crashed, 0), world);
  }

  /** The second loop's fallback is refused, and the task that its item is linked to is its own rejected one. */
  ghost predicate LinkedToItself(world: World) {
    && |world.workers| == 2 && |world.system.db.tasks| == 3
    && var w := world.workers[1];
       && w.phase == Over(Refused(IdempotencyConflict))
       && |w.attempts| == 2 && w.attempts[0].task == Some(1)
       && ExplicitlyRejected(world.system.db.tasks[1])
       && FirstClaim(world.system.db.tasks, CLIENT_KEY, w.item.content, w.attempts[1].candidate, 0) == Some(1)
  }

  lemma RefuseSecond(start: World, f1: string, f2: string, h: string)
    requires ThreeHashes(f1, f2, h) && OneClaimed(start, f1, f2, h)
    ensures var world := WorldAfter(start, Contention.SETTINGS, Act(1, Crashed, 0));
            LinkedToItself(world) && CanBecome(start, Contention.SETTINGS, world)
  {
    hide CandidateId, Paths.ResolveTaskDestination, CanBecome, Btih.NormalBtih, Trace, Prepared, Consistent,
    DestinationTaken;
    var config := Contention.SETTINGS;
    var db, w := start.system.db, start.workers[1];
    Contention.TwoDirectories(h);
    HashIds(db, f1, f2, h);
    NextIsPossibleIn(start, 1, 0);
    OrderlySystem(start);
    SoundLogs(db);
    StepOf(start.system, config, ClaimTask(ArgsOf(db, w), 0));
    assert Rivals(db.tasks[2], ClaimOf(config, ArgsOf(db, w), 0));
    var world := WorldAfter(start, config, Act(1, Crashed, 0));
    BecomesItself(world, config);
    BecomesNext(start, config, Act(1, Crashed, 0), world);
  }

  /**
   * From a store with three hashes and no task, two loops side by side: both first candidates are rejected,
   * both loops compute generation one for the hash they share, one claims it, and the other's fallback is
   * refused as a duplicate, with nothing but its own rejected task to link its item to.
   */
  lemma FallbackMeetsConflict(f1: string, f2: string, h: string)
    requires ThreeHashes(f1, f2, h)
    ensures exists world :: CanBecome(Opening(f1, f2, h), Contention.SETTINGS, world) && LinkedToItself(world)
  {
    hide CanBecome, LinkedToItself, OneClaimed, BothRejected, BothStarted, ThreeHashes;
    var a := StartBoth(f1, f2, h);
    var b := RejectBoth(a, f1, f2, h);
    var c := ClaimShared(b, f1, f2, h);
    RefuseSecond(c, f1, f2, h);
    var d := WorldAfter(c, Contention.SETTINGS, Act(1, Crashed, 0));
    BecomesFurther(a, Contention.SETTINGS, b, c);
    BecomesFurther(Opening(f1, f2, h), Contention.SETTINGS, a, c);
    BecomesFurther(Opening(f1, f2, h), Contention.SETTINGS, c, d);
  }
}
