/**
 * The locks around a run (runs/service.py, `execute`): any number of threads, each about to take a
 * profile lock, then one of a bounded number of slots, then a run row that the database allows once a
 * profile. Threads interleave between any two steps.
 */
module RunLocks {

  type Profile = nat

  datatype Verdict = Success | Partial | Failed

  datatype RowStatus = Running | Terminal(verdict: Verdict)

  datatype Row = Row(profile: Profile, status: RowStatus)

  /** Where a thread is inside `execute`. */
  datatype Position =
    | Outside
    | Locked(profile: Profile)
    | Slotless(profile: Profile)
    | Entered(profile: Profile)
    | Executing(profile: Profile, run: nat)
    | Leaving(profile: Profile)
    | Unslotted(profile: Profile)

  /** `held` are the taken profile locks, `free` the free slots, `finishes` the runs finished so far, in order. */
  datatype State = State(threads: seq<Position>, held: set<Profile>, free: nat, rows: seq<Row>, finishes: seq<nat>)

  /** What is not decided by the state: the requested profile, whether the run may start, how it ends. */
  datatype Choice = Choice(profile: Profile, starts: bool, verdict: Verdict)

  predicate RunningRow(rows: seq<Row>, profile: Profile) {
    exists r :: 0 <= r < |rows| && rows[r] == Row(profile, Running)
  }

  /** The next step of thread `t`. */
  function Step(s: State, t: nat, c: Choice): State
    requires t < |s.threads|
  {
    match s.threads[t]
    case Outside =>
      // profile_lock.acquire(blocking=False); on failure the call is skipped
      if c.profile in s.held then s else Moved(s, t, Locked(c.profile)).(held := s.held + {c.profile})
    case Locked(p) =>
      // _global_slots.acquire(blocking=False)
      if s.free == 0 then Moved(s, t, Slotless(p)) else Moved(s, t, Entered(p)).(free := s.free - 1)
    case Slotless(p) => Moved(s, t, Outside).(held := s.held - {p})
    case Entered(p) =>
      // the profile may be missing, archived or disabled, and the index refuses a second running row
      if !c.starts || RunningRow(s.rows, p) then Moved(s, t, Leaving(p))
      else Moved(s, t, Executing(p, |s.rows|)).(rows := s.rows + [Row(p, Running)])
    case Executing(p, r) =>
      // finish_run: refuses a missing or finished row
      if r < |s.rows| && s.rows[r].status == Running then
        Moved(s, t, Leaving(p)).(rows := s.rows[r := s.rows[r].(status := Terminal(c.verdict))],
                                 finishes := s.finishes + [r])
      else Moved(s, t, Leaving(p))
    case Leaving(p) => Moved(s, t, Unslotted(p)).(free := s.free + 1)
    case Unslotted(p) => Moved(s, t, Outside).(held := s.held - {p})
  }

  function Moved(s: State, t: nat, p: Position): State
    requires t < |s.threads|
  {
    s.(threads := s.threads[t := p])
  }

  predicate HoldsSlot(p: Position) {
    p.Entered? || p.Executing? || p.Leaving?
  }

  predicate HoldsLock(p: Position, profile: Profile) {
    !p.Outside? && p.profile == profile
  }

  function Holders(threads: seq<Position>): nat {
    if |threads| == 0 then 0
    else Holders(threads[..|threads| - 1]) + if HoldsSlot(threads[|threads| - 1]) then 1 else 0
  }

  lemma {:induction false} HoldersAfter(threads: seq<Position>, t: nat, p: Position)
    requires t < |threads|
    ensures Holders(threads[t := p]) + (if HoldsSlot(threads[t]) then 1 else 0)
            == Holders(threads) + (if HoldsSlot(p) then 1 else 0)
  {
    var n := |threads| - 1;
    if t == n {
      assert threads[t := p][..n] == threads[..n];
    } else {
      HoldersAfter(threads[..n], t, p);
      assert threads[t := p][..n] == threads[..n][t := p];
    }
  }

  lemma {:induction false} HolderCounts(threads: seq<Position>, t: nat)
    requires t < |threads| && HoldsSlot(threads[t])
    ensures Holders(threads) > 0
  {
    var n := |threads| - 1;
    if t < n {
      HolderCounts(threads[..n], t);
    }
  }

  // ---- The invariant ----

  /** Free slots and holders always make up the configured number. */
  ghost predicate SlotsOk(s: State, max: nat) {
    s.free + Holders(s.threads) == max
  }

  /** A profile lock is taken exactly when some thread holds it, and then by one thread only. */
  ghost predicate LocksOk(s: State) {
    && (forall p :: p in s.held <==> exists t :: 0 <= t < |s.threads| && HoldsLock(s.threads[t], p))
    && (forall t, u :: 0 <= t < u < |s.threads| && !s.threads[t].Outside? && !s.threads[u].Outside?
                       ==> s.threads[t].profile != s.threads[u].profile)
  }

  /** At most one running row a profile; the running rows are those left over and those being executed. */
  ghost predicate RowsOk(s: State, leftover: nat) {
    && leftover <= |s.rows|
    && (forall i, j :: 0 <= i < j < |s.rows| && s.rows[i].status == Running && s.rows[j].status == Running
                       ==> s.rows[i].profile != s.rows[j].profile)
    && (forall t :: 0 <= t < |s.threads| && s.threads[t].Executing? ==>
          leftover <= s.threads[t].run < |s.rows| && s.rows[s.threads[t].run] == Row(s.threads[t].profile, Running))
    && (forall r :: leftover <= r < |s.rows| && s.rows[r].status == Running ==>
          exists t :: 0 <= t < |s.threads| && s.threads[t] == Executing(s.rows[r].profile, r))
  }

  /** Every row of this service that is not running was finished exactly once, and no other row was. */
  ghost predicate FinishesOk(s: State, leftover: nat) {
    && (forall i, j :: 0 <= i < j < |s.finishes| ==> s.finishes[i] != s.finishes[j])
    && (forall r :: r in s.finishes <==> leftover <= r < |s.rows| && s.rows[r].status != Running)
  }

  ghost predicate Safe(s: State, max: nat, leftover: nat) {
    SlotsOk(s, max) && LocksOk(s) && RowsOk(s, leftover) && FinishesOk(s, leftover)
  }

  /** A service starts with idle threads, all slots free, and possibly rows that an earlier process left running. */
  ghost predicate Initial(s: State, max: nat, leftover: nat) {
    && (forall t :: 0 <= t < |s.threads| ==> s.threads[t] == Outside)
    && s.held == {} && s.free == max && s.finishes == [] && leftover == |s.rows|
    && (forall i, j :: 0 <= i < j < |s.rows| && s.rows[i].status == Running && s.rows[j].status == Running
                       ==> s.rows[i].profile != s.rows[j].profile)
  }

  lemma {:induction false} IdleHoldNothing(threads: seq<Position>)
    requires forall t :: 0 <= t < |threads| ==> threads[t] == Outside
    ensures Holders(threads) == 0
  {
    if |threads| != 0 {
      IdleHoldNothing(threads[..|threads| - 1]);
    }
  }

  lemma InitialIsSafe(s: State, max: nat, leftover: nat)
    requires Initial(s, max, leftover)
    ensures Safe(s, max, leftover)
  {
    IdleHoldNothing(s.threads);
  }

  lemma StepKeepsSlots(s: State, t: nat, c: Choice, max: nat)
    requires t < |s.threads| && SlotsOk(s, max)
    ensures SlotsOk(Step(s, t, c), max)
  {
    var after := Step(s, t, c);
    HoldersAfter(s.threads, t, after.threads[t]);
    assert after.threads == s.threads[t := after.threads[t]];
  }

  lemma StepKeepsLocks(s: State, t: nat, c: Choice)
    requires t < |s.threads| && LocksOk(s)
    ensures LocksOk(Step(s, t, c))
  {
    hide RunningRow;
    var after := Step(s, t, c);
    forall p ensures p in after.held <==> exists u :: 0 <= u < |after.threads| && HoldsLock(after.threads[u], p) {
      if u :| 0 <= u < |s.threads| && u != t && HoldsLock(s.threads[u], p) {
        assert HoldsLock(after.threads[u], p);
      }
      if HoldsLock(after.threads[t], p) {
        assert HoldsLock(after.threads[t], p);
      }
    }
  }

  /** A step that neither creates nor finishes a row. */
  lemma OtherStepKeepsRows(s: State, t: nat, after: State, leftover: nat)
    requires t < |s.threads| && RowsOk(s, leftover) && !s.threads[t].Executing?
    requires after.rows == s.rows && |after.threads| == |s.threads| && !after.threads[t].Executing?
    requires forall u :: 0 <= u < |s.threads| && u != t ==> after.threads[u] == s.threads[u]
    ensures RowsOk(after, leftover)
  {
    forall r | leftover <= r < |after.rows| && after.rows[r].status == Running
      ensures exists u :: 0 <= u < |after.threads| && after.threads[u] == Executing(after.rows[r].profile, r)
    {
      var u :| 0 <= u < |s.threads| && s.threads[u] == Executing(s.rows[r].profile, r);
      assert after.threads[u] == s.threads[u];
    }
  }

  lemma StartKeepsRows(s: State, t: nat, p: Profile, leftover: nat)
    requires t < |s.threads| && RowsOk(s, leftover) && s.threads[t] == Entered(p) && !RunningRow(s.rows, p)
    ensures RowsOk(Moved(s, t, Executing(p, |s.rows|)).(rows := s.rows + [Row(p, Running)]), leftover)
  {
    var after := Moved(s, t, Executing(p, |s.rows|)).(rows := s.rows + [Row(p, Running)]);
    forall i | 0 <= i < |s.rows| && s.rows[i].status == Running ensures s.rows[i].profile != p {
      assert s.rows[i] == Row(s.rows[i].profile, Running);
    }
    forall r | leftover <= r < |after.rows| && after.rows[r].status == Running
      ensures exists u :: 0 <= u < |after.threads| && after.threads[u] == Executing(after.rows[r].profile, r)
    {
      if r < |s.rows| {
        var u :| 0 <= u < |s.threads| && s.threads[u] == Executing(s.rows[r].profile, r);
        assert after.threads[u] == s.threads[u];
      } else {
        assert after.threads[t] == Executing(p, r);
      }
    }
  }

  lemma FinishKeepsRows(s: State, t: nat, p: Profile, run: nat, verdict: Verdict, finishes: seq<nat>, leftover: nat)
    requires t < |s.threads| && LocksOk(s) && RowsOk(s, leftover) && s.threads[t] == Executing(p, run) && run < |s.rows|
    ensures RowsOk(Moved(s, t, Leaving(p)).(rows := s.rows[run := s.rows[run].(status := Terminal(verdict))],
                                            finishes := finishes), leftover)
  {
    var after := Moved(s, t, Leaving(p)).(rows := s.rows[run := s.rows[run].(status := Terminal(verdict))],
                                          finishes := finishes);
    forall u | 0 <= u < |after.threads| && after.threads[u].Executing?
      ensures leftover <= after.threads[u].run < |after.rows|
      ensures after.rows[after.threads[u].run] == Row(after.threads[u].profile, Running)
    {
      assert u != t && after.threads[u] == s.threads[u];
      assert s.threads[u].profile != p;
      assert s.threads[u].run != run;
    }
    forall r | leftover <= r < |after.rows| && after.rows[r].status == Running
      ensures exists u :: 0 <= u < |after.threads| && after.threads[u] == Executing(after.rows[r].profile, r)
    {
      var u :| 0 <= u < |s.threads| && s.threads[u] == Executing(s.rows[r].profile, r);
      assert u != t;
      assert after.threads[u] == s.threads[u];
    }
  }

  lemma StepKeepsRows(s: State, t: nat, c: Choice, leftover: nat)
    requires t < |s.threads| && LocksOk(s) && RowsOk(s, leftover)
    ensures RowsOk(Step(s, t, c), leftover)
  {
    hide RowsOk, LocksOk, RunningRow;
    match s.threads[t] {
      case Entered(p) =>
        if c.starts && !RunningRow(s.rows, p) {
          StartKeepsRows(s, t, p, leftover);
        } else {
          OtherStepKeepsRows(s, t, Step(s, t, c), leftover);
        }
      case Executing(p, r) =>
        ExecutedRowRuns(s, t, leftover);
        FinishKeepsRows(s, t, p, r, c.verdict, s.finishes + [r], leftover);
      case _ =>
        OtherStepKeepsRows(s, t, Step(s, t, c), leftover);
    }
  }

  /** `finish_run` finds the row of an executing thread running. */
  lemma ExecutedRowRuns(s: State, t: nat, leftover: nat)
    requires t < |s.threads| && RowsOk(s, leftover) && s.threads[t].Executing?
    ensures s.threads[t].run < |s.rows| && s.rows[s.threads[t].run].status == Running
  {
  }

  lemma StepKeepsFinishes(s: State, t: nat, c: Choice, leftover: nat)
    requires t < |s.threads| && RowsOk(s, leftover) && FinishesOk(s, leftover)
    ensures FinishesOk(Step(s, t, c), leftover)
  {
    hide RunningRow;
  }

  lemma StepKeepsSafe(s: State, t: nat, c: Choice, max: nat, leftover: nat)
    requires t < |s.threads| && Safe(s, max, leftover)
    ensures Safe(Step(s, t, c), max, leftover)
  {
    hide Step, SlotsOk, LocksOk, RowsOk, FinishesOk;
    StepKeepsSlots(s, t, c, max);
    StepKeepsLocks(s, t, c);
    StepKeepsRows(s, t, c, leftover);
    StepKeepsFinishes(s, t, c, leftover);
  }

  // ---- Every interleaving ----

  datatype Move = Move(thread: nat, choice: Choice)

  ghost predicate Interleaving(states: seq<State>, moves: seq<Move>, max: nat, leftover: nat) {
    && |states| == |moves| + 1 && Initial(states[0], max, leftover)
    && forall k :: 0 <= k < |moves| ==>
         moves[k].thread < |states[k].threads| && states[k + 1] == Step(states[k], moves[k].thread, moves[k].choice)
  }

  lemma {:induction false} AlwaysSafe(states: seq<State>, moves: seq<Move>, max: nat, leftover: nat, k: nat)
    requires Interleaving(states, moves, max, leftover) && k < |states|
    ensures Safe(states[k], max, leftover)
  {
    hide Step, Safe;
    if k == 0 {
      InitialIsSafe(states[0], max, leftover);
    } else {
      AlwaysSafe(states, moves, max, leftover, k - 1);
      StepKeepsSafe(states[k - 1], moves[k - 1].thread, moves[k - 1].choice, max, leftover);
    }
  }

  /**
   * Under every interleaving: at most one thread a profile is inside, never more than `max` threads
   * execute, no two running rows share a profile, `finish_run` always finds its row running, and a slot is
   * only released while fewer than `max` are free.
   */
  lemma MutualExclusion(states: seq<State>, moves: seq<Move>, max: nat, leftover: nat, k: nat)
    requires Interleaving(states, moves, max, leftover) && k < |states|
    ensures var s := states[k];
            && Holders(s.threads) <= max
            && (forall t, u :: 0 <= t < u < |s.threads| && HoldsSlot(s.threads[t]) && HoldsSlot(s.threads[u])
                               ==> s.threads[t].profile != s.threads[u].profile)
            && (forall i, j :: 0 <= i < j < |s.rows| && s.rows[i].status == Running && s.rows[j].status == Running
                               ==> s.rows[i].profile != s.rows[j].profile)
            && (forall t :: 0 <= t < |s.threads| && s.threads[t].Executing? ==>
                  s.threads[t].run < |s.rows| && s.rows[s.threads[t].run].status == Running)
            && (forall t :: 0 <= t < |s.threads| && s.threads[t].Leaving? ==> s.free < max)
  {
    AlwaysSafe(states, moves, max, leftover, k);
    var s := states[k];
    forall t | 0 <= t < |s.threads| && s.threads[t].Leaving? ensures s.free < max {
      HolderCounts(s.threads, t);
    }
  }

  /**
   * Every skip and exit path restores both locks: once all threads are outside, all is free and every row of
   * the service is finished once.
   */
  lemma QuietMeansRestored(states: seq<State>, moves: seq<Move>, max: nat, leftover: nat, k: nat)
    requires Interleaving(states, moves, max, leftover) && k < |states|
    requires forall t :: 0 <= t < |states[k].threads| ==> states[k].threads[t] == Outside
    ensures states[k].free == max && states[k].held == {}
    ensures forall r :: leftover <= r < |states[k].rows|
              ==> states[k].rows[r].status != Running && r in states[k].finishes
    ensures forall i, j :: 0 <= i < j < |states[k].finishes| ==> states[k].finishes[i] != states[k].finishes[j]
  {
    AlwaysSafe(states, moves, max, leftover, k);
    IdleHoldNothing(states[k].threads);
  }

  lemma StepKeepsTerminalRow(s: State, t: nat, c: Choice, r: nat)
    requires t < |s.threads| && r < |s.rows| && s.rows[r].status != Running
    ensures r < |Step(s, t, c).rows| && Step(s, t, c).rows[r] == s.rows[r]
  {
  }

  /** A row that is terminal at some point of an interleaving is the same at every later point. */
  lemma {:induction false} TerminalRowsStay(states: seq<State>, moves: seq<Move>, max: nat, leftover: nat,
                                            k: nat, m: nat, r: nat)
    requires Interleaving(states, moves, max, leftover) && k <= m < |states|
    requires r < |states[k].rows| && states[k].rows[r].status != Running
    ensures r < |states[m].rows| && states[m].rows[r] == states[k].rows[r]
    decreases m
  {
    hide Step;
    if k < m {
      TerminalRowsStay(states, moves, max, leftover, k, m - 1, r);
      StepKeepsTerminalRow(states[m - 1], moves[m - 1].thread, moves[m - 1].choice, r);
    }
  }

  /** The steps a thread still has to take at most. */
  function Distance(p: Position): nat {
    match p
    case Outside => 0
    case Locked(_) => 5
    case Slotless(_) => 1
    case Entered(_) => 4
    case Executing(_, _) => 3
    case Leaving(_) => 2
    case Unslotted(_) => 1
  }

  /** The steps that thread `t` takes from state `k` to state `m`. */
  function OwnSteps(moves: seq<Move>, t: nat, k: nat, m: nat): nat
    requires k <= m <= |moves|
    decreases m - k
  {
    if k == m then 0 else OwnSteps(moves, t, k, m - 1) + if moves[m - 1].thread == t then 1 else 0
  }

  lemma StepNears(s: State, u: nat, c: Choice, t: nat)
    requires u < |s.threads| && t < |s.threads|
    ensures |Step(s, u, c).threads| == |s.threads|
    ensures u != t ==> Step(s, u, c).threads[t] == s.threads[t]
    ensures u == t && !s.threads[t].Outside? ==> Distance(Step(s, u, c).threads[t]) < Distance(s.threads[t])
  {
  }

  /** While a thread stays inside, every step it takes brings it closer to the outside, whatever the others do. */
  lemma {:induction false} StayIsPaid(states: seq<State>, moves: seq<Move>, max: nat, leftover: nat,
                                      t: nat, k: nat, m: nat)
    requires Interleaving(states, moves, max, leftover) && k <= m < |states| && t < |states[k].threads|
    requires forall j :: k <= j < m && t < |states[j].threads| ==> !states[j].threads[t].Outside?
    ensures t < |states[m].threads|
    ensures OwnSteps(moves, t, k, m) + Distance(states[m].threads[t]) <= Distance(states[k].threads[t])
    decreases m
  {
    hide Step, Distance;
    if k < m {
      StayIsPaid(states, moves, max, leftover, t, k, m - 1);
      StepNears(states[m - 1], moves[m - 1].thread, moves[m - 1].choice, t);
    }
  }

  /**
   * No lock is ever waited for: in every interleaving a thread is outside again after at most five of its own
   * steps.
   */
  lemma EveryoneLeaves(states: seq<State>, moves: seq<Move>, max: nat, leftover: nat, t: nat, k: nat, m: nat)
    requires Interleaving(states, moves, max, leftover) && k <= m < |states| && t < |states[k].threads|
    requires OwnSteps(moves, t, k, m) >= 5
    ensures exists j :: k <= j <= m && t < |states[j].threads| && states[j].threads[t] == Outside
  {
    hide Interleaving;
    if forall j :: k <= j < m && t < |states[j].threads| ==> !states[j].threads[t].Outside? {
      StayIsPaid(states, moves, max, leftover, t, k, m);
    }
  }

  // ---- What one call does that nobody disturbs ----

  /** Thread `t` takes `n` steps in a row. */
  function Alone(s: State, t: nat, c: Choice, n: nat): (r: State)
    requires t < |s.threads|
    ensures |r.threads| == |s.threads|
    decreases n
  {
    if n == 0 then s else Alone(Step(s, t, c), t, c, n - 1)
  }

  /** The run may start: it is asked to, its profile is nobody's, and a slot is free. */
  ghost predicate MayStart(s: State, c: Choice) {
    c.starts && c.profile !in s.held && s.free > 0 && !RunningRow(s.rows, c.profile)
  }

  /**
   * An undisturbed call runs if it may: it adds one row, finished once with its own verdict. Otherwise it is
   * skipped and leaves everything as it was. Both give back the lock and the slot.
   */
  lemma UndisturbedCall(s: State, t: nat, c: Choice)
    requires t < |s.threads| && s.threads[t] == Outside
    ensures MayStart(s, c) ==>
              Alone(s, t, c, 6) == s.(rows := s.rows + [Row(c.profile, Terminal(c.verdict))],
                                      finishes := s.finishes + [|s.rows|])
    ensures c.profile in s.held ==> Alone(s, t, c, 1) == s
    ensures c.profile !in s.held && s.free == 0 ==> Alone(s, t, c, 3) == s
    ensures c.profile !in s.held && s.free > 0 && !MayStart(s, c) ==> Alone(s, t, c, 5) == s
  {
    hide RunningRow;
    if c.profile in s.held {
      OneMore(s, t, c, 0);
    } else if s.free == 0 {
      SlotlessCall(s, t, c);
    } else if MayStart(s, c) {
      StartedCall(s, t, c);
    } else {
      RefusedCall(s, t, c);
    }
  }

  lemma OneMore(s: State, t: nat, c: Choice, n: nat)
    requires t < |s.threads|
    ensures Alone(s, t, c, 0) == s && Alone(s, t, c, n + 1) == Alone(Step(s, t, c), t, c, n)
  {
  }

  lemma Unrolled(s: State, t: nat, c: Choice, s1: State, s2: State, s3: State, n: nat)
    requires t < |s.threads| && s1 == Step(s, t, c)
    requires |s1.threads| == |s.threads| && s2 == Step(s1, t, c)
    requires |s2.threads| == |s.threads| && s3 == Step(s2, t, c) && |s3.threads| == |s.threads|
    ensures Alone(s, t, c, n + 3) == Alone(s3, t, c, n)
    ensures Alone(s3, t, c, 0) == s3
  {
    hide Step;
    OneMore(s, t, c, n + 2);
    OneMore(s1, t, c, n + 1);
    OneMore(s2, t, c, n);
    OneMore(s3, t, c, 0);
  }

  lemma SlotlessCall(s: State, t: nat, c: Choice)
    requires t < |s.threads| && s.threads[t] == Outside && c.profile !in s.held && s.free == 0
    ensures Alone(s, t, c, 3) == s
  {
    hide Alone, RunningRow;
    var p := c.profile;
    var s1 := s.(threads := s.threads[t := Locked(p)], held := s.held + {p});
    var s2 := s1.(threads := s.threads[t := Slotless(p)]);
    assert s1.threads[t := Slotless(p)] == s2.threads && s2.threads[t := Outside] == s.threads;
    assert s2.held - {p} == s.held;
    Unrolled(s, t, c, s1, s2, s, 0);
  }

  /** Up to the row: the lock, the slot, and what the database says. */
  lemma EnteredCall(s: State, t: nat, c: Choice, n: nat)
    requires t < |s.threads| && s.threads[t] == Outside && c.profile !in s.held && s.free > 0
    ensures var p := c.profile;
            var inside := s.(held := s.held + {p}, free := s.free - 1);
            Alone(s, t, c, n + 3)
            == Alone(if MayStart(s, c)
                     then inside.(threads := s.threads[t := Executing(p, |s.rows|)], rows := s.rows + [Row(p, Running)])
                     else inside.(threads := s.threads[t := Leaving(p)]), t, c, n)
  {
    hide Alone, RunningRow;
    var p := c.profile;
    var s1 := s.(threads := s.threads[t := Locked(p)], held := s.held + {p});
    var s2 := s1.(threads := s.threads[t := Entered(p)], free := s.free - 1);
    var s3 := if MayStart(s, c)
              then s2.(threads := s.threads[t := Executing(p, |s.rows|)], rows := s.rows + [Row(p, Running)])
              else s2.(threads := s.threads[t := Leaving(p)]);
    assert s1.threads[t := Entered(p)] == s2.threads;
    assert s2.threads[t := Leaving(p)] == s.threads[t := Leaving(p)];
    assert s2.threads[t := Executing(p, |s.rows|)] == s.threads[t := Executing(p, |s.rows|)];
    Unrolled(s, t, c, s1, s2, s3, n);
  }

  /** From the last row on: the slot and the lock are given back. */
  lemma LeavingCall(s: State, threads: seq<Position>, t: nat, c: Choice)
    requires t < |threads| && threads[t] == Outside && s.threads == threads[t := Leaving(c.profile)]
    ensures Alone(s, t, c, 2) == s.(threads := threads, free := s.free + 1, held := s.held - {c.profile})
  {
    hide Alone, RunningRow;
    var p := c.profile;
    var s1 := s.(threads := threads[t := Unslotted(p)], free := s.free + 1);
    var s2 := s1.(threads := threads, held := s.held - {p});
    assert s.threads[t := Unslotted(p)] == s1.threads && s1.threads[t := Outside] == threads;
    OneMore(s, t, c, 1);
    OneMore(s1, t, c, 0);
    OneMore(s2, t, c, 0);
  }

  lemma StartedCall(s: State, t: nat, c: Choice)
    requires t < |s.threads| && s.threads[t] == Outside && MayStart(s, c)
    ensures Alone(s, t, c, 6) == s.(rows := s.rows + [Row(c.profile, Terminal(c.verdict))],
                                    finishes := s.finishes + [|s.rows|])
  {
    hide Alone, RunningRow;
    var p, r := c.profile, |s.rows|;
    EnteredCall(s, t, c, 3);
    var s3 := s.(held := s.held + {p}, free := s.free - 1, threads := s.threads[t := Executing(p, r)],
                 rows := s.rows + [Row(p, Running)]);
    var s4 := s3.(threads := s.threads[t := Leaving(p)], rows := s.rows + [Row(p, Terminal(c.verdict))],
                  finishes := s.finishes + [r]);
    assert s3.threads[t := Leaving(p)] == s4.threads;
    assert s3.rows[r := s3.rows[r].(status := Terminal(c.verdict))] == s4.rows;
    OneMore(s3, t, c, 2);
    LeavingCall(s4, s.threads, t, c);
    assert s4.held - {p} == s.held;
    assert Alone(s, t, c, 3 + 3) == Alone(s3, t, c, 3);
  }

  lemma RefusedCall(s: State, t: nat, c: Choice)
    requires t < |s.threads| && s.threads[t] == Outside && c.profile !in s.held && s.free > 0 && !MayStart(s, c)
    ensures Alone(s, t, c, 5) == s
  {
    hide Alone, RunningRow;
    var p := c.profile;
    EnteredCall(s, t, c, 2);
    var s3 := s.(held := s.held + {p}, free := s.free - 1, threads := s.threads[t := Leaving(p)]);
    LeavingCall(s3, s.threads, t, c);
    assert s3.held - {p} == s.held;
    assert Alone(s, t, c, 2 + 3) == Alone(s3, t, c, 2);
  }
}
