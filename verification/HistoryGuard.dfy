/** When a history sync may start (GetHistory, Sync and SyncForce in
    internal/usecase/history/usecase.go), and when two may run at once. */
module HistoryGuard {
  import opened Text
  import opened PendingRegistry

  const SYNC_COOLDOWN: nat := 30_000_000_000

  /** The two fields under the mutex. */
  datatype Lock = Lock(lastSync: Time, syncing: bool)

  predicate CooledDown(g: Lock, now: Time) { now - g.lastSync > SYNC_COOLDOWN }

  /** A routine sync checks the clock at `t1` and stamps it at `t2`. */
  function AfterRoutine(g: Lock, t1: Time, t2: Time): Lock {
    if CooledDown(g, t1) then Lock(t2, g.syncing) else g
  }

  function AfterForce(g: Lock, now: Time): Lock {
    if g.syncing then g else Lock(now, true)
  }

  class Guard {
    var lastSync: Time
    var syncing: bool

    function View(): Lock reads this { Lock(lastSync, syncing) }

    constructor ()
      ensures View() == Lock(0, false)
    {
      lastSync, syncing := 0, false;
    }

    /** The cooldown check shared by GetHistory and Sync. */
    method Admit(t1: Time, t2: Time) returns (start: bool)
      modifies this`lastSync
      ensures start == CooledDown(old(View()), t1) && View() == AfterRoutine(old(View()), t1, t2)
      ensures start <==> t1 > old(lastSync) + 30_000_000_000
      ensures lastSync == if start then t2 else old(lastSync)
    {
      if t1 - lastSync <= SYNC_COOLDOWN {
        return false;
      }
      lastSync := t2;
      return true;
    }

    method BeginForce(now: Time) returns (start: bool)
      modifies this
      ensures start == !old(syncing) && View() == AfterForce(old(View()), now)
      ensures syncing && lastSync == if start then now else old(lastSync)
    {
      if syncing {
        return false;
      }
      syncing := true;
      lastSync := now;
      return true;
    }

    method EndForce()
      modifies this`syncing
      ensures View() == old(View()).(syncing := false)
    {
      syncing := false;
    }
  }

  // -------------------------------------------------------------------- runs

  /** Ends names the sync that returns. */
  datatype Call = Routine(t1: Time, t2: Time) | Force(now: Time) | Ends(sync: nat)

  /** A sync that started: when it was admitted, what it stamped, and by which entry. */
  datatype Sync = Sync(checked: Time, stamped: Time, forced: bool)

  /** `running` holds the positions in `started` of the syncs still in flight. */
  datatype State = State(lock: Lock, started: seq<Sync>, running: set<nat>)

  const IDLE := State(Lock(0, false), [], {})

  function Launch(s: State, lock: Lock, sync: Sync): State {
    State(lock, s.started + [sync], s.running + {|s.started|})
  }

  function Next(s: State, call: Call): State {
    match call
    case Routine(t1, t2) =>
      if CooledDown(s.lock, t1) then Launch(s, AfterRoutine(s.lock, t1, t2), Sync(t1, t2, false)) else s
    case Force(now) =>
      if !s.lock.syncing then Launch(s, AfterForce(s.lock, now), Sync(now, now, true)) else s
    case Ends(i) =>
      if i in s.running && i < |s.started| then
        State(if s.started[i].forced then s.lock.(syncing := false) else s.lock, s.started, s.running - {i})
      else s
  }

  /** The state before call `k`. */
  function At(calls: seq<Call>, k: nat): State
    requires k <= |calls|
  {
    if k == 0 then IDLE else Next(At(calls, k - 1), calls[k - 1])
  }

  /** The last clock reading before call `k`. */
  function Clock(calls: seq<Call>, k: nat): Time
    requires k <= |calls|
  {
    if k == 0 then 0 else Reading(calls[k - 1], Clock(calls, k - 1))
  }

  function Reading(call: Call, clock: Time): Time {
    match call
    case Routine(_, t2) => t2
    case Force(now) => now
    case Ends(_) => clock
  }

  predicate ReadsAfter(call: Call, clock: Time) {
    match call
    case Routine(t1, t2) => clock <= t1 <= t2
    case Force(now) => clock <= now
    case Ends(_) => true
  }

  /** The clock never runs backwards over the calls. */
  predicate OnClock(calls: seq<Call>) {
    forall k :: 0 <= k < |calls| ==> ReadsAfter(calls[k], Clock(calls, k))
  }

  /** A forced sync in flight. */
  predicate Forced(s: State, i: nat) {
    i in s.running && i < |s.started| && s.started[i].forced
  }

  ghost predicate Inv(s: State) {
    && (forall i :: i in s.running ==> i < |s.started|)
    && (forall i :: Forced(s, i) ==> s.lock.syncing)
    && (forall i, j :: Forced(s, i) && Forced(s, j) ==> i == j)
  }

  ghost predicate Spaced(s: State) {
    && (forall i :: 0 <= i < |s.started| ==> s.started[i].stamped <= s.lock.lastSync)
    && (forall i, j :: 0 <= i < j < |s.started| && !s.started[j].forced ==>
          s.started[j].checked - s.started[i].stamped > SYNC_COOLDOWN)
  }

  lemma {:induction false} RunInv(calls: seq<Call>, k: nat)
    requires k <= |calls|
    ensures Inv(At(calls, k))
  {
    if k > 0 {
      RunInv(calls, k - 1);
      StepInv(At(calls, k - 1), calls[k - 1]);
    }
  }

  lemma {:induction false} StepInv(s: State, call: Call)
    requires Inv(s)
    ensures Inv(Next(s, call))
  {
    var t := Next(s, call);
    forall i | Forced(t, i)
      ensures Forced(s, i) || (i == |s.started| && call.Force? && !s.lock.syncing)
      ensures t.lock.syncing
    {
      assert call.Ends? && Forced(s, call.sync) ==> i != call.sync;
    }
  }

  lemma {:induction false} Reached(calls: seq<Call>, k: nat) returns (s: State)
    requires k <= |calls|
    ensures s == At(calls, k) && Inv(s)
  {
    RunInv(calls, k);
    s := At(calls, k);
  }

  lemma {:induction false} RunSpaced(calls: seq<Call>, k: nat)
    requires k <= |calls| && OnClock(calls)
    ensures Spaced(At(calls, k)) && At(calls, k).lock.lastSync <= Clock(calls, k)
  {
    if k > 0 {
      RunSpaced(calls, k - 1);
      assert ReadsAfter(calls[k - 1], Clock(calls, k - 1));
      StepSpaced(At(calls, k - 1), calls[k - 1], Clock(calls, k - 1));
    }
  }

  lemma {:induction false} StepSpaced(s: State, call: Call, clock: Time)
    requires Spaced(s) && s.lock.lastSync <= clock && ReadsAfter(call, clock)
    ensures Spaced(Next(s, call))
    ensures clock <= Reading(call, clock) && Next(s, call).lock.lastSync <= Reading(call, clock)
  {
  }

  /** A routine sync starts more than the cooldown after every sync before it, forced
      ones included, and at most one forced sync runs at a time. */
  lemma {:induction false} SyncsAreSpaced(calls: seq<Call>, k: nat)
    requires k <= |calls| && OnClock(calls)
    ensures
      var s := At(calls, k);
      && (forall i, j :: 0 <= i < j < |s.started| && !s.started[j].forced ==>
            s.started[j].checked - s.started[i].stamped > SYNC_COOLDOWN)
      && (forall i, j :: Forced(s, i) && Forced(s, j) ==> i == j)
  {
    RunInv(calls, k);
    RunSpaced(calls, k);
  }

  /** The stamp of the newest sync; the zero time before the first. */
  function LastStamp(s: State): Time {
    if s.started == [] then 0 else s.started[|s.started| - 1].stamped
  }

  /** The lock tells the newest stamp, and whether a forced sync is in flight. */
  ghost predicate LockTells(s: State) {
    s.lock.lastSync == LastStamp(s) && (s.lock.syncing <==> exists i: nat :: Forced(s, i))
  }

  lemma {:induction false} StepTells(s: State, call: Call)
    requires Inv(s) && LockTells(s)
    ensures LockTells(Next(s, call))
  {
    var t := Next(s, call);
    if s.lock.syncing {
      var i: nat :| Forced(s, i);
      assert t.lock.syncing ==> Forced(t, i);
      assert !t.lock.syncing ==> Forced(s, call.sync) && call.sync == i;
      assert !t.lock.syncing ==> forall j: nat :: Forced(t, j) ==> Forced(s, j) && j != i;
    } else {
      assert call.Force? ==> Forced(t, |s.started|);
      assert !call.Force? ==> forall j: nat :: Forced(t, j) ==> Forced(s, j);
    }
  }

  lemma {:induction false} RunTells(calls: seq<Call>, k: nat)
    requires k <= |calls|
    ensures LockTells(At(calls, k))
  {
    if k > 0 {
      RunInv(calls, k - 1);
      RunTells(calls, k - 1);
      StepTells(At(calls, k - 1), calls[k - 1]);
    }
  }

  /** Which calls start a sync, without the lock: a routine one exactly more than 30
      seconds after the newest stamp, a forced one exactly when no forced sync is in
      flight.  The sync is stamped by its own call and runs until it returns. */
  lemma {:induction false} StartsExactlyWhen(calls: seq<Call>, k: nat)
    requires k < |calls|
    ensures
      var s, t := At(calls, k), At(calls, k + 1);
      match calls[k]
      case Routine(t1, t2) =>
        if t1 > LastStamp(s) + 30_000_000_000 then
          t.started == s.started + [Sync(t1, t2, false)] && t.running == s.running + {|s.started|}
        else t == s
      case Force(now) =>
        if forall i: nat :: i in s.running && i < |s.started| ==> !s.started[i].forced then
          t.started == s.started + [Sync(now, now, true)] && t.running == s.running + {|s.started|}
        else t == s
      case Ends(i) => t.started == s.started && t.running == s.running - {i}
  {
    RunInv(calls, k);
    RunTells(calls, k);
    var s := At(calls, k);
    assert forall i: nat :: Forced(s, i) <==> i in s.running && i < |s.started| && s.started[i].forced;
  }

  // ------------------------------------------------------------ single flight

  /** The call starts a sync although another one is still running. */
  predicate Collides(s: State, call: Call) {
    match call
    case Routine(t1, _) => CooledDown(s.lock, t1) && s.running != {}
    case Force(_) => !s.lock.syncing && s.running != {}
    case Ends(_) => false
  }

  /** Which calls put a second sync in flight: past the cooldown a routine one
      whatever is running, and a forced one unless a forced one is running. */
  lemma {:induction false} StartsBesideAnother(s: State, call: Call)
    requires Inv(s)
    ensures |Next(s, call).started| > |s.started| && |Next(s, call).running| >= 2 <==> Collides(s, call)
    ensures |s.running| <= 1 ==> (|Next(s, call).running| >= 2 <==> Collides(s, call))
  {
    var n := |s.started|;
    assert n !in s.running;
    assert |s.running + {n}| == |s.running| + 1;
    assert s.running != {} <==> |s.running| >= 1;
    if call.Ends? {
      assert s.running - {call.sync} <= s.running;
      SubsetCard(s.running - {call.sync}, s.running);
    }
  }

  /** Never more than one sync in flight up to call `k`. */
  predicate SingleFlight(calls: seq<Call>, k: nat)
    requires k <= |calls|
  {
    |At(calls, k).running| <= 1 && (k > 0 ==> SingleFlight(calls, k - 1))
  }

  predicate NoCollision(calls: seq<Call>, k: nat)
    requires k <= |calls|
  {
    k > 0 ==> !Collides(At(calls, k - 1), calls[k - 1]) && NoCollision(calls, k - 1)
  }

  /** At most one sync in flight before the call, and after it unless it collides. */
  lemma {:induction false} OneMoreCall(s: State, call: Call)
    requires Inv(s) && |s.running| <= 1
    ensures |Next(s, call).running| <= 1 <==> !Collides(s, call)
  {
    StartsBesideAnother(s, call);
  }

  /** The documentation promises that syncs never overlap. Over a run that is so
      exactly when no call collides: no routine call comes past the cooldown, and no
      forced one while the flag is down, with a sync still running. */
  lemma {:induction false} SingleFlightIff(calls: seq<Call>, k: nat)
    requires k <= |calls|
    ensures SingleFlight(calls, k) <==> NoCollision(calls, k)
  {
    if k > 0 {
      SingleFlightIff(calls, k - 1);
      var s := Reached(calls, k - 1);
      if |s.running| <= 1 {
        OneMoreCall(s, calls[k - 1]);
      }
      assert SingleFlight(calls, k - 1) ==> |s.running| <= 1;
    }
  }

  /** A routine sync only ever overlaps syncs that have been running for longer than
      the cooldown. */
  lemma {:induction false} RoutineOverlapsOnlySlow(calls: seq<Call>, k: nat, i: nat)
    requires k < |calls| && OnClock(calls) && calls[k].Routine? && Collides(At(calls, k), calls[k])
    requires i in At(calls, k).running
    ensures i < |At(calls, k).started| && calls[k].t1 - At(calls, k).started[i].stamped > SYNC_COOLDOWN
  {
    RunInv(calls, k);
    RunSpaced(calls, k);
  }

  /** A forced sync meets no such limit: it can overlap a routine one a nanosecond old. */
  lemma {:induction false} ForceOverlapsRoutine(t1: Time, t2: Time, now: Time)
    requires SYNC_COOLDOWN < t1 <= t2 <= now
    ensures
      var calls := [Routine(t1, t2), Force(now)];
      OnClock(calls) && |At(calls, 2).running| == 2 && !SingleFlight(calls, 2)
  {
    var calls := [Routine(t1, t2), Force(now)];
    assert At(calls, 0) == IDLE && Clock(calls, 0) == 0;
    var s := At(calls, 1);
    assert s == Launch(IDLE, Lock(t2, false), Sync(t1, t2, false)) && s.running == {0};
    assert Clock(calls, 1) == t2;
    assert At(calls, 2).running == {0} + {1} == {0, 1};
  }
}
