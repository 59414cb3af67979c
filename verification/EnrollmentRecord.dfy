/**
 * The enrollment as the guard and the restart service update it, in place, and the proof that what
 * they do without interruption is a run of the interleaved protocol.
 */
module EnrollmentRecord {
  import opened Options
  import opened LearningGuard

  datatype Trigger = RestartTrigger | OtherTrigger

  datatype Intervention = Intervention(trigger: Trigger, active: bool)

  function ActiveRestarts(interventions: map<Id, Intervention>): set<Id> {
    set id | id in interventions && interventions[id] == Intervention(RestartTrigger, true)
  }

  function ActivePlans(plans: map<Id, bool>): set<Id> {
    set id | id in plans && plans[id]
  }

  /** The rows after one guarded upsert. */
  function Upsert(rows: Rows, table: Table, id: Id, change: Change, writer: Request): Rows {
    if id in rows then rows[id := Row(rows[id].table, writer, Changed(rows[id].override, change, writer))]
    else rows[id := Row(table, writer, Changed(None, change, writer))]
  }

  /** The record a restart leaves of the rows it found. */
  function FullRecord(rows: Rows): Restart {
    Restart(rows, Counts(rows), Counts(rows))
  }

  /** It holds all the rows, and counts and removed rows for exactly the five emptied tables. */
  lemma FullRecordAccurate(rows: Rows)
    ensures Accurate(FullRecord(rows)) && FullRecord(rows).snapshot == rows
  {
    CountsTally(rows);
  }

  class Enrollment {
    var live: Rows
    var resetAt: Option<Time>
    var restarts: seq<Restart>
    var interventions: map<Id, Intervention>
    var plans: map<Id, bool>

    /** Runs a write of one record under the guard, and refuses it without effect when the request is stale. */
    method WithLearningWriteGuard(request: Request, table: Table, id: Id, change: Change) returns (ok: bool)
      modifies this`live
      ensures ok <==> !Stale(request.at, resetAt)
      ensures live == if ok then Upsert(old(live), table, id, change, request) else old(live)
    {
      if resetAt.Some? && request.at <= resetAt.value {
        return false;
      }
      if id in live {
        live := live[id := Row(live[id].table, request, Changed(live[id].override, change, request))];
      } else {
        live := live[id := Row(table, request, Changed(None, change, request))];
      }
      return true;
    }

    /** Empties the guarded tables but the module assignments one by one, recording how many rows each delete removed. */
    method EmptyTables() returns (removed: map<Table, nat>)
      modifies this`live
      ensures live == From(old(live), TABLES) && removed == Counts(old(live))
    {
      ghost var found := live;
      FromEnds(found);
      removed := map[];
      var k := 0;
      while k < TABLES
        invariant 0 <= k <= TABLES && live == From(found, k)
        invariant forall t: Table :: t in removed <==> Rank(t) < k
        invariant forall t: Table | t in removed :: removed[t] == |Of(found, t)|
      {
        DeleteKeeps(found, k);
        var t := TableOfRank(k);
        var doomed := Of(live, t);
        live := live - doomed.Keys;
        removed := removed[t := |doomed|];
        assert forall u: Table :: Rank(u) == k ==> u == t;
        k := k + 1;
      }
      assert forall t: Table :: Rank(t) < TABLES <==> !Kept(t);
    }

    /** Clears the unlock dates that staff set on module assignments. */
    method ClearUnlockDates()
      modifies this`live
      ensures live == WithoutOverrides(old(live))
    {
      live := map id | id in live :: live[id].(override := None);
    }

    /** Cancels the active restart interventions and every active recovery plan. */
    method CloseFollowUps()
      modifies this`interventions, this`plans
      ensures ActiveRestarts(interventions) == {} && ActivePlans(plans) == {}
      ensures interventions.Keys == old(interventions).Keys && plans.Keys == old(plans).Keys
      ensures forall id | id in old(interventions) && old(interventions)[id].trigger.OtherTrigger? ::
                interventions[id] == old(interventions)[id]
    {
      interventions := map id | id in interventions ::
        if interventions[id].trigger.RestartTrigger? then Intervention(RestartTrigger, false) else interventions[id];
      plans := map id | id in plans :: false;
    }

    /** Restarts the enrollment at time `now`, unless the student has another enrollment in the curriculum. */
    method Restart(now: Time, overlapping: bool, interventionId: Id, planId: Id) returns (ok: bool)
      requires interventionId !in interventions && planId !in plans
      modifies this
      ensures ok <==> !overlapping
      ensures !ok ==> unchanged(this)
      ensures ok ==> live == Survivors(old(live)) && resetAt == Some(Cut(now))
      ensures ok ==> forall id :: id in live <==> id in old(live) && old(live)[id].table == ModuleAssignments
      ensures ok ==> restarts == old(restarts) + [FullRecord(old(live))]
      ensures ok ==> ActiveRestarts(interventions) == {interventionId} && ActivePlans(plans) == {planId}
      ensures ok ==> forall id | id in old(interventions) && old(interventions)[id].trigger.OtherTrigger? ::
                       id in interventions && interventions[id] == old(interventions)[id]
    {
      if overlapping {
        return false;
      }
      var snapshot, counts := live, Counts(live);
      CloseFollowUps();
      FromEnds(live);
      var removed := EmptyTables();
      restarts := restarts + [LearningGuard.Restart(snapshot, counts, removed)];
      ClearUnlockDates();
      resetAt := Some(Cut(now));
      interventions := interventions[interventionId := Intervention(RestartTrigger, true)];
      plans := plans[planId := true];
      return true;
    }
  }

  /** The protocol state after a guarded write of `pid` that nobody interrupts. */
  function AfterWrite(s: State, pid: Pid, table: Table, id: Id, change: Change): State {
    Step(Step(Step(Step(s, LockForWrite(pid)), Check(pid)), Write(pid, table, id, change)), Commit(pid))
  }

  /** An uninterrupted guarded write of the protocol does to the rows what the guard method does. */
  lemma WriteIsRun(s: State, pid: Pid, table: Table, id: Id, change: Change)
    requires s.lock.None? && pid in s.procs && s.procs[pid].Started?
    requires id in s.db.live || id !in s.db.accepted
    ensures var t, request := AfterWrite(s, pid, table, id, change), s.procs[pid].request;
            && t.lock.None? && t.clock == s.clock && t.stamps == s.stamps
            && (forall p | p != pid :: p in t.procs <==> p in s.procs)
            && t.db.resetAt == s.db.resetAt && t.db.restarts == s.db.restarts
            && t.db.live == if Stale(request.at, s.db.resetAt) then s.db.live else Upsert(s.db.live, table, id, change, request)
  {
  }

  /** The state in which `pid` has emptied `k` tables of the database `found`. */
  function Emptied(s: State, pid: Pid, k: nat, pending: Restart, found: Db): State {
    At(s, pid, Deleting(k, pending)).(db := found.(live := From(found.live, k)))
  }

  lemma StepDelete(s: State, pid: Pid, k: nat, pending: Restart)
    requires pid in s.procs && s.procs[pid] == Deleting(k, pending) && k < TABLES
    ensures Step(s, DeleteTable(pid)) == DeleteNext(s, pid, k, pending)
  {
  }

  lemma DeleteNextEmpties(s: State, pid: Pid, k: nat, pending: Restart, found: Db, next: Restart)
    requires k < TABLES
    requires next == pending.(removed := pending.removed[TableOfRank(k) := |Of(found.live, TableOfRank(k))|])
    ensures DeleteNext(Emptied(s, pid, k, pending, found), pid, k, pending) == Emptied(s, pid, k + 1, next, found)
  {
    DeleteKeeps(found.live, k);
    assert s.procs[pid := Deleting(k, pending)][pid := Deleting(k + 1, next)] == s.procs[pid := Deleting(k + 1, next)];
  }

  /** One delete of a restart: `t` is the state before it. */
  lemma DeleteRun(s: State, t: State, pid: Pid, k: nat, pending: Restart, found: Db) returns (next: Restart)
    requires k < TABLES && PendingFor(pending, found, k) && t == Emptied(s, pid, k, pending, found)
    ensures PendingFor(next, found, k + 1)
    ensures Step(t, DeleteTable(pid)) == Emptied(s, pid, k + 1, next, found)
  {
    next := pending.(removed := pending.removed[TableOfRank(k) := |Of(found.live, TableOfRank(k))|]);
    PendingNext(pending, found, k);
    StepDelete(t, pid, k, pending);
    DeleteNextEmpties(s, pid, k, pending, found, next);
  }

  /** The events of a restart by `pid` that nobody interrupts. */
  function RestartScript(pid: Pid): seq<Event> {
    [LockForRestart(pid), TakeSnapshot(pid)] + seq(TABLES, _ => DeleteTable(pid)) + [ClearOverrides(pid), Stamp(pid), Commit(pid)]
  }

  /** The states that a sequence of events passes through. */
  ghost predicate IsTrace(states: seq<State>, events: seq<Event>) {
    && |states| == |events| + 1
    && forall i | 0 <= i < |events| :: states[i + 1] == Step(states[i], events[i])
  }

  lemma {:induction false} DeletesRun(s: State, states: seq<State>, pid: Pid, k: nat, empty: Restart, found: Db) returns (pending: Restart)
    requires IsTrace(states, RestartScript(pid)) && k <= TABLES
    requires PendingFor(empty, found, 0) && states[2] == Emptied(s, pid, 0, empty, found)
    ensures PendingFor(pending, found, k) && states[k + 2] == Emptied(s, pid, k, pending, found)
  {
    pending := empty;
    if k > 0 {
      var before := DeletesRun(s, states, pid, k - 1, empty, found);
      pending := DeleteRun(s, states[k + 1], pid, k - 1, before, found);
      assert RestartScript(pid)[k + 1] == DeleteTable(pid);
    }
  }

  lemma SnapshotRun(s: State, pid: Pid) returns (empty: Restart)
    requires s.lock.None? && pid !in s.procs
    ensures PendingFor(empty, s.db, 0)
    ensures Step(Step(s, LockForRestart(pid)), TakeSnapshot(pid)) == Emptied(s.(lock := Some(pid), saved := s.db), pid, 0, empty, s.db)
  {
    FromEnds(s.db.live);
    empty := Restart(s.db.live, Counts(s.db.live), map[]);
    assert s.procs[pid := Restarting][pid := Deleting(0, empty)] == s.procs[pid := Deleting(0, empty)];
  }

  lemma PendingIsFull(pending: Restart, found: Db)
    requires PendingFor(pending, found, TABLES)
    ensures pending == FullRecord(found.live)
  {
  }

  lemma StampAndCommit(t: State, pid: Pid, pending: Restart)
    requires pid in t.procs && t.procs[pid] == Deleting(TABLES, pending)
    ensures Step(Step(Step(t, ClearOverrides(pid)), Stamp(pid)), Commit(pid)) ==
            t.(stamps := t.stamps + 1, lock := None, procs := t.procs - {pid},
               db := t.db.(live := WithoutOverrides(t.db.live), resetAt := Some(Cut(t.clock)), resetEra := t.stamps + 1,
                           restarts := t.db.restarts + [pending]))
  {
    var procs := t.procs[pid := Cleared(pending)][pid := Stamped(pending)];
    assert procs - {pid} == t.procs - {pid};
  }

  /** What an uninterrupted restart makes of a protocol state. */
  function AfterRestart(s: State): State {
    s.(stamps := s.stamps + 1, saved := s.db,
       db := s.db.(live := Survivors(s.db.live), resetAt := Some(Cut(s.clock)), resetEra := s.stamps + 1,
                   restarts := s.db.restarts + [FullRecord(s.db.live)]))
  }

  /** An uninterrupted restart of the protocol does to the enrollment what the restart method does. */
  lemma RestartIsRun(states: seq<State>, pid: Pid)
    requires IsTrace(states, RestartScript(pid))
    requires states[0].lock.None? && pid !in states[0].procs
    ensures states[TABLES + 5] == AfterRestart(states[0])
  {
    var s, script := states[0], RestartScript(pid);
    assert script[0] == LockForRestart(pid) && script[1] == TakeSnapshot(pid);
    assert script[TABLES + 2] == ClearOverrides(pid) && script[TABLES + 3] == Stamp(pid) && script[TABLES + 4] == Commit(pid);
    var locked := s.(lock := Some(pid), saved := s.db);
    var empty := SnapshotRun(s, pid);
    var pending := DeletesRun(locked, states, pid, TABLES, empty, s.db);
    RestartEnds(s, pid, pending);
  }

  lemma RestartEnds(s: State, pid: Pid, pending: Restart)
    requires s.lock.None? && pid !in s.procs && PendingFor(pending, s.db, TABLES)
    ensures var t := Emptied(s.(lock := Some(pid), saved := s.db), pid, TABLES, pending, s.db);
            Step(Step(Step(t, ClearOverrides(pid)), Stamp(pid)), Commit(pid)) == AfterRestart(s)
  {
    StampAndCommit(Emptied(s.(lock := Some(pid), saved := s.db), pid, TABLES, pending, s.db), pid, pending);
    PendingIsFull(pending, s.db);
    FromEnds(s.db.live);
    assert s.procs[pid := Deleting(TABLES, pending)] - {pid} == s.procs;
  }

  // ---------------------------------------------------------------- runs that reach the exceptions

  /** The states of a run. */
  function Trace(s: State, events: seq<Event>): (states: seq<State>)
    ensures |states| == |events| + 1 && states[0] == s && states[|events|] == Run(s, events)
    decreases |events|
  {
    [s] + if events == [] then [] else Trace(Step(s, events[0]), events[1..])
  }

  lemma {:induction false} TraceSteps(s: State, events: seq<Event>)
    ensures IsTrace(Trace(s, events), events)
    decreases |events|
  {
    if events != [] {
      TraceSteps(Step(s, events[0]), events[1..]);
      var rest := Trace(Step(s, events[0]), events[1..]);
      forall i | 0 <= i < |events| ensures Trace(s, events)[i + 1] == Step(Trace(s, events)[i], events[i]) {
        if i > 0 { assert rest[i] == Step(rest[i - 1], events[1..][i - 1]); }
      }
    }
  }

  lemma RestartRun(s: State, pid: Pid)
    requires s.lock.None? && pid !in s.procs
    ensures Run(s, RestartScript(pid)) == AfterRestart(s)
  {
    TraceSteps(s, RestartScript(pid));
    RestartIsRun(Trace(s, RestartScript(pid)), pid);
  }

  lemma {:induction false} RunConcat(s: State, a: seq<Event>, b: seq<Event>)
    ensures Run(s, a + b) == Run(Run(s, a), b)
    decreases |a|
  {
    if a == [] {
      assert a + b == b;
    } else {
      assert (a + b)[1..] == a[1..] + b;
      RunConcat(Step(s, a[0]), a[1..], b);
    }
  }

  lemma RunHead(s: State, e: Event, rest: seq<Event>)
    ensures Run(s, [e] + rest) == Run(Step(s, e), rest)
  {
    assert ([e] + rest)[1..] == rest;
  }

  /** The events of a guarded write by `pid` that nobody interrupts. */
  function WriteScript(pid: Pid, table: Table, id: Id, change: Change): seq<Event> {
    [LockForWrite(pid), Check(pid), Write(pid, table, id, change), Commit(pid)]
  }

  lemma WriteRun(s: State, pid: Pid, table: Table, id: Id, change: Change)
    ensures Run(s, WriteScript(pid, table, id, change)) == AfterWrite(s, pid, table, id, change)
  {
    var write := Write(pid, table, id, change);
    RunHead(s, LockForWrite(pid), [Check(pid), write, Commit(pid)]);
    RunHead(Step(s, LockForWrite(pid)), Check(pid), [write, Commit(pid)]);
    RunHead(Step(Step(s, LockForWrite(pid)), Check(pid)), write, [Commit(pid)]);
    RunHead(Step(Step(Step(s, LockForWrite(pid)), Check(pid)), write), Commit(pid), []);
  }

  /** Every module assignment lives through a restart as an untouched survivor: its old writer stays, its unlock date goes. */
  lemma AssignmentsSurvive(s: State, id: Id)
    requires id in s.db.live && Kept(s.db.live[id].table)
    ensures var db := AfterRestart(s).db;
            && id in db.live && Survives(db.restarts, db.live[id], id)
            && db.live[id].writer == s.db.live[id].writer && db.live[id].override.None?
  {
  }

  /** A module assignment written and then kept by a restart that follows. */
  lemma WrittenSurvives(s: State, pid: Pid, id: Id, change: Change, other: Pid)
    requires s.lock.None? && pid in s.procs && s.procs[pid].Started? && other !in s.procs
    requires !Stale(s.procs[pid].request.at, s.db.resetAt) && id !in s.db.live && id !in s.db.accepted
    ensures var t := Run(s, WriteScript(pid, ModuleAssignments, id, change) + RestartScript(other));
            && t.lock.None? && id in t.db.live && Survives(t.db.restarts, t.db.live[id], id)
            && t.db.live[id].writer == s.procs[pid].request && t.db.live[id].override.None?
            && t.db.resetAt == Some(Cut(s.clock)) && t.db.resetEra == s.stamps + 1
  {
    var t := AfterWrite(s, pid, ModuleAssignments, id, change);
    RunConcat(s, WriteScript(pid, ModuleAssignments, id, change), RestartScript(other));
    WriteRun(s, pid, ModuleAssignments, id, change);
    WriteIsRun(s, pid, ModuleAssignments, id, change);
    RestartRun(t, other);
    AssignmentsSurvive(t, id);
  }

  /** A run in which a live module assignment was written by a request from before the last reset. */
  lemma OldWriterSurvives()
    ensures var s := Run(INIT, [Begin(1)] + (WriteScript(1, ModuleAssignments, 7, Set(Some(3))) + RestartScript(2)));
            && s.lock.None? && 7 in s.db.live && Survives(s.db.restarts, s.db.live[7], 7)
            && Stale(s.db.live[7].writer.at, s.db.resetAt) && s.db.live[7].writer.era < s.db.resetEra
            && s.db.live[7].override.None?
  {
    RunHead(INIT, Begin(1), WriteScript(1, ModuleAssignments, 7, Set(Some(3))) + RestartScript(2));
    WrittenSurvives(Step(INIT, Begin(1)), 1, 7, Set(Some(3)), 2);
  }

  /** A run in which a request from before the last reset, in the same microsecond, is let through. */
  lemma SlipsThrough()
    ensures var s := Run(INIT, [Tick(1)] + ([Begin(1)] + RestartScript(2)));
            var t := Step(Step(s, LockForWrite(1)), Check(1));
            1 in t.procs && t.procs[1] == Writing(Request(1, 0)) && t.db.resetEra == 1
  {
    RunHead(INIT, Tick(1), [Begin(1)] + RestartScript(2));
    RunHead(Step(INIT, Tick(1)), Begin(1), RestartScript(2));
    RestartRun(Step(Step(INIT, Tick(1)), Begin(1)), 2);
  }
}
