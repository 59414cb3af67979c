/**
 * The learning-write guard and the enrollment restart of one enrollment, as a state machine: every
 * interleaving of requests and restarts is a sequence of events, and an event that is not enabled changes nothing.
 */
module LearningGuard {
  import opened Options

  /** Nanoseconds, as the clock shows them. */
  type Time = nat
  type Pid = nat
  type Id = nat
  type Date = int

  /** A stored time keeps microseconds. */
  const RESOLUTION := 1_000

  /** The clock as a column keeps it. */
  function Cut(t: Time): Time {
    t - t % RESOLUTION
  }

  /** The guarded tables of an enrollment; a restart empties all but the last. */
  datatype Table = Submissions | Attempts | Progresses | WatchProgresses | LessonAssignments | ModuleAssignments

  /** The order in which a restart empties the tables. */
  function Rank(t: Table): nat {
    match t
    case Submissions => 0
    case Attempts => 1
    case Progresses => 2
    case WatchProgresses => 3
    case LessonAssignments => 4
    case ModuleAssignments => 5
  }

  /** How many tables a restart empties. */
  const TABLES := 5

  predicate Kept(t: Table) {
    t.ModuleAssignments?
  }

  /**
   * A request: the start time it captured and, as history, how many resets had been stamped when it began.
   * The code sees only `at`; `era` orders requests and resets as events, whatever the clock shows.
   */
  datatype Request = Request(at: Time, era: nat)

  /** An unlock date that staff set, with the request that set it. */
  datatype Override = Override(date: Date, setter: Request)

  /** A guarded record, with the request that last wrote it. */
  datatype Row = Row(table: Table, writer: Request, override: Option<Override>)

  /** What a write does to the unlock date of its record. */
  datatype Change = Leave | Set(date: Option<Date>)

  function Changed(old': Option<Override>, change: Change, r: Request): Option<Override> {
    match change
    case Leave => old'
    case Set(None) => None
    case Set(Some(date)) => Some(Override(date, r))
  }

  type Rows = map<Id, Row>

  /** The rows of one table. */
  function Of(rows: Rows, t: Table): Rows {
    map id | id in rows && rows[id].table == t :: rows[id]
  }

  /** The rows of the tables a restart has not emptied after `k` deletes. */
  function From(rows: Rows, k: nat): Rows {
    map id | id in rows && Rank(rows[id].table) >= k :: rows[id]
  }

  /** Every unlock date cleared. */
  function WithoutOverrides(rows: Rows): Rows {
    map id | id in rows :: rows[id].(override := None)
  }

  /** What a restart leaves of the rows: module assignments, without their unlock dates. */
  function Survivors(rows: Rows): Rows {
    map id | id in rows && Kept(rows[id].table) :: rows[id].(override := None)
  }

  /** A committed restart: its snapshot, the recorded counts and the rows its deletes removed. */
  datatype Restart = Restart(snapshot: Rows, counts: map<Table, nat>, removed: map<Table, nat>)

  /** Where a record was inserted, and how many restarts had been committed by then. */
  datatype Birth = Birth(table: Table, before: nat)

  /**
   * What the database holds. Histories: `resetEra` numbers the last stamp; `accepted` has the guarded inserts, and
   * `destroyed` the guarded deletes with the number of restarts committed before them.
   */
  datatype Db = Db(live: Rows, resetAt: Option<Time>, restarts: seq<Restart>,
                   resetEra: nat, accepted: map<Id, Birth>, destroyed: map<Id, nat>)

  datatype Process =
    | Started(request: Request)
    | Locked(request: Request)
    | Writing(request: Request)
    | Refused(request: Request)
    | Restarting
    | Deleting(k: nat, pending: Restart)
    | Cleared(pending: Restart)
    | Stamped(pending: Restart)

  /** `saved` is the database as the current lock holder found it; `stamps` counts the resets stamped so far. */
  datatype State = State(clock: Time, stamps: nat, lock: Option<Pid>, db: Db, saved: Db, procs: map<Pid, Process>)

  datatype Event =
    | Tick(elapsed: nat)
    | Begin(pid: Pid)
    | LockForWrite(pid: Pid)
    | Check(pid: Pid)
    | Write(pid: Pid, table: Table, id: Id, change: Change)
    | Destroy(pid: Pid, id: Id)
    | LockForRestart(pid: Pid)
    | TakeSnapshot(pid: Pid)
    | DeleteTable(pid: Pid)
    | ClearOverrides(pid: Pid)
    | Stamp(pid: Pid)
    | Commit(pid: Pid)
    | Abort(pid: Pid)

  const EMPTY := Db(map[], None, [], 0, map[], map[])
  const INIT := State(0, 0, None, EMPTY, EMPTY, map[])

  predicate Stale(at: Time, resetAt: Option<Time>) {
    resetAt.Some? && at <= resetAt.value
  }

  predicate HoldsLock(p: Process) {
    p.Locked? || p.Writing? || p.Restarting? || p.Deleting? || p.Cleared? || p.Stamped?
  }

  function Counts(rows: Rows): map<Table, nat> {
    map t: Table | !Kept(t) :: |Of(rows, t)|
  }

  /** One event of one process. */
  function Step(s: State, e: Event): State {
    match e
    case Tick(elapsed) => s.(clock := s.clock + elapsed)
    case Begin(pid) => if pid in s.procs then s else At(s, pid, Started(Request(s.clock, s.stamps)))
    case LockForWrite(pid) =>
      if pid in s.procs && s.procs[pid].Started? && s.lock.None?
      then At(s, pid, Locked(s.procs[pid].request)).(lock := Some(pid), saved := s.db) else s
    case LockForRestart(pid) =>
      if pid !in s.procs && s.lock.None? then At(s, pid, Restarting).(lock := Some(pid), saved := s.db) else s
    case Abort(pid) =>
      if pid in s.procs && HoldsLock(s.procs[pid]) then Release(s, pid).(db := s.saved) else s
    case _ => if e.pid in s.procs then Act(s, e, s.procs[e.pid]) else s
  }

  /** What a process does while it holds the lock. */
  function Act(s: State, e: Event, p: Process): State
    requires !e.Tick?
  {
    match (e, p)
    case (Check(pid), Locked(r)) =>
      if Stale(r.at, s.db.resetAt) then At(s, pid, Refused(r)).(lock := None) else At(s, pid, Writing(r))
    case (Write(_, table, id, change), Writing(r)) => s.(db := Written(s.db, table, id, change, r))
    case (Destroy(_, id), Writing(_)) => s.(db := Destroyed(s.db, id))
    case (Commit(pid), Writing(_)) => Release(s, pid)
    case (TakeSnapshot(pid), Restarting) => At(s, pid, Deleting(0, Restart(s.db.live, Counts(s.db.live), map[])))
    case (DeleteTable(pid), Deleting(k, pending)) => if k < TABLES then DeleteNext(s, pid, k, pending) else s
    case (ClearOverrides(pid), Deleting(k, pending)) =>
      if k == TABLES then At(s, pid, Cleared(pending)).(db := s.db.(live := WithoutOverrides(s.db.live))) else s
    case (Stamp(pid), Cleared(pending)) =>
      At(s, pid, Stamped(pending)).(stamps := s.stamps + 1, db := s.db.(resetAt := Some(Cut(s.clock)), resetEra := s.stamps + 1))
    case (Commit(pid), Stamped(pending)) => Release(s, pid).(db := s.db.(restarts := s.db.restarts + [pending]))
    case _ => s
  }

  /** A guarded insert or update; ids are never used twice. */
  function Written(db: Db, table: Table, id: Id, change: Change, r: Request): Db {
    if id in db.live then
      db.(live := db.live[id := Row(db.live[id].table, r, Changed(db.live[id].override, change, r))])
    else if id in db.accepted then db
    else db.(live := db.live[id := Row(table, r, Changed(None, change, r))],
             accepted := db.accepted[id := Birth(table, |db.restarts|)])
  }

  /** A write leaves its request on the record, and the unlock date as it was unless it sets or clears one. */
  lemma WriteLeaves(db: Db, table: Table, id: Id, r: Request, date: Date)
    requires id in db.live || id !in db.accepted
    ensures var kept := Written(db, table, id, Leave, r).live;
            id in kept && kept[id] == (if id in db.live then db.live[id].(writer := r) else Row(table, r, None))
    ensures var cleared := Written(db, table, id, Set(None), r).live; id in cleared && cleared[id].writer == r && cleared[id].override.None?
    ensures var dated := Written(db, table, id, Set(Some(date)), r).live;
            id in dated && dated[id].writer == r && dated[id].override == Some(Override(date, r))
  {
  }

  function Destroyed(db: Db, id: Id): Db {
    if id in db.live then db.(live := db.live - {id}, destroyed := db.destroyed[id := |db.restarts|]) else db
  }

  function TableOfRank(k: nat): (t: Table)
    requires k < TABLES
    ensures Rank(t) == k
  {
    if k == 0 then Submissions else if k == 1 then Attempts else if k == 2 then Progresses
    else if k == 3 then WatchProgresses else LessonAssignments
  }

  function DeleteNext(s: State, pid: Pid, k: nat, pending: Restart): State
    requires k < TABLES
  {
    var t := TableOfRank(k);
    var doomed := Of(s.db.live, t);
    At(s, pid, Deleting(k + 1, pending.(removed := pending.removed[t := |doomed|])))
      .(db := s.db.(live := s.db.live - doomed.Keys))
  }

  function At(s: State, pid: Pid, p: Process): State {
    s.(procs := s.procs[pid := p])
  }

  function Release(s: State, pid: Pid): State {
    s.(lock := None, procs := s.procs - {pid})
  }

  function Run(s: State, events: seq<Event>): State
    decreases |events|
  {
    if events == [] then s else Run(Step(s, events[0]), events[1..])
  }

  // ---------------------------------------------------------------- requests and resets

  /** The request began in the microsecond of the reset, later than the stored time shows. */
  predicate SameTick(at: Time, resetAt: Option<Time>) {
    resetAt.Some? && resetAt.value < at < resetAt.value + RESOLUTION
  }

  /** The request began no later than in the microsecond of the reset. */
  predicate NotAfter(at: Time, resetAt: Option<Time>) {
    resetAt.Some? && at < resetAt.value + RESOLUTION
  }

  /** A request that began after the last reset, as events and by the clock. */
  predicate Fresh(r: Request, db: Db) {
    db.resetEra <= r.era && !Stale(r.at, db.resetAt)
  }

  /** A request that the guard lets through: by the clock, it is fresh or began in the microsecond of the reset. */
  predicate Admitted(r: Request, resetAt: Option<Time>, resetEra: nat) {
    !Stale(r.at, resetAt) && (resetEra <= r.era || SameTick(r.at, resetAt))
  }

  /** The clock orders every captured start time against the last reset. */
  predicate Ordered(r: Request, resetAt: Option<Time>, resetEra: nat) {
    if r.era < resetEra then NotAfter(r.at, resetAt) else resetAt.Some? ==> resetAt.value <= r.at
  }

  /** The stored reset is a whole microsecond that has passed. */
  predicate ResetSound(db: Db, clock: Time, stamps: nat) {
    db.resetEra <= stamps && (db.resetAt.Some? ==> db.resetAt.value <= clock && db.resetAt.value % RESOLUTION == 0)
  }

  // ---------------------------------------------------------------- live records

  /** A module assignment that the last restart kept and nobody has written since. */
  predicate Survives(restarts: seq<Restart>, row: Row, id: Id) {
    && restarts != [] && row.table == ModuleAssignments
    && id in restarts[|restarts| - 1].snapshot && restarts[|restarts| - 1].snapshot[id].writer == row.writer
  }

  predicate RowSound(restarts: seq<Restart>, row: Row, id: Id, resetAt: Option<Time>, resetEra: nat) {
    && (Survives(restarts, row, id) || Admitted(row.writer, resetAt, resetEra))
    && (row.override.Some? ==> Admitted(row.override.value.setter, resetAt, resetEra))
  }

  predicate LiveSound(restarts: seq<Restart>, rows: Rows, resetAt: Option<Time>, resetEra: nat) {
    forall id | id in rows :: RowSound(restarts, rows[id], id, resetAt, resetEra)
  }

  /** Every writer began before the reset that is stamped next. */
  predicate WritersKnown(rows: Rows, clock: Time, stamps: nat) {
    forall id | id in rows :: rows[id].writer.at <= clock && rows[id].writer.era <= stamps
  }

  predicate WritersOld(rows: Rows, resetAt: Option<Time>, resetEra: nat) {
    forall id | id in rows :: NotAfter(rows[id].writer.at, resetAt) && rows[id].writer.era < resetEra
  }

  predicate LastSnapshotOld(restarts: seq<Restart>, resetAt: Option<Time>, resetEra: nat) {
    restarts != [] ==> WritersOld(restarts[|restarts| - 1].snapshot, resetAt, resetEra)
  }

  // ---------------------------------------------------------------- conservation

  /** The tables a restart empties. */
  const EMPTIED: set<Table> := {Submissions, Attempts, Progresses, WatchProgresses, LessonAssignments}

  /** Counts, snapshot lengths and deleted rows agree, table by table, for exactly the tables a restart empties. */
  predicate Accurate(r: Restart) {
    Tallies(r.counts, r.snapshot) && Tallies(r.removed, r.snapshot)
  }

  predicate Tallies(counts: map<Table, nat>, rows: Rows) {
    counts.Keys == EMPTIED && forall t | t in counts :: counts[t] == |set id | id in rows && rows[id].table == t|
  }

  /** The number of restarts committed before the record was gone; one that is live is in every later snapshot too. */
  function End(rows: Rows, restarts: nat, birth: Birth, destroyed: map<Id, nat>, id: Id): nat {
    if id in rows then restarts else if id in destroyed then destroyed[id] else birth.before + 1
  }

  /** A record of an emptied table is live, destroyed or removed by one restart; a module assignment is live or destroyed. */
  predicate Placed(rows: Rows, restarts: nat, birth: Birth, destroyed: map<Id, nat>, id: Id) {
    && birth.before <= End(rows, restarts, birth, destroyed, id) <= restarts
    && (id in rows ==> id !in destroyed && rows[id].table == birth.table)
    && (id in rows || id in destroyed ==> Kept(birth.table) || End(rows, restarts, birth, destroyed, id) == birth.before)
    && (id in rows || id in destroyed || !Kept(birth.table))
  }

  predicate AllPlaced(rows: Rows, restarts: nat, accepted: map<Id, Birth>, destroyed: map<Id, nat>) {
    && rows.Keys <= accepted.Keys && destroyed.Keys <= accepted.Keys
    && forall id | id in accepted :: Placed(rows, restarts, accepted[id], destroyed, id)
  }

  /** A snapshot holds exactly the records inserted before it and not gone by then. */
  predicate Snapped(i: nat, r: Restart, rows: Rows, restarts: nat, accepted: map<Id, Birth>, destroyed: map<Id, nat>) {
    && r.snapshot.Keys <= accepted.Keys
    && forall id | id in accepted :: id in r.snapshot <==> accepted[id].before <= i < End(rows, restarts, accepted[id], destroyed, id)
  }

  predicate Conserved(rows: Rows, restarts: seq<Restart>, accepted: map<Id, Birth>, destroyed: map<Id, nat>) {
    && AllPlaced(rows, |restarts|, accepted, destroyed)
    && (forall i | 0 <= i < |restarts| :: Snapped(i, restarts[i], rows, |restarts|, accepted, destroyed))
    && (forall r | r in restarts :: Accurate(r))
  }

  // ---------------------------------------------------------------- the invariant

  /** What holds of the database whenever nobody holds the lock. */
  predicate Committed(db: Db, clock: Time, stamps: nat) {
    && ResetSound(db, clock, stamps)
    && LiveSound(db.restarts, db.live, db.resetAt, db.resetEra)
    && WritersKnown(db.live, clock, stamps)
    && LastSnapshotOld(db.restarts, db.resetAt, db.resetEra)
    && Conserved(db.live, db.restarts, db.accepted, db.destroyed)
  }

  predicate PendingFor(r: Restart, saved: Db, k: nat) {
    && r.snapshot == saved.live
    && r.counts == Counts(saved.live)
    && (forall t: Table :: t in r.removed <==> Rank(t) < k)
    && (forall t: Table | t in r.removed :: r.removed[t] == |Of(saved.live, t)|)
  }

  /** What holds of the database while `p` holds the lock, having found `saved`. */
  predicate InTransaction(p: Process, db: Db, saved: Db, clock: Time, stamps: nat) {
    match p
    case Locked(_) => db == saved
    case Writing(r) =>
      && Committed(db, clock, stamps) && Admitted(r, db.resetAt, db.resetEra) && r.at <= clock && r.era <= stamps
      && db.resetAt == saved.resetAt && db.resetEra == saved.resetEra
    case Restarting => db == saved
    case Deleting(k, pending) => k <= TABLES && db == saved.(live := From(saved.live, k)) && PendingFor(pending, saved, k)
    case Cleared(pending) => db == saved.(live := Survivors(saved.live)) && PendingFor(pending, saved, TABLES)
    case Stamped(pending) =>
      && saved.resetEra <= db.resetEra
      && db == saved.(live := Survivors(saved.live), resetAt := db.resetAt, resetEra := db.resetEra)
      && PendingFor(pending, saved, TABLES)
      && WritersOld(saved.live, db.resetAt, db.resetEra)
    case _ => false
  }

  predicate HasRequest(p: Process) {
    p.Started? || p.Locked? || p.Writing? || p.Refused?
  }

  /** What holds of a request, given the last reset in the database and in the one the lock holder found. */
  predicate RequestSound(p: Process, s: State)
    requires HasRequest(p)
  {
    && p.request.at <= s.clock && p.request.era <= s.stamps
    && Ordered(p.request, s.db.resetAt, s.db.resetEra) && Ordered(p.request, s.saved.resetAt, s.saved.resetEra)
    && (p.Refused? ==> Stale(p.request.at, s.db.resetAt) && Stale(p.request.at, s.saved.resetAt))
  }

  predicate Inv(s: State) {
    && ResetSound(s.db, s.clock, s.stamps) && ResetSound(s.saved, s.clock, s.stamps)
    && (forall pid | pid in s.procs && HasRequest(s.procs[pid]) :: RequestSound(s.procs[pid], s))
    && (forall pid | pid in s.procs :: HoldsLock(s.procs[pid]) <==> s.lock == Some(pid))
    && (s.lock.Some? ==> s.lock.value in s.procs)
    && (if s.lock.None? then Committed(s.db, s.clock, s.stamps)
        else Committed(s.saved, s.clock, s.stamps) && InTransaction(s.procs[s.lock.value], s.db, s.saved, s.clock, s.stamps))
  }

  // ---------------------------------------------------------------- every step keeps the invariant

  lemma CutBounds(t: Time, m: Time)
    ensures Cut(t) <= t < Cut(t) + RESOLUTION && Cut(t) % RESOLUTION == 0
    ensures m <= t && m % RESOLUTION == 0 ==> m <= Cut(t)
  {
  }

  lemma DeleteKeeps(rows: Rows, k: nat)
    requires k < TABLES
    ensures From(rows, k) - Of(From(rows, k), TableOfRank(k)).Keys == From(rows, k + 1)
    ensures Of(From(rows, k), TableOfRank(k)) == Of(rows, TableOfRank(k))
  {
  }

  lemma FromEnds(rows: Rows)
    ensures From(rows, 0) == rows && WithoutOverrides(From(rows, TABLES)) == Survivors(rows)
  {
  }

  lemma OfSize(rows: Rows, t: Table)
    ensures |Of(rows, t)| == |set id | id in rows && rows[id].table == t|
  {
    assert Of(rows, t).Keys == set id | id in rows && rows[id].table == t;
  }

  lemma SizesTally(counts: map<Table, nat>, rows: Rows)
    requires counts.Keys == EMPTIED && forall t | t in counts :: counts[t] == |Of(rows, t)|
    ensures Tallies(counts, rows)
  {
    forall t | t in counts ensures counts[t] == |set id | id in rows && rows[id].table == t| {
      OfSize(rows, t);
    }
  }

  lemma EmptiedRanks(t: Table)
    ensures t in EMPTIED <==> Rank(t) < TABLES
    ensures t in EMPTIED <==> !Kept(t)
  {
  }

  lemma CountsTally(rows: Rows)
    ensures Tallies(Counts(rows), rows)
  {
    forall t: Table ensures t in Counts(rows) <==> t in EMPTIED { EmptiedRanks(t); }
    SizesTally(Counts(rows), rows);
  }

  lemma PendingAccurate(r: Restart, saved: Db)
    requires PendingFor(r, saved, TABLES)
    ensures Accurate(r)
  {
    CountsTally(saved.live);
    forall t: Table ensures t in r.removed <==> t in EMPTIED { EmptiedRanks(t); }
    SizesTally(r.removed, saved.live);
  }

  /** The same records live: nothing about places and snapshots changes. */
  lemma UpdateConserves(rows: Rows, restarts: seq<Restart>, accepted: map<Id, Birth>, destroyed: map<Id, nat>, id: Id, row: Row)
    requires Conserved(rows, restarts, accepted, destroyed) && id in rows && row.table == rows[id].table
    ensures Conserved(rows[id := row], restarts, accepted, destroyed)
  {
    forall i | 0 <= i < |restarts| ensures Snapped(i, restarts[i], rows[id := row], |restarts|, accepted, destroyed) {
      assert Snapped(i, restarts[i], rows, |restarts|, accepted, destroyed);
    }
    forall x | x in accepted ensures Placed(rows[id := row], |restarts|, accepted[x], destroyed, x) {
      assert Placed(rows, |restarts|, accepted[x], destroyed, x);
    }
  }

  lemma InsertConserves(rows: Rows, restarts: seq<Restart>, accepted: map<Id, Birth>, destroyed: map<Id, nat>, id: Id, row: Row)
    requires Conserved(rows, restarts, accepted, destroyed) && id !in accepted
    ensures Conserved(rows[id := row], restarts, accepted[id := Birth(row.table, |restarts|)], destroyed)
  {
    var rows', accepted' := rows[id := row], accepted[id := Birth(row.table, |restarts|)];
    forall i | 0 <= i < |restarts| ensures Snapped(i, restarts[i], rows', |restarts|, accepted', destroyed) {
      assert Snapped(i, restarts[i], rows, |restarts|, accepted, destroyed);
    }
    forall x | x in accepted' ensures Placed(rows', |restarts|, accepted'[x], destroyed, x) {
      assert x != id ==> Placed(rows, |restarts|, accepted[x], destroyed, x);
    }
  }

  lemma DestroyConserves(rows: Rows, restarts: seq<Restart>, accepted: map<Id, Birth>, destroyed: map<Id, nat>, id: Id)
    requires Conserved(rows, restarts, accepted, destroyed) && id in rows
    ensures Conserved(rows - {id}, restarts, accepted, destroyed[id := |restarts|])
  {
    var rows', destroyed' := rows - {id}, destroyed[id := |restarts|];
    forall i | 0 <= i < |restarts| ensures Snapped(i, restarts[i], rows', |restarts|, accepted, destroyed') {
      assert Snapped(i, restarts[i], rows, |restarts|, accepted, destroyed);
    }
    forall x | x in accepted ensures Placed(rows', |restarts|, accepted[x], destroyed', x) {
      assert Placed(rows, |restarts|, accepted[x], destroyed, x);
    }
  }

  /** A row written by an admitted request is sound. */
  lemma WrittenSound(rows: Rows, restarts: seq<Restart>, resetAt: Option<Time>, resetEra: nat, id: Id, row: Row)
    requires LiveSound(restarts, rows, resetAt, resetEra) && RowSound(restarts, row, id, resetAt, resetEra)
    ensures LiveSound(restarts, rows[id := row], resetAt, resetEra) && LiveSound(restarts, rows - {id}, resetAt, resetEra)
  {
  }

  lemma WriteKeeps(db: Db, table: Table, id: Id, change: Change, r: Request, clock: Time, stamps: nat)
    requires Committed(db, clock, stamps) && Admitted(r, db.resetAt, db.resetEra) && r.at <= clock && r.era <= stamps
    ensures Committed(Written(db, table, id, change, r), clock, stamps)
  {
    if id in db.live {
      var row := Row(db.live[id].table, r, Changed(db.live[id].override, change, r));
      assert RowSound(db.restarts, db.live[id], id, db.resetAt, db.resetEra);
      UpdateConserves(db.live, db.restarts, db.accepted, db.destroyed, id, row);
      WrittenSound(db.live, db.restarts, db.resetAt, db.resetEra, id, row);
    } else if id !in db.accepted {
      var row := Row(table, r, Changed(None, change, r));
      InsertConserves(db.live, db.restarts, db.accepted, db.destroyed, id, row);
      WrittenSound(db.live, db.restarts, db.resetAt, db.resetEra, id, row);
    }
  }

  lemma DestroyKeeps(db: Db, id: Id, clock: Time, stamps: nat)
    requires Committed(db, clock, stamps)
    ensures Committed(Destroyed(db, id), clock, stamps)
  {
    if id in db.live {
      DestroyConserves(db.live, db.restarts, db.accepted, db.destroyed, id);
      WrittenSound(db.live, db.restarts, db.resetAt, db.resetEra, id, db.live[id]);
    }
  }

  /** A committed restart places every record: those of the emptied tables are gone, the others go on. */
  lemma CommitPlaces(rows: Rows, n: nat, accepted: map<Id, Birth>, destroyed: map<Id, nat>)
    requires AllPlaced(rows, n, accepted, destroyed)
    ensures AllPlaced(Survivors(rows), n + 1, accepted, destroyed)
  {
    forall id | id in accepted ensures Placed(Survivors(rows), n + 1, accepted[id], destroyed, id) {
      assert Placed(rows, n, accepted[id], destroyed, id);
    }
  }

  lemma CommitSnaps(rows: Rows, n: nat, accepted: map<Id, Birth>, destroyed: map<Id, nat>, r: Restart, i: nat)
    requires AllPlaced(rows, n, accepted, destroyed) && i <= n
    requires if i < n then Snapped(i, r, rows, n, accepted, destroyed) else r.snapshot == rows
    ensures Snapped(i, r, Survivors(rows), n + 1, accepted, destroyed)
  {
    forall id | id in accepted
      ensures id in r.snapshot <==> accepted[id].before <= i < End(Survivors(rows), n + 1, accepted[id], destroyed, id)
    {
      assert Placed(rows, n, accepted[id], destroyed, id);
    }
  }

  lemma CommitConserves(saved: Db, pending: Restart)
    requires Conserved(saved.live, saved.restarts, saved.accepted, saved.destroyed) && PendingFor(pending, saved, TABLES)
    ensures Conserved(Survivors(saved.live), saved.restarts + [pending], saved.accepted, saved.destroyed)
  {
    var n, after := |saved.restarts|, saved.restarts + [pending];
    CommitPlaces(saved.live, n, saved.accepted, saved.destroyed);
    forall i | 0 <= i < n + 1 ensures Snapped(i, after[i], Survivors(saved.live), n + 1, saved.accepted, saved.destroyed) {
      CommitSnaps(saved.live, n, saved.accepted, saved.destroyed, after[i], i);
    }
    PendingAccurate(pending, saved);
  }

  lemma CommitKeeps(saved: Db, db: Db, pending: Restart, clock: Time, stamps: nat)
    requires Committed(saved, clock, stamps) && ResetSound(db, clock, stamps)
    requires InTransaction(Stamped(pending), db, saved, clock, stamps)
    ensures Committed(db.(restarts := db.restarts + [pending]), clock, stamps)
  {
    var restarts := db.restarts + [pending];
    CommitConserves(saved, pending);
    forall id | id in db.live ensures RowSound(restarts, db.live[id], id, db.resetAt, db.resetEra) {
      assert db.live[id] == saved.live[id].(override := None);
      assert Survives(restarts, db.live[id], id);
    }
  }

  /** The lock holder moves on inside its transaction. */
  lemma HolderKeeps(s: State, pid: Pid, p: Process, db: Db)
    requires Inv(s) && pid in s.procs && HoldsLock(s.procs[pid])
    requires HoldsLock(p) && InTransaction(p, db, s.saved, s.clock, s.stamps)
    requires HasRequest(p) ==> HasRequest(s.procs[pid]) && p.request == s.procs[pid].request
    requires db.resetEra == s.db.resetEra && db.resetAt == s.db.resetAt
    ensures Inv(At(s, pid, p).(db := db))
  {
    var t := At(s, pid, p).(db := db);
    forall q | q in t.procs && HasRequest(t.procs[q]) ensures RequestSound(t.procs[q], t) {
      assert RequestSound(s.procs[q], s);
    }
  }

  /** The lock holder leaves, and nobody else can have held the lock. */
  lemma ReleaseKeeps(s: State, pid: Pid, db: Db)
    requires Inv(s) && pid in s.procs && HoldsLock(s.procs[pid])
    requires Committed(db, s.clock, s.stamps)
    requires db.resetEra == s.db.resetEra && db.resetAt == s.db.resetAt
    ensures Inv(Release(s, pid).(db := db))
  {
    var t := Release(s, pid).(db := db);
    forall q | q in t.procs && HasRequest(t.procs[q]) ensures RequestSound(t.procs[q], t) {
      assert RequestSound(s.procs[q], s);
    }
  }

  lemma RefuseKeeps(s: State, pid: Pid)
    requires Inv(s) && pid in s.procs && s.procs[pid].Locked? && Stale(s.procs[pid].request.at, s.db.resetAt)
    ensures Inv(At(s, pid, Refused(s.procs[pid].request)).(lock := None))
  {
    var t := At(s, pid, Refused(s.procs[pid].request)).(lock := None);
    assert RequestSound(s.procs[pid], s) && s.db == s.saved;
    forall q | q in t.procs && HasRequest(t.procs[q]) ensures RequestSound(t.procs[q], t) {
      assert q != pid ==> RequestSound(s.procs[q], s);
    }
  }

  lemma AbortKeeps(s: State, pid: Pid)
    requires Inv(s)
    ensures Inv(Step(s, Abort(pid)))
  {
    var t := Step(s, Abort(pid));
    forall q | q in t.procs && HasRequest(t.procs[q]) ensures RequestSound(t.procs[q], t) {
      assert RequestSound(s.procs[q], s);
    }
  }

  lemma LockKeeps(s: State, e: Event)
    requires Inv(s) && (e.LockForWrite? || e.LockForRestart?)
    ensures Inv(Step(s, e))
  {
    var t := Step(s, e);
    forall q | q in t.procs && HasRequest(t.procs[q]) ensures RequestSound(t.procs[q], t) {
      assert q in s.procs && HasRequest(s.procs[q]) && RequestSound(s.procs[q], s);
    }
  }

  lemma BeginKeeps(s: State, pid: Pid)
    requires Inv(s)
    ensures Inv(Step(s, Begin(pid)))
  {
    var t := Step(s, Begin(pid));
    forall q | q in t.procs && HasRequest(t.procs[q]) ensures RequestSound(t.procs[q], t) {
      assert q in s.procs && HasRequest(s.procs[q]) ==> RequestSound(s.procs[q], s);
    }
  }

  lemma TickKeeps(s: State, elapsed: nat)
    requires Inv(s)
    ensures Inv(Step(s, Tick(elapsed)))
  {
    var t := Step(s, Tick(elapsed));
    forall q | q in t.procs && HasRequest(t.procs[q]) ensures RequestSound(t.procs[q], t) {
      assert RequestSound(s.procs[q], s);
    }
  }

  /** Every request so far started no later than in the microsecond of a reset stamped now. */
  lemma StampKeeps(s: State, pid: Pid)
    requires Inv(s) && pid in s.procs && s.procs[pid].Cleared?
    ensures Inv(Act(s, Stamp(pid), s.procs[pid]))
  {
    var t, stamp := Act(s, Stamp(pid), s.procs[pid]), Cut(s.clock);
    CutBounds(s.clock, if s.db.resetAt.Some? then s.db.resetAt.value else 0);
    assert InTransaction(t.procs[pid], t.db, t.saved, t.clock, t.stamps) by { StampOld(s.saved.live, s.clock, s.stamps, stamp); }
    LaterCommitted(s.saved, s.clock, s.stamps);
    StampRequests(s, t, stamp);
  }

  lemma StampOld(rows: Rows, clock: Time, stamps: nat, stamp: Time)
    requires WritersKnown(rows, clock, stamps) && clock < stamp + RESOLUTION
    ensures WritersOld(rows, Some(stamp), stamps + 1)
  {
  }

  lemma StampRequests(s: State, t: State, stamp: Time)
    requires forall q | q in s.procs && HasRequest(s.procs[q]) :: RequestSound(s.procs[q], s)
    requires forall q | q in t.procs && HasRequest(t.procs[q]) :: q in s.procs && t.procs[q] == s.procs[q]
    requires t.clock == s.clock && t.stamps == s.stamps + 1 && t.saved == s.saved && t.db.resetAt == Some(stamp) && t.db.resetEra == s.stamps + 1
    requires s.clock < stamp + RESOLUTION && (s.db.resetAt.Some? ==> s.db.resetAt.value <= stamp)
    ensures forall q | q in t.procs && HasRequest(t.procs[q]) :: RequestSound(t.procs[q], t)
  {
    forall q | q in t.procs && HasRequest(t.procs[q]) ensures RequestSound(t.procs[q], t) {
      StampRequest(s, s.procs[q], t, stamp);
    }
  }

  lemma LaterCommitted(db: Db, clock: Time, stamps: nat)
    requires Committed(db, clock, stamps)
    ensures Committed(db, clock, stamps + 1)
  {
  }

  lemma StampRequest(s: State, p: Process, t: State, stamp: Time)
    requires HasRequest(p) && RequestSound(p, s) && t.clock == s.clock && t.stamps == s.stamps + 1 && t.saved == s.saved
    requires t.db.resetAt == Some(stamp) && t.db.resetEra == s.stamps + 1 && s.clock < stamp + RESOLUTION
    requires s.db.resetAt.Some? ==> s.db.resetAt.value <= stamp
    ensures RequestSound(p, t)
  {
  }

  lemma PendingNext(r: Restart, saved: Db, k: nat)
    requires k < TABLES && PendingFor(r, saved, k)
    ensures PendingFor(r.(removed := r.removed[TableOfRank(k) := |Of(saved.live, TableOfRank(k))|]), saved, k + 1)
  {
  }

  lemma DeleteStepKeeps(s: State, pid: Pid, k: nat, pending: Restart)
    requires Inv(s) && pid in s.procs && s.procs[pid] == Deleting(k, pending) && k < TABLES
    ensures Inv(DeleteNext(s, pid, k, pending))
  {
    var t, saved := TableOfRank(k), s.saved;
    var p := Deleting(k + 1, pending.(removed := pending.removed[t := |Of(saved.live, t)|]));
    assert InTransaction(p, saved.(live := From(saved.live, k + 1)), saved, s.clock, s.stamps) by { PendingNext(pending, saved, k); }
    assert DeleteNext(s, pid, k, pending) == At(s, pid, p).(db := saved.(live := From(saved.live, k + 1))) by {
      DeleteKeeps(saved.live, k);
    }
    HolderKeeps(s, pid, p, saved.(live := From(saved.live, k + 1)));
  }

  lemma WriteStepKeeps(s: State, e: Event, r: Request)
    requires Inv(s) && (e.Write? || e.Destroy?) && e.pid in s.procs && s.procs[e.pid] == Writing(r)
    ensures Inv(Act(s, e, s.procs[e.pid]))
  {
    var db := if e.Write? then Written(s.db, e.table, e.id, e.change, r) else Destroyed(s.db, e.id);
    assert InTransaction(Writing(r), db, s.saved, s.clock, s.stamps) by {
      if e.Write? { WriteKeeps(s.db, e.table, e.id, e.change, r, s.clock, s.stamps); } else { DestroyKeeps(s.db, e.id, s.clock, s.stamps); }
    }
    HolderKeeps(s, e.pid, Writing(r), db);
    assert At(s, e.pid, Writing(r)).procs == s.procs;
  }

  lemma RestartStepKeeps(s: State, e: Event)
    requires Inv(s) && (e.TakeSnapshot? || e.DeleteTable? || e.ClearOverrides? || e.Stamp?) && e.pid in s.procs
    ensures Inv(Act(s, e, s.procs[e.pid]))
  {
    var pid, p := e.pid, s.procs[e.pid];
    FromEnds(s.saved.live);
    if p.Restarting? && e.TakeSnapshot? {
      HolderKeeps(s, pid, Deleting(0, Restart(s.db.live, Counts(s.db.live), map[])), s.db);
    } else if p.Deleting? && e.DeleteTable? && p.k < TABLES {
      DeleteStepKeeps(s, pid, p.k, p.pending);
    } else if p.Deleting? && e.ClearOverrides? && p.k == TABLES {
      HolderKeeps(s, pid, Cleared(p.pending), s.db.(live := WithoutOverrides(s.db.live)));
    } else if p.Cleared? && e.Stamp? {
      StampKeeps(s, pid);
    }
  }

  lemma ActKeeps(s: State, e: Event)
    requires Inv(s) && !e.Tick? && !e.Abort? && e.pid in s.procs
    ensures Inv(Act(s, e, s.procs[e.pid]))
  {
    var pid, p := e.pid, s.procs[e.pid];
    if e.TakeSnapshot? || e.DeleteTable? || e.ClearOverrides? || e.Stamp? {
      RestartStepKeeps(s, e);
    } else if p.Locked? && e.Check? {
      if Stale(p.request.at, s.db.resetAt) { RefuseKeeps(s, pid); } else { AdmitKeeps(s, pid); }
    } else if p.Writing? && (e.Write? || e.Destroy?) {
      WriteStepKeeps(s, e, p.request);
    } else if p.Writing? && e.Commit? {
      ReleaseKeeps(s, pid, s.db);
    } else if p.Stamped? && e.Commit? {
      CommitKeeps(s.saved, s.db, p.pending, s.clock, s.stamps);
      ReleaseKeeps(s, pid, s.db.(restarts := s.db.restarts + [p.pending]));
    }
  }

  lemma AdmitKeeps(s: State, pid: Pid)
    requires Inv(s) && pid in s.procs && s.procs[pid].Locked? && !Stale(s.procs[pid].request.at, s.db.resetAt)
    ensures Inv(At(s, pid, Writing(s.procs[pid].request)))
  {
    assert RequestSound(s.procs[pid], s);
    HolderKeeps(s, pid, Writing(s.procs[pid].request), s.db);
  }

  lemma StepKeeps(s: State, e: Event)
    requires Inv(s)
    ensures Inv(Step(s, e))
  {
    match e
    case Tick(elapsed) => TickKeeps(s, elapsed);
    case Begin(pid) => BeginKeeps(s, pid);
    case LockForWrite(_) => LockKeeps(s, e);
    case LockForRestart(_) => LockKeeps(s, e);
    case Abort(pid) => AbortKeeps(s, pid);
    case _ => if e.pid in s.procs { ActKeeps(s, e); }
  }

  lemma {:induction false} RunKeeps(s: State, events: seq<Event>)
    requires Inv(s)
    ensures Inv(Run(s, events))
    decreases |events|
  {
    if events != [] {
      StepKeeps(s, events[0]);
      RunKeeps(Step(s, events[0]), events[1..]);
    }
  }

  // ---------------------------------------------------------------- main results

  lemma CommittedRow(s: State, id: Id)
    requires Committed(s.db, s.clock, s.stamps) && id in s.db.live
    ensures RowSound(s.db.restarts, s.db.live[id], id, s.db.resetAt, s.db.resetEra)
    ensures Survives(s.db.restarts, s.db.live[id], id) ==>
              s.db.live[id].writer.era < s.db.resetEra && NotAfter(s.db.live[id].writer.at, s.db.resetAt)
  {
    if Survives(s.db.restarts, s.db.live[id], id) {
      assert s.db.restarts[|s.db.restarts| - 1].snapshot[id].writer == s.db.live[id].writer;
    }
  }

  /**
   * In every interleaving, whenever the enrollment is unlocked: a live record is a module assignment untouched since the
   * last reset, whose writer began before it, or its writer passed the guard. Unless the writer began in the microsecond of the
   * reset, the record is fresh if and only if it is not such a module assignment. Every live unlock date was set by a
   * request that passed the guard since the reset.
   */
  lemma GuardSafety(events: seq<Event>, id: Id)
    requires var s := Run(INIT, events); s.lock.None? && id in s.db.live
    ensures var db := Run(INIT, events).db;
            var row := db.live[id];
            && (if Survives(db.restarts, row, id) then row.writer.era < db.resetEra && NotAfter(row.writer.at, db.resetAt)
                else Admitted(row.writer, db.resetAt, db.resetEra))
            && (!SameTick(row.writer.at, db.resetAt) ==> (Fresh(row.writer, db) <==> !Survives(db.restarts, row, id)))
            && (row.override.Some? ==> Admitted(row.override.value.setter, db.resetAt, db.resetEra))
  {
    RunKeeps(INIT, events);
    CommittedRow(Run(INIT, events), id);
  }

  /**
   * Every accepted record of an emptied table is live, was deleted through the guard, or is in exactly one snapshot; a module
   * assignment is live or was deleted through the guard, and is in exactly the snapshots between its insert and that.
   */
  lemma Conservation(events: seq<Event>, id: Id)
    requires var s := Run(INIT, events); s.lock.None? && id in s.db.accepted
    ensures var db := Run(INIT, events).db;
            var born := db.accepted[id].before;
            && !(id in db.live && id in db.destroyed)
            && (if db.accepted[id].table == ModuleAssignments then
                  && (id in db.live || id in db.destroyed)
                  && (forall i | 0 <= i < |db.restarts| ::
                        id in db.restarts[i].snapshot <==> born <= i && (id in db.live || i < db.destroyed[id]))
                else
                  && (id in db.live || id in db.destroyed || born < |db.restarts|)
                  && (forall i | 0 <= i < |db.restarts| ::
                        id in db.restarts[i].snapshot <==> id !in db.live && id !in db.destroyed && i == born))
  {
    RunKeeps(INIT, events);
    var db := Run(INIT, events).db;
    assert Placed(db.live, |db.restarts|, db.accepted[id], db.destroyed, id);
    forall i | 0 <= i < |db.restarts|
      ensures id in db.restarts[i].snapshot <==>
              db.accepted[id].before <= i < End(db.live, |db.restarts|, db.accepted[id], db.destroyed, id)
    {
      assert Snapped(i, db.restarts[i], db.live, |db.restarts|, db.accepted, db.destroyed);
    }
  }

  /** Nothing else is live or in a snapshot, and the counts of every restart agree with its snapshot and its deletes. */
  lemma RestartsAccurate(events: seq<Event>)
    requires Run(INIT, events).lock.None?
    ensures var db := Run(INIT, events).db;
            && db.live.Keys <= db.accepted.Keys
            && forall r | r in db.restarts ::
                 && r.snapshot.Keys <= db.accepted.Keys
                 && r.counts.Keys == r.removed.Keys == {Submissions, Attempts, Progresses, WatchProgresses, LessonAssignments}
                 && forall t | t in r.counts :: r.counts[t] == r.removed[t] == |set id | id in r.snapshot && r.snapshot[id].table == t|
  {
    RunKeeps(INIT, events);
  }

  /** In every run, what the snapshot of a restart holds of the five emptied tables is no longer live; the rest was a module assignment. */
  lemma RestartsEmpty(events: seq<Event>, i: nat, id: Id)
    requires var s := Run(INIT, events); s.lock.None? && i < |s.db.restarts| && id in s.db.restarts[i].snapshot
    ensures var db := Run(INIT, events).db;
            id in db.accepted && (db.accepted[id].table in {Submissions, Attempts, Progresses, WatchProgresses, LessonAssignments} ==> id !in db.live)
  {
    RunKeeps(INIT, events);
    var db := Run(INIT, events).db;
    assert Snapped(i, db.restarts[i], db.live, |db.restarts|, db.accepted, db.destroyed);
    assert Placed(db.live, |db.restarts|, db.accepted[id], db.destroyed, id);
  }

  /** While any other process holds the lock the database it found is still consistent, and aborting restores it. */
  lemma AbortRestores(events: seq<Event>, pid: Pid)
    requires var s := Run(INIT, events); s.lock == Some(pid)
    ensures var s := Run(INIT, events);
            var t := Step(s, Abort(pid));
            t.lock.None? && t.db == s.saved && Committed(t.db, t.clock, t.stamps)
  {
    RunKeeps(INIT, events);
  }

  /** In every run a refused request is stale, and one that began after the last reset is refused only if it began at the very time stored. */
  lemma RefusedAreStale(events: seq<Event>, pid: Pid)
    requires var s := Run(INIT, events); pid in s.procs && s.procs[pid].Refused?
    ensures var s := Run(INIT, events);
            var r := s.procs[pid].request;
            && Stale(r.at, s.db.resetAt)
            && (r.era >= s.db.resetEra ==> r.at == s.db.resetAt.value)
  {
    RunKeeps(INIT, events);
    assert RequestSound(Run(INIT, events).procs[pid], Run(INIT, events));
  }

  /** A waiting request that gets the lock may write exactly when it is not stale. */
  lemma RefusedIffStale(s: State, pid: Pid)
    requires s.lock.None? && pid in s.procs && s.procs[pid].Started?
    ensures var t := Step(Step(s, LockForWrite(pid)), Check(pid));
            && t.db == s.db && pid in t.procs
            && (if Stale(s.procs[pid].request.at, s.db.resetAt) then t.procs[pid].Refused? && t.lock.None?
                else t.procs[pid] == Writing(s.procs[pid].request) && t.lock == Some(pid))
  {
  }

  /** In every run a request that began before the last reset is refused if and only if it did not begin in the microsecond of the reset. */
  lemma OldRefusedIff(events: seq<Event>, pid: Pid)
    requires var s := Run(INIT, events);
             s.lock.None? && pid in s.procs && s.procs[pid].Started? && s.procs[pid].request.era < s.db.resetEra
    ensures var s := Run(INIT, events);
            var t := Step(Step(s, LockForWrite(pid)), Check(pid));
            && pid in t.procs && s.db.resetAt.Some?
            && (t.procs[pid].Refused? <==> !(s.db.resetAt.value < s.procs[pid].request.at < s.db.resetAt.value + 1000))
  {
    RunKeeps(INIT, events);
    RefusedIffStale(Run(INIT, events), pid);
    assert RequestSound(Run(INIT, events).procs[pid], Run(INIT, events));
  }
}
