/** The follow-up notification job, racing with itself and with staff edits of one intervention. */
module FollowUpJob {
  import opened Options

  type Time = int
  type JobId = nat
  type StaffId = nat

  /** The row; `generation` counts the saves that wrote a follow-up time. */
  datatype Row = Row(active: bool, next: Option<Time>, stamp: Option<Time>, generation: nat)

  predicate AlreadyNotified(r: Row) {
    r.stamp.Some? && r.next.Some? && r.stamp.value >= r.next.value
  }

  predicate IsDue(r: Row, now: Time) {
    r.active && r.next.Some? && r.next.value <= now
  }

  /** A job run on the intervention: after its query, waiting for the row lock, or holding it with the reloaded row. */
  datatype Phase = Started(now: Time) | Waiting(now: Time) | Locked(now: Time, copy: Row) | Notifying(now: Time, copy: Row)

  /** A delivered notification: the scheduling it is for, and what was true when it was sent. */
  datatype Notice = Notice(generation: nat, due: Time, sentAt: Time, active: bool)

  datatype State = State(clock: Time, row: Row, jobs: map<JobId, Phase>, loaded: map<StaffId, Row>, sent: seq<Notice>)

  datatype Event =
    | Tick(to: Time)
    | Start(job: JobId)
    | Peek(job: JobId)
    | Acquire(job: JobId)
    | Decide(job: JobId)
    | Commit(job: JobId)
    | Abort(job: JobId)
    | Load(staff: StaffId)
    | Save(staff: StaffId, active: bool, next: Option<Time>)

  predicate Holds(p: Phase) {
    p.Locked? || p.Notifying?
  }

  predicate Unlocked(s: State) {
    forall j | j in s.jobs :: !Holds(s.jobs[j])
  }

  /** A save writes only the columns that differ from the copy it loaded; a new follow-up time clears the stamp in that copy. */
  function Saved(row: Row, copy: Row, active: bool, next: Option<Time>): Row {
    Row(if copy.active != active then active else row.active,
        if copy.next != next then next else row.next,
        if copy.next != next && copy.stamp.Some? then None else row.stamp,
        if copy.next != next then row.generation + 1 else row.generation)
  }

  /** A terminal intervention is not edited, and an active one needs a follow-up time. */
  predicate Saves(copy: Row, active: bool, next: Option<Time>) {
    copy.active && (active ==> next.Some?)
  }

  /** One step; an event that cannot happen now changes nothing. */
  function Step(s: State, e: Event): State {
    match e
    case Tick(to) => if to >= s.clock then s.(clock := to) else s
    case Start(j) => if j !in s.jobs then s.(jobs := s.jobs[j := Started(s.clock)]) else s
    case Peek(j) =>
      if j in s.jobs && s.jobs[j].Started? then
        if IsDue(s.row, s.jobs[j].now) && !AlreadyNotified(s.row) then s.(jobs := s.jobs[j := Waiting(s.jobs[j].now)])
        else s.(jobs := s.jobs - {j})
      else s
    case Acquire(j) =>
      if j in s.jobs && s.jobs[j].Waiting? && Unlocked(s) then s.(jobs := s.jobs[j := Locked(s.jobs[j].now, s.row)]) else s
    case Decide(j) =>
      if j in s.jobs && s.jobs[j].Locked? then
        if IsDue(s.jobs[j].copy, s.jobs[j].now) && !AlreadyNotified(s.jobs[j].copy)
        then s.(jobs := s.jobs[j := Notifying(s.jobs[j].now, s.jobs[j].copy)])
        else s.(jobs := s.jobs - {j})
      else s
    case Commit(j) =>
      if j in s.jobs && s.jobs[j].Notifying? && s.jobs[j].copy.next.Some? then
        var p := s.jobs[j];
        s.(row := s.row.(stamp := Some(p.now)), jobs := s.jobs - {j},
           sent := s.sent + [Notice(p.copy.generation, p.copy.next.value, s.clock, s.row.active)])
      else s
    case Abort(j) => if j in s.jobs then s.(jobs := s.jobs - {j}) else s
    case Load(u) => s.(loaded := s.loaded[u := s.row])
    case Save(u, active, next) =>
      if u in s.loaded && Unlocked(s) && Saves(s.loaded[u], active, next)
      then s.(row := Saved(s.row, s.loaded[u], active, next), loaded := s.loaded - {u})
      else s
  }

  function Run(s: State, events: seq<Event>): State
    decreases |events|
  {
    if events == [] then s else Run(Step(s, events[0]), events[1..])
  }

  /** A new intervention: scheduled once, nothing sent. */
  function Initial(clock: Time, next: Time): State {
    State(clock, Row(true, Some(next), None, 0), map[], map[], [])
  }

  /** A save writes what staff changed of the copy they loaded, and leaves the other columns as they have become since. */
  lemma SaveWritesChanges(s: State, u: StaffId, active: bool, next: Option<Time>)
    requires u in s.loaded && Unlocked(s) && s.loaded[u].active && (active ==> next.Some?)
    ensures var row, copy := Step(s, Save(u, active, next)).row, s.loaded[u];
            && row.active == (if active then s.row.active else false)
            && row.next == (if next == copy.next then s.row.next else next)
            && (row.generation == s.row.generation <==> next == copy.next)
            && (next != copy.next && copy.stamp.Some? ==> row.stamp.None?)
            && (next == copy.next || copy.stamp.None? ==> row.stamp == s.row.stamp)
  {
  }

  /** A copy loaded as terminal is not saved, nor an active one without a follow-up time; and the copy stays where it was. */
  lemma SaveRefused(s: State, u: StaffId, active: bool, next: Option<Time>)
    requires u in s.loaded && (!s.loaded[u].active || (active && next.None?))
    ensures Step(s, Save(u, active, next)) == s
  {
  }

  /** A job that fails leaves the row and the notices as they were, and gives up the lock. */
  lemma AbortLeavesNothing(s: State, j: JobId)
    ensures var t := Step(s, Abort(j)); j !in t.jobs && t.row == s.row && t.sent == s.sent && forall k | k in s.jobs && k != j :: k in t.jobs && t.jobs[k] == s.jobs[k]
  {
  }

  /** A job takes its steps in their order: query, lock, second look, commit. */
  lemma OutOfTurn(s: State, j: JobId)
    requires j in s.jobs
    ensures !s.jobs[j].Started? ==> Step(s, Peek(j)) == s
    ensures !s.jobs[j].Waiting? ==> Step(s, Acquire(j)) == s
    ensures !s.jobs[j].Locked? ==> Step(s, Decide(j)) == s
    ensures !s.jobs[j].Notifying? ==> Step(s, Commit(j)) == s
    ensures Step(s, Start(j)) == s
  {
  }

  // ---------------------------------------------------------------- the invariant

  /** The lock holder's copy is the row itself, and no job runs with a time from the future. */
  predicate JobsSound(s: State) {
    && (forall j | j in s.jobs :: s.jobs[j].now <= s.clock)
    && (forall j | j in s.jobs && Holds(s.jobs[j]) :: s.jobs[j].copy == s.row)
    && (forall j | j in s.jobs && s.jobs[j].Notifying? :: IsDue(s.row, s.jobs[j].now) && !AlreadyNotified(s.row))
  }

  /** At most one job holds the row lock. */
  predicate Exclusive(s: State) {
    forall i, j | i in s.jobs && j in s.jobs && Holds(s.jobs[i]) && Holds(s.jobs[j]) :: i == j
  }

  /** Notices go to ever later schedulings, each sent while active and no earlier than due. */
  predicate SentSound(s: State) {
    && (forall i, j | 0 <= i < j < |s.sent| :: s.sent[i].generation < s.sent[j].generation)
    && (forall n | n in s.sent :: n.generation <= s.row.generation && n.due <= n.sentAt <= s.clock && n.active)
  }

  /** A notice for the current scheduling has been stamped. */
  predicate Stamped(s: State) {
    (exists n | n in s.sent :: n.generation == s.row.generation) ==> AlreadyNotified(s.row)
  }

  predicate Inv(s: State) {
    JobsSound(s) && Exclusive(s) && SentSound(s) && Stamped(s)
  }

  lemma JobStepKeeps(s: State, e: Event)
    requires Inv(s) && !e.Commit? && !e.Save?
    ensures Inv(Step(s, e))
  {
  }

  lemma SaveKeeps(s: State, e: Event)
    requires Inv(s) && e.Save?
    ensures Inv(Step(s, e))
  {
  }

  lemma CommitKeeps(s: State, e: Event)
    requires Inv(s) && e.Commit?
    ensures Inv(Step(s, e))
  {
  }

  lemma StepKeeps(s: State, e: Event)
    requires Inv(s)
    ensures Inv(Step(s, e))
  {
    if e.Commit? { CommitKeeps(s, e); }
    else if e.Save? { SaveKeeps(s, e); }
    else { JobStepKeeps(s, e); }
  }

  lemma {:induction false} RunKeeps(s: State, events: seq<Event>)
    requires Inv(s)
    ensures Inv(Run(s, events))
    decreases |events|
  {
    if events != [] {
      StepKeeps(s, events[0]);
      RunKeeps(Step(s, events[0]), events[1..]);
    }
  }

  /**
   * In every interleaving of job runs, status changes and reschedules, no scheduling is notified twice, nothing is
   * sent before it is due, and nothing is sent for an inactive intervention.
   */
  lemma AtMostOnce(clock: Time, next: Time, events: seq<Event>)
    ensures var s := Run(Initial(clock, next), events);
            && (forall i, j | 0 <= i < j < |s.sent| :: s.sent[i].generation != s.sent[j].generation)
            && (forall n | n in s.sent :: n.due <= n.sentAt && n.active)
  {
    RunKeeps(Initial(clock, next), events);
  }

  // ---------------------------------------------------------------- schedulings that are skipped

  /** The current scheduling counts as notified only if a notice for it was sent. */
  predicate Honest(s: State) {
    AlreadyNotified(s.row) ==> exists n | n in s.sent :: n.generation == s.row.generation
  }

  /** A reschedule to a time no later than a stamp that was written after the copy was loaded. */
  predicate Outrun(s: State, e: Event) {
    && e.Save? && e.staff in s.loaded && Unlocked(s) && Saves(s.loaded[e.staff], e.active, e.next)
    && s.loaded[e.staff].next != e.next && s.loaded[e.staff].stamp.None?
    && s.row.stamp.Some? && e.next.Some? && e.next.value <= s.row.stamp.value
  }

  /** Exactly those saves make a scheduling that counts as notified without a notice. */
  lemma HonestIff(s: State, e: Event)
    requires Inv(s) && Honest(s)
    ensures Honest(Step(s, e)) <==> !Outrun(s, e)
  {
  }

  predicate NeverOutrun(s: State, events: seq<Event>)
    decreases |events|
  {
    events == [] || (!Outrun(s, events[0]) && NeverOutrun(Step(s, events[0]), events[1..]))
  }

  /** In a run without such saves the stamp tells the truth: notified if and only if a notice was sent. */
  lemma {:induction false} StampTellsTruth(s: State, events: seq<Event>)
    requires Inv(s) && Honest(s) && NeverOutrun(s, events)
    ensures var t := Run(s, events); AlreadyNotified(t.row) <==> exists n | n in t.sent :: n.generation == t.row.generation
    decreases |events|
  {
    if events != [] {
      StepKeeps(s, events[0]);
      HonestIff(s, events[0]);
      StampTellsTruth(Step(s, events[0]), events[1..]);
    }
  }

  /** A job that runs alone, from its query to its commit. */
  function Alone(j: JobId): seq<Event> {
    [Start(j), Peek(j), Acquire(j), Decide(j), Commit(j)]
  }

  predicate Notifies(r: Row, now: Time) {
    IsDue(r, now) && !AlreadyNotified(r)
  }

  function Notified(r: Row, now: Time): Row {
    if Notifies(r, now) then r.(stamp := Some(now)) else r
  }

  lemma AlonePhases(s: State, j: JobId)
    requires Unlocked(s) && j !in s.jobs && Notifies(s.row, s.clock)
    ensures Run(s, [Start(j), Peek(j), Acquire(j), Decide(j)]) == s.(jobs := s.jobs[j := Notifying(s.clock, s.row)])
  {
    var now := s.clock;
    var a, b, c := s.(jobs := s.jobs[j := Started(now)]), s.(jobs := s.jobs[j := Waiting(now)]), s.(jobs := s.jobs[j := Locked(now, s.row)]);
    RunHead(s, Start(j), [Peek(j), Acquire(j), Decide(j)]);
    assert Step(a, Peek(j)).jobs == b.jobs;
    RunHead(a, Peek(j), [Acquire(j), Decide(j)]);
    assert Unlocked(b) && Step(b, Acquire(j)).jobs == c.jobs;
    RunHead(b, Acquire(j), [Decide(j)]);
    assert Step(c, Decide(j)).jobs == s.jobs[j := Notifying(now, s.row)];
    RunHead(c, Decide(j), []);
  }

  lemma AloneStops(s: State, j: JobId)
    requires j !in s.jobs && !Notifies(s.row, s.clock)
    ensures Run(s, [Start(j), Peek(j), Acquire(j), Decide(j)]) == s
  {
    var a := s.(jobs := s.jobs[j := Started(s.clock)]);
    RunHead(s, Start(j), [Peek(j), Acquire(j), Decide(j)]);
    assert Step(a, Peek(j)).jobs == s.jobs;
    RunHead(a, Peek(j), [Acquire(j), Decide(j)]);
    RunHead(s, Acquire(j), [Decide(j)]);
    RunHead(s, Decide(j), []);
  }

  lemma RunHead(s: State, e: Event, rest: seq<Event>)
    ensures Run(s, [e] + rest) == Run(Step(s, e), rest)
  {
  }

  lemma AloneRuns(s: State, j: JobId)
    requires Unlocked(s) && j !in s.jobs
    ensures var t := Run(s, Alone(j));
            && t.row == Notified(s.row, s.clock) && t.clock == s.clock && t.loaded == s.loaded && t.jobs == s.jobs
            && t.sent == s.sent + (if Notifies(s.row, s.clock) then [Notice(s.row.generation, s.row.next.value, s.clock, true)] else [])
  {
    var steps := [Start(j), Peek(j), Acquire(j), Decide(j)];
    assert Alone(j) == steps + [Commit(j)];
    RunConcat(s, steps, [Commit(j)]);
    var d := Run(s, steps);
    RunHead(d, Commit(j), []);
    if Notifies(s.row, s.clock) {
      AlonePhases(s, j);
      assert Step(d, Commit(j)).jobs == s.jobs;
    } else {
      AloneStops(s, j);
    }
  }

  /** Such a job notifies if and only if the row is active, due, and not stamped; one notice and one stamp, or nothing. */
  lemma AloneNotifiesIff(s: State, j: JobId)
    requires Unlocked(s) && j !in s.jobs
    ensures var t := Run(s, Alone(j));
            var unstamped := s.row.stamp.Some? && s.row.next.Some? ==> s.row.stamp.value < s.row.next.value;
            var notifies := s.row.active && s.row.next.Some? && s.row.next.value <= s.clock && unstamped;
            && t == s.(row := if notifies then s.row.(stamp := Some(s.clock)) else s.row,
                       sent := s.sent + (if notifies then [Notice(s.row.generation, s.row.next.value, s.clock, true)] else []))
  {
    AloneRuns(s, j);
  }

  /** A reachable skipped scheduling: loaded before the job stamped, saved after it with another time already past. */
  lemma OutrunHappens()
    ensures var s := Run(Initial(10, 5), [Load(7)] + Alone(1) + [Save(7, true, Some(6))]);
            && s.row == Row(true, Some(6), Some(10), 1) && !Notifies(s.row, 100)
            && |s.sent| == 1 && s.sent[0].generation == 0
  {
    var s0 := Initial(10, 5);
    var s1 := Step(s0, Load(7));
    AloneRuns(s1, 1);
    var s2 := Run(s1, Alone(1));
    var save := Save(7, true, Some(6));
    assert [Load(7)] + Alone(1) + [save] == [Load(7)] + (Alone(1) + [save]);
    RunHead(s0, Load(7), Alone(1) + [save]);
    RunConcat(s1, Alone(1), [save]);
    RunHead(s2, save, []);
  }

  lemma {:induction false} RunConcat(s: State, a: seq<Event>, b: seq<Event>)
    ensures Run(s, a + b) == Run(Run(s, a), b)
    decreases |a|
  {
    if a == [] {
      assert a + b == b;
    } else {
      assert (a + b)[1..] == a[1..] + b;
      RunConcat(Step(s, a[0]), a[1..], b);
    }
  }

  // ---------------------------------------------------------------- the job over all interventions

  /** The places of the rows that are notified, in order. */
  function Due(rows: seq<Row>, now: Time, from: nat): seq<nat>
    requires from <= |rows|
    decreases |rows| - from
  {
    if from == |rows| then []
    else (if Notifies(rows[from], now) then [from] else []) + Due(rows, now, from + 1)
  }

  class Interventions {
    var rows: seq<Row>
    var notices: seq<nat>

    /** The loop of one run that nothing interrupts. */
    method Perform(now: Time)
      modifies this
      ensures |rows| == |old(rows)| && forall i | 0 <= i < |rows| :: rows[i] == Notified(old(rows[i]), now)
      ensures notices == old(notices) + Due(old(rows), now, 0)
      ensures forall i | 0 <= i < |rows| :: !Notifies(rows[i], now)
    {
      var i := 0;
      while i < |rows|
        invariant 0 <= i <= |rows| == |old(rows)|
        invariant forall k | 0 <= k < i :: rows[k] == Notified(old(rows[k]), now)
        invariant forall k | i <= k < |rows| :: rows[k] == old(rows[k])
        invariant notices + Due(old(rows), now, i) == old(notices) + Due(old(rows), now, 0)
      {
        if IsDue(rows[i], now) && !AlreadyNotified(rows[i]) {
          notices := notices + [i];
          rows := rows[i := rows[i].(stamp := Some(now))];
        }
        i := i + 1;
      }
      assert notices + [] == notices;
    }
  }

  /** Once notified, no later run notifies again until the follow-up time is moved past the stamp or the stamp is cleared. */
  lemma NotifiedOnce(r: Row, now: Time, later: Time)
    requires now <= later && IsDue(r, now)
    ensures !Notifies(Notified(r, now), later)
    ensures Notified(Notified(r, now), later) == Notified(r, now)
    ensures forall active: bool, next: Time :: IsDue(Notified(r, now).(active := active, next := Some(next)), later) ==>
              (Notifies(Notified(r, now).(active := active, next := Some(next)), later) <==> next > Notified(r, now).stamp.value)
  {
  }
}
