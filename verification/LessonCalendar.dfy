/** When lessons unlock: weekday patterns, release days, start dates, and the edits that keep them in step. */
module LessonCalendar {
  import opened Options

  /** A calendar day; day 0 is a Monday. */
  type Date = int

  // ---------------------------------------------------------------- weekday patterns

  const PATTERNS: map<string, seq<int>> := map[
    "weekdays" := [0, 1, 2, 3, 4],
    "weekdays_sat" := [0, 1, 2, 3, 4, 5],
    "mwf" := [0, 2, 4],
    "tth" := [1, 3],
    "daily" := [0, 1, 2, 3, 4, 5, 6]]

  /** The scheduled weekdays, Monday being 0; an unknown schedule counts as weekdays. */
  function Indices(schedule: string): seq<int> {
    if schedule in PATTERNS then PATTERNS[schedule] else PATTERNS["weekdays"]
  }

  function Min(a: int, b: int): int {
    if a <= b then a else b
  }

  function Least(days: seq<int>): int
    requires days != []
    decreases |days|
  {
    if |days| == 1 then days[0] else Min(days[0], Least(days[1..]))
  }

  lemma {:induction false} LeastIsLeast(days: seq<int>)
    requires days != []
    ensures Least(days) in days && forall day | day in days :: Least(days) <= day
    decreases |days|
  {
    if |days| > 1 {
      assert days == [days[0]] + days[1..];
      LeastIsLeast(days[1..]);
    }
  }

  function FirstIndex(schedule: string): int {
    Least(Indices(schedule))
  }

  predicate ValidDay(schedule: string, releaseDay: int) {
    releaseDay % 7 in Indices(schedule)
  }

  /** The first index is the least weekday of the pattern. */
  lemma FirstIndexBounds(schedule: string)
    ensures 0 <= FirstIndex(schedule) < 7 && FirstIndex(schedule) in Indices(schedule)
    ensures forall day | day in Indices(schedule) :: FirstIndex(schedule) <= day
  {
    LeastIsLeast(Indices(schedule));
  }

  /** A valid release day is at least the first index: its weekday already is. */
  lemma ValidDayBound(schedule: string, releaseDay: int)
    requires ValidDay(schedule, releaseDay) && releaseDay >= 0
    ensures FirstIndex(schedule) <= releaseDay
  {
    FirstIndexBounds(schedule);
    assert releaseDay % 7 <= releaseDay;
  }

  // ---------------------------------------------------------------- dates

  /** The weekday as the date library numbers it, Sunday being 0. */
  function Wday(date: Date): int {
    (date + 1) % 7
  }

  function WeekdayIndex(date: Date): int {
    (Wday(date) + 6) % 7
  }

  function NextStart(schedule: string, date: Date): Date {
    date + (FirstIndex(schedule) - WeekdayIndex(date)) % 7
  }

  /** The suggested start is the least date from the given one on that falls on the pattern's first weekday. */
  lemma NextStartIsLeast(schedule: string, date: Date)
    ensures var next := NextStart(schedule, date);
            && date <= next < date + 7
            && WeekdayIndex(next) == FirstIndex(schedule)
            && (forall d: Date | date <= d && WeekdayIndex(d) == FirstIndex(schedule) :: next <= d)
            && NextStart(schedule, next) == next
  {
    var next, first := NextStart(schedule, date), FirstIndex(schedule);
    FirstIndexBounds(schedule);
    NextOfWeekday(date, first, WeekdayIndex(date), next);
    NextOfWeekday(next, first, first, NextStart(schedule, next));
    forall d: Date | date <= d && WeekdayIndex(d) == first ensures next <= d {
      SameWeekdayApart(next, d);
    }
  }

  lemma WeekdayIsMod(date: Date)
    ensures WeekdayIndex(date) == date % 7
  {
  }

  lemma NextOfWeekday(date: Date, first: int, index: int, next: Date)
    requires 0 <= first < 7 && index == WeekdayIndex(date) && next == date + (first - index) % 7
    ensures date <= next < date + 7 && WeekdayIndex(next) == first
  {
    WeekdayIsMod(date);
    WeekdayIsMod(next);
  }

  /** Two dates on the same weekday are the same or at least a week apart. */
  lemma SameWeekdayApart(a: Date, b: Date)
    requires WeekdayIndex(a) == WeekdayIndex(b)
    ensures a <= b || b + 7 <= a
  {
    WeekdayIsMod(a);
    WeekdayIsMod(b);
  }

  datatype Module = Module(schedule: string, dayOffset: int)

  /** A cohort, with the start it has scheduled for the module. */
  datatype Cohort = Cohort(startDate: Date, scheduled: Option<Date>)

  /** A student's assignment of a module or of a lesson. */
  datatype Assignment = Assignment(unlocked: bool, unlockOverride: Option<Date>)

  datatype Lesson = Lesson(releaseDay: int, archived: bool)

  function LegacyStart(m: Module, cohort: Cohort): Date {
    cohort.startDate + m.dayOffset + FirstIndex(m.schedule)
  }

  function StartDateFor(m: Module, cohort: Cohort): Date {
    if cohort.scheduled.Some? then cohort.scheduled.value else LegacyStart(m, cohort)
  }

  function EffectiveStart(m: Module, cohort: Cohort, gate: Option<Assignment>): Date {
    if gate.Some? && gate.value.unlockOverride.Some? then gate.value.unlockOverride.value else StartDateFor(m, cohort)
  }

  function UnlockDate(l: Lesson, m: Module, cohort: Cohort, gate: Option<Assignment>): Date {
    EffectiveStart(m, cohort, gate) + (l.releaseDay - FirstIndex(m.schedule))
  }

  predicate Accessible(m: Module, cohort: Cohort, a: Assignment, today: Date) {
    a.unlocked || today >= EffectiveStart(m, cohort, Some(a))
  }

  predicate Available(l: Lesson, m: Module, cohort: Cohort, gate: Option<Assignment>, own: Option<Assignment>, today: Date) {
    if l.archived then false
    else if own.Some? && own.value.unlockOverride.Some? then today >= own.value.unlockOverride.value
    else if own.Some? then own.value.unlocked
    else if gate.Some? && !Accessible(m, cohort, gate.value, today) then false
    else today >= UnlockDate(l, m, cohort, gate)
  }

  /**
   * Where a module starts: on the date set for the student, else on the date scheduled for the cohort, else as many days
   * after the cohort's start as its offset and the first weekday of its pattern say. The lesson follows by its release day.
   */
  lemma StartPrecedence(l: Lesson, m: Module, cohort: Cohort, unlocked: bool, date: Date)
    ensures UnlockDate(l, m, cohort, Some(Assignment(unlocked, Some(date)))) - l.releaseDay == date - FirstIndex(m.schedule)
    ensures UnlockDate(l, m, cohort.(scheduled := Some(date)), Some(Assignment(unlocked, None))) - l.releaseDay == date - FirstIndex(m.schedule)
    ensures UnlockDate(l, m, cohort.(scheduled := Some(date)), None) - l.releaseDay == date - FirstIndex(m.schedule)
    ensures UnlockDate(l, m, cohort.(scheduled := None), None) == cohort.startDate + m.dayOffset + l.releaseDay
  {
  }

  /** A lesson of its own assignment follows that alone: its date if one is set, and otherwise its flag. */
  lemma OwnAssignmentDecides(l: Lesson, m: Module, cohort: Cohort, gate: Option<Assignment>, unlocked: bool, date: Date, today: Date)
    ensures Available(l, m, cohort, gate, Some(Assignment(unlocked, Some(date))), today) <==> !l.archived && date <= today
    ensures Available(l, m, cohort, gate, Some(Assignment(unlocked, None)), today) <==> !l.archived && unlocked
  {
  }

  /** The weekdays of every pattern, Monday being 0. */
  lemma PatternDays(day: int)
    ensures ValidDay("weekdays", day) <==> day % 7 < 5
    ensures ValidDay("weekdays_sat", day) <==> day % 7 < 6
    ensures ValidDay("mwf", day) <==> day % 7 == 0 || day % 7 == 2 || day % 7 == 4
    ensures ValidDay("tth", day) <==> day % 7 == 1 || day % 7 == 3
    ensures ValidDay("daily", day)
  {
  }

  /** A lesson with a valid release day never unlocks before its module's effective start. */
  lemma UnlockNotBeforeStart(l: Lesson, m: Module, cohort: Cohort, gate: Option<Assignment>)
    requires ValidDay(m.schedule, l.releaseDay) && l.releaseDay >= 0
    ensures EffectiveStart(m, cohort, gate) <= UnlockDate(l, m, cohort, gate)
  {
    ValidDayBound(m.schedule, l.releaseDay);
  }

  /** The lesson lands on the weekday of its release day exactly when the effective start is on the pattern's first day. */
  lemma UnlockWeekdayIff(l: Lesson, m: Module, cohort: Cohort, gate: Option<Assignment>)
    ensures WeekdayIndex(UnlockDate(l, m, cohort, gate)) == l.releaseDay % 7
            <==> WeekdayIndex(EffectiveStart(m, cohort, gate)) == FirstIndex(m.schedule)
  {
    FirstIndexBounds(m.schedule);
    var start, first, day := EffectiveStart(m, cohort, gate), FirstIndex(m.schedule), l.releaseDay;
    WeekdayIsMod(start);
    WeekdayIsMod(start + (day - first));
    ShiftedWeekday(start, day, first);
  }

  lemma ShiftedWeekday(start: int, day: int, first: int)
    requires 0 <= first < 7
    ensures (start + (day - first)) % 7 == day % 7 <==> start % 7 == first
  {
  }

  /** On such a start the unlock date is a scheduled weekday exactly when the release day is valid. */
  lemma UnlockOnPatternIff(l: Lesson, m: Module, cohort: Cohort, gate: Option<Assignment>)
    requires WeekdayIndex(EffectiveStart(m, cohort, gate)) == FirstIndex(m.schedule)
    ensures WeekdayIndex(UnlockDate(l, m, cohort, gate)) in Indices(m.schedule) <==> ValidDay(m.schedule, l.releaseDay)
  {
    UnlockWeekdayIff(l, m, cohort, gate);
  }

  /** A start computed from the cohort's own start is on the first day exactly when that start and the offset make a Monday. */
  lemma LegacyStartIff(m: Module, cohort: Cohort)
    ensures WeekdayIndex(LegacyStart(m, cohort)) == FirstIndex(m.schedule) <==> WeekdayIndex(cohort.startDate + m.dayOffset) == 0
  {
    FirstIndexBounds(m.schedule);
    WeekdayIsMod(LegacyStart(m, cohort));
    WeekdayIsMod(cohort.startDate + m.dayOffset);
  }

  /**
   * An unarchived lesson without an assignment of its own is available on exactly the days from its unlock date on,
   * if and only if its module is not gated, is force-unlocked, or releases the lesson no earlier than its first index.
   */
  lemma AvailableIff(l: Lesson, m: Module, cohort: Cohort, gate: Option<Assignment>)
    requires !l.archived
    ensures (forall today: Date :: Available(l, m, cohort, gate, None, today) <==> today >= UnlockDate(l, m, cohort, gate))
            <==> gate.None? || gate.value.unlocked || l.releaseDay >= FirstIndex(m.schedule)
  {
    var unlock := UnlockDate(l, m, cohort, gate);
    if gate.Some? && !gate.value.unlocked && l.releaseDay < FirstIndex(m.schedule) {
      assert !Available(l, m, cohort, gate, None, unlock);
    }
  }

  /** With a valid release day that is always so: the module's force-unlock changes nothing. */
  lemma ForceUnlockIrrelevant(l: Lesson, m: Module, cohort: Cohort, gate: Option<Assignment>, today: Date)
    requires !l.archived && l.releaseDay >= 0 && ValidDay(m.schedule, l.releaseDay)
    ensures Available(l, m, cohort, gate, None, today) <==> today >= UnlockDate(l, m, cohort, gate)
    ensures gate.Some? ==> forall flag: bool ::
              Available(l, m, cohort, Some(gate.value.(unlocked := flag)), None, today) <==> Available(l, m, cohort, gate, None, today)
  {
  }

  /** Whatever the assignments, a lesson once available stays available. */
  lemma StaysAvailable(l: Lesson, m: Module, cohort: Cohort, gate: Option<Assignment>, own: Option<Assignment>, day: Date, later: Date)
    requires day <= later && Available(l, m, cohort, gate, own, day)
    ensures Available(l, m, cohort, gate, own, later)
  {
  }

  // ---------------------------------------------------------------- a module's own availability

  function UnlockDates(lessons: seq<Lesson>, m: Module, cohort: Cohort, gate: Option<Assignment>): seq<Date>
    ensures |UnlockDates(lessons, m, cohort, gate)| == |lessons|
  {
    seq(|lessons|, i requires 0 <= i < |lessons| => UnlockDate(lessons[i], m, cohort, gate))
  }

  function NextUnlock(lessons: seq<Lesson>, m: Module, cohort: Cohort, a: Assignment): Option<Date> {
    if lessons == [] then None else Some(Least(UnlockDates(lessons, m, cohort, Some(a))))
  }

  predicate AvailableFor(lessons: seq<Lesson>, m: Module, cohort: Cohort, a: Assignment, today: Date) {
    && Accessible(m, cohort, a, today)
    && (lessons == [] || exists i | 0 <= i < |lessons| :: Available(lessons[i], m, cohort, Some(a), None, today))
  }

  /** A module with lessons opens exactly on the next unlock date it announces, unless it is empty. */
  lemma ModuleOpensOnNextUnlock(lessons: seq<Lesson>, m: Module, cohort: Cohort, a: Assignment, today: Date)
    requires forall l | l in lessons :: !l.archived && l.releaseDay >= 0 && ValidDay(m.schedule, l.releaseDay)
    ensures AvailableFor(lessons, m, cohort, a, today) <==>
            match NextUnlock(lessons, m, cohort, a)
            case None => Accessible(m, cohort, a, today)
            case Some(date) => today >= date
  {
    if lessons != [] {
      var dates := UnlockDates(lessons, m, cohort, Some(a));
      LeastIsLeast(dates);
      var k :| 0 <= k < |dates| && dates[k] == Least(dates);
      forall i | 0 <= i < |lessons|
        ensures dates[i] in dates && EffectiveStart(m, cohort, Some(a)) <= dates[i]
        ensures Available(lessons[i], m, cohort, Some(a), None, today) <==> today >= dates[i]
      {
        assert lessons[i] in lessons;
        UnlockNotBeforeStart(lessons[i], m, cohort, Some(a));
        ForceUnlockIrrelevant(lessons[i], m, cohort, Some(a), today);
      }
      assert Available(lessons[k], m, cohort, Some(a), None, today) <==> today >= dates[k];
    }
  }

  // ---------------------------------------------------------------- editing a module and its lessons

  /** A module's schedule, its lessons by id, and the start a cohort scheduled for it. */
  datatype Calendar = Calendar(schedule: string, lessons: map<nat, Lesson>, start: Option<Date>)

  datatype Edit =
    | SaveLesson(id: nat, day: Option<int>)
    | ArchiveLesson(id: nat)
    | RestoreLesson(id: nat)
    | DestroyLesson(id: nat)
    | ChangeSchedule(schedule: string)
    | ScheduleStart(date: Date)

  /** The validations of a lesson: an archived one need not match the schedule. */
  predicate Saves(schedule: string, l: Lesson) {
    l.releaseDay >= 0 && (l.archived || ValidDay(schedule, l.releaseDay))
  }

  /** A changed schedule must fit every lesson, archived ones included. */
  predicate ScheduleSaves(c: Calendar, schedule: string) {
    && schedule in PATTERNS
    && (schedule == c.schedule || forall id | id in c.lessons :: ValidDay(schedule, c.lessons[id].releaseDay))
  }

  predicate Accepts(c: Calendar, e: Edit) {
    match e
    case SaveLesson(id, day) => day.Some? && Saves(c.schedule, Lesson(day.value, id in c.lessons && c.lessons[id].archived))
    case ArchiveLesson(id) => id in c.lessons && Saves(c.schedule, c.lessons[id].(archived := true))
    case RestoreLesson(id) => id in c.lessons && Saves(c.schedule, c.lessons[id].(archived := false))
    case DestroyLesson(id) => id in c.lessons
    case ChangeSchedule(schedule) => ScheduleSaves(c, schedule)
    case ScheduleStart(date) => WeekdayIndex(date) == FirstIndex(c.schedule)
  }

  /** A refused edit changes nothing. */
  function Apply(c: Calendar, e: Edit): Calendar {
    if !Accepts(c, e) then c else
      match e
      case SaveLesson(id, day) => c.(lessons := c.lessons[id := Lesson(day.value, id in c.lessons && c.lessons[id].archived)])
      case ArchiveLesson(id) => c.(lessons := c.lessons[id := c.lessons[id].(archived := true)])
      case RestoreLesson(id) => c.(lessons := c.lessons[id := c.lessons[id].(archived := false)])
      case DestroyLesson(id) => c.(lessons := c.lessons - {id})
      case ChangeSchedule(schedule) => c.(schedule := schedule)
      case ScheduleStart(date) => c.(start := Some(date))
  }

  /** A lesson can always be archived and always be removed; neither touches another lesson. */
  lemma ArchiveAndRemove(c: Calendar, id: nat, other: nat)
    requires Valid(c) && id in c.lessons
    ensures var after := Apply(c, ArchiveLesson(id)).lessons;
            id in after && after[id] == Lesson(c.lessons[id].releaseDay, true)
            && (other != id ==> (other in after <==> other in c.lessons) && (other in after ==> after[other] == c.lessons[other]))
    ensures var after := Apply(c, DestroyLesson(id)).lessons;
            id !in after && (other != id ==> (other in after <==> other in c.lessons) && (other in after ==> after[other] == c.lessons[other]))
  {
    assert Saves(c.schedule, c.lessons[id]);
  }

  function Run(c: Calendar, edits: seq<Edit>): Calendar
    decreases |edits|
  {
    if edits == [] then c else Run(Apply(c, edits[0]), edits[1..])
  }

  /** Every lesson passes the validations against the schedule as it now is. */
  predicate Valid(c: Calendar) {
    c.schedule in PATTERNS && forall id | id in c.lessons :: Saves(c.schedule, c.lessons[id])
  }

  lemma ApplyKeeps(c: Calendar, e: Edit)
    requires Valid(c)
    ensures Valid(Apply(c, e))
  {
  }

  lemma {:induction false} RunKeeps(c: Calendar, edits: seq<Edit>)
    requires Valid(c)
    ensures Valid(Run(c, edits))
    decreases |edits|
  {
    if edits != [] {
      ApplyKeeps(c, edits[0]);
      RunKeeps(Apply(c, edits[0]), edits[1..]);
    }
  }

  /** After any edits of a new module, every lesson students see is available on exactly the days from its unlock date on. */
  lemma CalendarSafety(schedule: string, edits: seq<Edit>, id: nat, dayOffset: int, cohortStart: Date, gate: Option<Assignment>, today: Date)
    requires schedule in PATTERNS
    requires var c := Run(Calendar(schedule, map[], None), edits); id in c.lessons && !c.lessons[id].archived
    ensures var c := Run(Calendar(schedule, map[], None), edits);
            var m, cohort := Module(c.schedule, dayOffset), Cohort(cohortStart, c.start);
            && ValidDay(c.schedule, c.lessons[id].releaseDay)
            && EffectiveStart(m, cohort, gate) <= UnlockDate(c.lessons[id], m, cohort, gate)
            && (Available(c.lessons[id], m, cohort, gate, None, today) <==> today >= UnlockDate(c.lessons[id], m, cohort, gate))
  {
    var c := Run(Calendar(schedule, map[], None), edits);
    RunKeeps(Calendar(schedule, map[], None), edits);
    UnlockNotBeforeStart(c.lessons[id], Module(c.schedule, dayOffset), Cohort(cohortStart, c.start), gate);
    ForceUnlockIrrelevant(c.lessons[id], Module(c.schedule, dayOffset), Cohort(cohortStart, c.start), gate, today);
  }

  /** Every lesson could be restored. */
  predicate Restorable(c: Calendar) {
    forall id | id in c.lessons :: Accepts(c, RestoreLesson(id))
  }

  /** Edits keep every lesson restorable except saving an archived lesson with a day that does not fit the schedule. */
  lemma RestorableIff(c: Calendar, e: Edit)
    requires Valid(c) && Restorable(c)
    ensures Restorable(Apply(c, e)) <==>
            !(e.SaveLesson? && e.day.Some? && e.day.value >= 0 && e.id in c.lessons && c.lessons[e.id].archived && !ValidDay(c.schedule, e.day.value))
  {
  }

  /** An accepted change of schedule leaves every lesson restorable, however it was edited while archived. */
  lemma ChangeRestores(c: Calendar, schedule: string)
    requires Valid(c) && schedule != c.schedule && Accepts(c, ChangeSchedule(schedule))
    ensures Restorable(Apply(c, ChangeSchedule(schedule)))
  {
  }

  // ---------------------------------------------------------------- the scheduled start

  predicate StartOnFirstDay(c: Calendar) {
    c.start.Some? ==> WeekdayIndex(c.start.value) == FirstIndex(c.schedule)
  }

  /** Starts stay on the first weekday under every edit but a change to a pattern that begins on another weekday. */
  lemma StartOnFirstDayIff(c: Calendar, e: Edit)
    requires StartOnFirstDay(c)
    ensures StartOnFirstDay(Apply(c, e)) <==>
            !(e.ChangeSchedule? && Accepts(c, e) && c.start.Some? && FirstIndex(e.schedule) != FirstIndex(c.schedule))
  {
  }

  /** Such a run: a Tuesday lesson then unlocks on the Monday the cohort had scheduled. */
  lemma ChangeMovesLessons()
    ensures var edits := [ScheduleStart(0), SaveLesson(1, Some(1)), ChangeSchedule("tth")];
            var c := Run(Calendar("weekdays", map[], None), edits);
            && c.schedule == "tth" && 1 in c.lessons && c.start == Some(0)
            && var unlock := UnlockDate(c.lessons[1], Module(c.schedule, 0), Cohort(0, c.start), None);
               WeekdayIndex(unlock) == 0 && WeekdayIndex(unlock) !in Indices(c.schedule)
  {
    var c0 := Calendar("weekdays", map[], None);
    FirstIndexBounds("weekdays");
    FirstIndexBounds("tth");
    var c1 := c0.(start := Some(0));
    var c2 := c1.(lessons := map[1 := Lesson(1, false)]);
    assert Apply(c0, ScheduleStart(0)) == c1;
    assert Apply(c1, SaveLesson(1, Some(1))) == c2;
    assert Apply(c2, ChangeSchedule("tth")) == c2.(schedule := "tth");
    var edits := [ScheduleStart(0), SaveLesson(1, Some(1)), ChangeSchedule("tth")];
    assert edits[1..] == [SaveLesson(1, Some(1)), ChangeSchedule("tth")] && edits[1..][1..] == [ChangeSchedule("tth")];
    assert Run(c2, [ChangeSchedule("tth")]) == Run(c2.(schedule := "tth"), []);
  }

  // ---------------------------------------------------------------- the records, updated in place

  class CurriculumModule {
    var schedule: string
    var lessons: map<nat, Lesson>
    var start: Option<Date>

    constructor (schedule: string)
      requires schedule in PATTERNS
      ensures State() == Calendar(schedule, map[], None) && Valid(State())
    {
      this.schedule, lessons, start := schedule, map[], None;
    }

    function State(): Calendar
      reads this
    {
      Calendar(schedule, lessons, start)
    }

    method Update(id: nat, day: Option<int>) returns (saved: bool)
      requires Valid(State())
      modifies `lessons
      ensures State() == Apply(old(State()), SaveLesson(id, day)) && Valid(State())
      ensures saved == Accepts(old(State()), SaveLesson(id, day))
    {
      ApplyKeeps(State(), SaveLesson(id, day));
      if day.None? { return false; }
      var lesson := Lesson(day.value, id in lessons && lessons[id].archived);
      saved := Saves(schedule, lesson);
      if saved { lessons := lessons[id := lesson]; }
    }

    method Archive(id: nat) returns (saved: bool)
      requires Valid(State()) && id in lessons
      modifies `lessons
      ensures State() == Apply(old(State()), ArchiveLesson(id)) && Valid(State())
      ensures saved && lessons[id].archived
    {
      assert Saves(schedule, lessons[id]);
      ApplyKeeps(State(), ArchiveLesson(id));
      lessons := lessons[id := lessons[id].(archived := true)];
      return true;
    }

    method Restore(id: nat) returns (saved: bool)
      requires Valid(State()) && id in lessons
      modifies `lessons
      ensures State() == Apply(old(State()), RestoreLesson(id)) && Valid(State())
      ensures saved <==> ValidDay(schedule, old(lessons[id]).releaseDay)
    {
      assert Saves(schedule, lessons[id]);
      ApplyKeeps(State(), RestoreLesson(id));
      var lesson := lessons[id].(archived := false);
      saved := Saves(schedule, lesson);
      if saved { lessons := lessons[id := lesson]; }
    }

    /** Counts the lessons a new pattern would exclude, and keeps the old pattern if there are any. */
    method Reschedule(schedule: string) returns (saved: bool)
      requires Valid(State())
      modifies `schedule
      ensures State() == Apply(old(State()), ChangeSchedule(schedule)) && Valid(State())
      ensures saved == Accepts(old(State()), ChangeSchedule(schedule))
    {
      ApplyKeeps(State(), ChangeSchedule(schedule));
      if schedule !in PATTERNS { return false; }
      if schedule != this.schedule {
        var invalid := CountInvalid(schedule);
        if invalid > 0 { return false; }
      }
      this.schedule := schedule;
      return true;
    }

    method CountInvalid(schedule: string) returns (invalid: nat)
      ensures invalid == |set id | id in lessons && !ValidDay(schedule, lessons[id].releaseDay)|
      ensures invalid == 0 <==> forall id | id in lessons :: ValidDay(schedule, lessons[id].releaseDay)
    {
      invalid := 0;
      var pending := lessons.Keys;
      ghost var excluded: set<nat> := {};
      while pending != {}
        invariant pending <= lessons.Keys && invalid == |excluded|
        invariant excluded == set id | id in lessons && id !in pending && !ValidDay(schedule, lessons[id].releaseDay)
        decreases |pending|
      {
        var id :| id in pending;
        pending := pending - {id};
        if !ValidDay(schedule, lessons[id].releaseDay) {
          invalid := invalid + 1;
          excluded := excluded + {id};
        }
      }
      assert excluded == set id | id in lessons && !ValidDay(schedule, lessons[id].releaseDay);
      if id :| id in lessons && !ValidDay(schedule, lessons[id].releaseDay) {
        assert id in excluded;
      }
    }
  }
}
