/** Office hours: the next occurrences of a session that repeats weekly at a local wall time. */
module OfficeHours {

  /** Instants, wall times and durations are counted in microseconds; days start at multiples of `DAY` of wall time. */
  const SECOND := 1_000_000
  const DAY := 86_400_000_000
  const WEEK := 604_800_000_000

  /** A stretch of time with one offset from UTC. */
  datatype Period = Period(offset: int, dst: bool)

  /**
   * A time zone: the period of an instant, the periods in which a wall time occurs, the instant to which a wall time in
   * a gap is advanced, and bounds on the offset.
   */
  datatype Zone = Zone(at: int -> Period, periodsFor: int -> seq<Period>, advance: int -> int, least: int, most: int)

  /** The wall time with its fraction of a second dropped: the date, hour, minute and second that it shows. */
  function CutToSecond(w: int): int {
    w / DAY * DAY + (w % DAY - w % DAY % SECOND)
  }

  /** Offsets stay in bounds, and an instant's wall time occurs in its own period, which changes only on whole seconds. */
  ghost predicate ValidZone(z: Zone) {
    && (forall t :: z.least <= z.at(t).offset <= z.most)
    && (forall t :: z.at(t) in z.periodsFor(CutToSecond(t + z.at(t).offset)))
    && (forall w, p | p in z.periodsFor(w) :: z.least <= p.offset <= z.most)
    && (forall w | z.periodsFor(w) == [] :: z.least <= w - z.advance(w) <= z.most)
  }

  datatype Session = Session(zone: Zone, startsAt: int, endsAt: int, active: bool, weekly: bool)

  datatype Occurrence = Occurrence(start: int, end: int)

  function Wall(z: Zone, t: int): int {
    t + z.at(t).offset
  }

  function Duration(s: Session): int {
    if s.endsAt >= s.startsAt then s.endsAt - s.startsAt else 0
  }

  /** The wall time of the anchor, cut to whole seconds. */
  function AnchorWall(s: Session): int {
    CutToSecond(Wall(s.zone, s.startsAt))
  }

  function First(periods: seq<Period>, f: Period -> bool): seq<Period> {
    if periods == [] then [] else if f(periods[0]) then [periods[0]] else First(periods[1..], f)
  }

  lemma {:induction false} FirstIn(periods: seq<Period>, f: Period -> bool)
    ensures First(periods, f) == [] <==> forall p | p in periods :: !f(p)
    ensures First(periods, f) != [] ==> First(periods, f)[0] in periods && f(First(periods, f)[0])
  {
    if periods != [] {
      FirstIn(periods[1..], f);
      assert periods == [periods[0]] + periods[1..];
    }
  }

  /** Of several periods: the one with the anchor's offset, else one with its summer-time flag, else the last. */
  function Choose(periods: seq<Period>, anchor: Period): Period
    requires periods != []
  {
    var sameOffset := First(periods, (p: Period) => p.offset == anchor.offset);
    var sameFlag := First(periods, (p: Period) => p.dst == anchor.dst);
    if sameOffset != [] then sameOffset[0] else if sameFlag != [] then sameFlag[0] else periods[|periods| - 1]
  }

  lemma ChooseIn(periods: seq<Period>, anchor: Period)
    requires periods != []
    ensures Choose(periods, anchor) in periods
    ensures anchor in periods ==> Choose(periods, anchor).offset == anchor.offset
  {
    FirstIn(periods, (p: Period) => p.offset == anchor.offset);
    FirstIn(periods, (p: Period) => p.dst == anchor.dst);
  }

  /** The start of the occurrence `k` weeks after the anchor: the same wall time, in the zone as it is then. */
  function WeeklyStartAt(s: Session, k: int): int {
    var w := AnchorWall(s) + k * WEEK;
    var periods := s.zone.periodsFor(w);
    if periods == [] then s.zone.advance(w) else w - Choose(periods, s.zone.at(s.startsAt)).offset
  }

  /** Every start keeps its wall time up to the offsets of the zone. */
  lemma StartBounds(s: Session, k: int)
    requires ValidZone(s.zone)
    ensures var w := AnchorWall(s) + k * WEEK;
            w - s.zone.most <= WeeklyStartAt(s, k) <= w - s.zone.least
  {
    var w := AnchorWall(s) + k * WEEK;
    var periods := s.zone.periodsFor(w);
    if periods != [] {
      ChooseIn(periods, s.zone.at(s.startsAt));
    }
  }

  /** Starts of later weeks come strictly later, as long as the offsets of the zone vary by less than a week. */
  lemma StartsIncrease(s: Session, j: int, k: int)
    requires ValidZone(s.zone) && s.zone.most - s.zone.least < WEEK && j < k
    ensures WeeklyStartAt(s, j) < WeeklyStartAt(s, k)
  {
    StartBounds(s, j);
    StartBounds(s, k);
    assert (k - j) * WEEK >= WEEK;
  }

  /** Occurrence 0 is the anchor itself exactly when the anchor's clock shows a whole second. */
  lemma AnchorIff(s: Session)
    requires ValidZone(s.zone)
    ensures WeeklyStartAt(s, 0) == s.startsAt <==> Wall(s.zone, s.startsAt) % 86_400_000_000 % 1_000_000 == 0
  {
    var p := s.zone.at(s.startsAt);
    assert p in s.zone.periodsFor(AnchorWall(s));
    ChooseIn(s.zone.periodsFor(AnchorWall(s)), p);
  }

  // ---------------------------------------------------------------- finding the next occurrence

  /** The occurrence had ended by `from`. */
  predicate Ended(s: Session, k: int, from: int) {
    WeeklyStartAt(s, k) + Duration(s) < from
  }

  function Date(z: Zone, t: int): int {
    Wall(z, t) / DAY
  }

  /** The week from which the search starts: whole weeks between the local dates. */
  function Jump(s: Session, from: int): nat {
    if s.startsAt >= from then 0 else
      var weeks := (Date(s.zone, from) - Date(s.zone, s.startsAt)) / 7;
      if weeks > 0 then weeks else 0
  }

  /** What is left of the search: an occurrence that starts this late cannot have ended. */
  function Remaining(s: Session, k: int, from: int): int {
    from + s.zone.most - (AnchorWall(s) + k * WEEK)
  }

  /** The correction loop: the first week at or after `k` whose occurrence has not ended. */
  ghost function Correct(s: Session, k: nat, from: int): (n: nat)
    requires ValidZone(s.zone)
    ensures k <= n && !Ended(s, n, from)
    ensures forall j | k <= j < n :: Ended(s, j, from)
    decreases if Ended(s, k, from) then 1 + (if Remaining(s, k, from) > 0 then Remaining(s, k, from) else 0) else 0
  {
    StartBounds(s, k);
    StartBounds(s, k + 1);
    if Ended(s, k, from) then Correct(s, k + 1, from) else k
  }

  lemma EndedRemains(s: Session, k: int, from: int)
    requires ValidZone(s.zone) && Ended(s, k, from)
    ensures Remaining(s, k, from) > 0 && Remaining(s, k + 1, from) < Remaining(s, k, from)
  {
    StartBounds(s, k);
  }

  /** The correction loop, from week `jump` on. */
  method CorrectWeek(s: Session, jump: nat, from: int) returns (k: nat, start: int)
    requires ValidZone(s.zone)
    ensures start == WeeklyStartAt(s, k) && !Ended(s, k, from)
    ensures jump <= k && forall j | jump <= j < k :: Ended(s, j, from)
  {
    k, start := jump, WeeklyStartAt(s, jump);
    while start + Duration(s) < from
      invariant start == WeeklyStartAt(s, k)
      invariant jump <= k && forall j | jump <= j < k :: Ended(s, j, from)
      decreases Remaining(s, k, from)
    {
      EndedRemains(s, k, from);
      k := k + 1;
      start := WeeklyStartAt(s, k);
    }
  }

  /** Jump, then correct. The result has not ended, and nothing between the jump and the result is still open. */
  method NextWeeklyStart(s: Session, from: int) returns (k: nat, start: int)
    requires ValidZone(s.zone)
    ensures start == WeeklyStartAt(s, k) && k == Correct(s, Jump(s, from), from)
  {
    k, start := CorrectWeek(s, Jump(s, from), from);
    CorrectUnique(s, Jump(s, from), k, from);
  }

  /** The method's result is the one the specification names. */
  lemma CorrectUnique(s: Session, jump: nat, n: nat, from: int)
    requires ValidZone(s.zone) && !Ended(s, n, from)
    requires jump <= n && forall j | jump <= j < n :: Ended(s, j, from)
    ensures n == Correct(s, jump, from)
  {
  }

  /** `k` is the least week whose occurrence has not ended. */
  ghost predicate IsNext(s: Session, k: nat, from: int) {
    !Ended(s, k, from) && forall j: nat | j < k :: Ended(s, j, from)
  }

  /** The search never skips an open occurrence: the jump passes only weeks that have ended. */
  ghost predicate JumpIsSafe(s: Session, from: int) {
    forall j: nat | j < Jump(s, from) :: Ended(s, j, from)
  }

  lemma NextIffJumpSafe(s: Session, from: int)
    requires ValidZone(s.zone)
    ensures IsNext(s, Correct(s, Jump(s, from), from), from) <==> JumpIsSafe(s, from)
  {
  }

  /** For one query a single comparison decides: the jump is safe if and only if the week just before it has ended. */
  lemma JumpSafeIff(s: Session, from: int)
    requires ValidZone(s.zone) && s.zone.most - s.zone.least < WEEK
    ensures JumpIsSafe(s, from) <==> (Jump(s, from) == 0 || Ended(s, Jump(s, from) - 1, from))
  {
    var last := Jump(s, from) - 1;
    if last >= 0 && Ended(s, last, from) {
      forall j: nat | j < last ensures Ended(s, j, from) {
        StartsIncrease(s, j, last);
      }
    }
  }

  /** Time of day of the anchor, in whole seconds. */
  function TimeOfDay(s: Session): int {
    var tod := Wall(s.zone, s.startsAt) % DAY;
    tod - tod % SECOND
  }

  /** If time of day, duration and offset swing add up to less than a week, the next occurrence is the least one not ended. */
  lemma NextIsLeast(s: Session, from: int)
    requires ValidZone(s.zone)
    requires TimeOfDay(s) + Duration(s) + s.zone.most - s.zone.least < WEEK
    ensures IsNext(s, Correct(s, Jump(s, from), from), from)
  {
    forall j: nat | j < Jump(s, from) ensures Ended(s, j, from) {
      JumpedIsEnded(s, from, j);
    }
    NextIffJumpSafe(s, from);
  }

  lemma JumpedIsEnded(s: Session, from: int, j: nat)
    requires ValidZone(s.zone) && j < Jump(s, from)
    requires TimeOfDay(s) + Duration(s) + s.zone.most - s.zone.least < WEEK
    ensures Ended(s, j, from)
  {
    StartBounds(s, j);
    var days := Date(s.zone, from) - Date(s.zone, s.startsAt);
    assert 7 * (j + 1) <= days;
    assert Wall(s.zone, from) >= Date(s.zone, from) * DAY;
    assert Date(s.zone, from) * DAY >= (Date(s.zone, s.startsAt) + 7 * (j + 1)) * DAY;
    assert (Date(s.zone, s.startsAt) + 7 * (j + 1)) * DAY == Date(s.zone, s.startsAt) * DAY + j * WEEK + WEEK;
  }

  /** In a zone with a fixed offset the condition is exact: the search is right for every query time if and only if it holds. */
  lemma FixedZoneIff(s: Session)
    requires ValidZone(s.zone) && s.zone.least == s.zone.most
    ensures (forall from :: IsNext(s, Correct(s, Jump(s, from), from), from)) <==> TimeOfDay(s) + Duration(s) < WEEK
  {
    if TimeOfDay(s) + Duration(s) < WEEK {
      forall from ensures IsNext(s, Correct(s, Jump(s, from), from), from) {
        NextIsLeast(s, from);
      }
    } else {
      var date := Date(s.zone, s.startsAt);
      var from := (date + 7) * DAY - s.zone.most;
      StartBounds(s, 0);
      assert s.zone.at(from).offset == s.zone.most;
      assert Date(s.zone, from) == date + 7;
      assert Wall(s.zone, s.startsAt) < (date + 1) * DAY;
      assert Jump(s, from) == 1;
      assert (date + 7) * DAY == date * DAY + WEEK;
      assert !Ended(s, 0, from);
      NextIffJumpSafe(s, from);
    }
  }

  const UTC := Zone(t => Period(0, false), w => [Period(0, false)], w => w, 0, 0)

  /** A session of eight days is still open seven days after it began, but the search answers the week after. */
  lemma OpenSessionSkipped()
    ensures var s := Session(UTC, 0, 8 * DAY, true, true);
            ValidZone(UTC) && !Ended(s, 0, 7 * DAY) && Correct(s, Jump(s, 7 * DAY), 7 * DAY) == 1
  {
    var s, from := Session(UTC, 0, 8 * DAY, true, true), 7 * DAY;
    FixedStarts(s, 0);
    FixedStarts(s, 1);
    assert Jump(s, from) == 1;
  }

  lemma FixedStarts(s: Session, k: int)
    requires s.zone == UTC && s.startsAt == 0
    ensures ValidZone(UTC) && WeeklyStartAt(s, k) == k * WEEK
  {
    ChooseIn([Period(0, false)], Period(0, false));
  }

  /** An anchor one microsecond past the second is not its own first occurrence. */
  lemma FractionalAnchorMoves(endsAt: int)
    ensures var s := Session(UTC, 1, endsAt, true, true); WeeklyStartAt(s, 0) == 0 && s.startsAt == 1
  {
    ChooseIn([Period(0, false)], Period(0, false));
  }

  // ---------------------------------------------------------------- listing occurrences

  function OccurrenceFor(s: Session, start: int): Occurrence {
    Occurrence(start, start + Duration(s))
  }

  /** `n` consecutive weekly occurrences, from week `k` on. */
  function WeeklyList(s: Session, k: nat, n: nat): (l: seq<Occurrence>)
    ensures |l| == n
  {
    if n == 0 then [] else WeeklyList(s, k, n - 1) + [OccurrenceFor(s, WeeklyStartAt(s, k + n - 1))]
  }

  /** The occurrences a session lists: at most one for a single date, and as many as wanted for a weekly one. */
  ghost function Occurrences(s: Session, limit: nat, from: int): seq<Occurrence>
    requires ValidZone(s.zone)
  {
    if !s.active then []
    else if !s.weekly then (if s.endsAt < from || limit == 0 then [] else [OccurrenceFor(s, s.startsAt)])
    else WeeklyList(s, Correct(s, Jump(s, from), from), limit)
  }

  method UpcomingOccurrences(s: Session, limit: nat, from: int) returns (occurrences: seq<Occurrence>)
    requires ValidZone(s.zone)
    ensures occurrences == Occurrences(s, limit, from)
  {
    if !s.active { return []; }
    if !s.weekly {
      if s.endsAt < from || limit == 0 { return []; }
      return [OccurrenceFor(s, s.startsAt)];
    }
    var k, start := NextWeeklyStart(s, from);
    occurrences := ListWeekly(s, k, start, limit);
  }

  method ListWeekly(s: Session, k: nat, start: int, limit: nat) returns (occurrences: seq<Occurrence>)
    requires start == WeeklyStartAt(s, k)
    ensures occurrences == WeeklyList(s, k, limit)
  {
    occurrences := [];
    var current := start;
    for index := 0 to limit
      invariant occurrences == WeeklyList(s, k, index) && current == WeeklyStartAt(s, k + index)
    {
      occurrences := occurrences + [OccurrenceFor(s, current)];
      current := WeeklyStartAt(s, k + index + 1);
    }
  }

  lemma {:induction false} WeeklyListAt(s: Session, k: nat, n: nat, i: nat)
    requires i < n
    ensures WeeklyList(s, k, n)[i] == OccurrenceFor(s, WeeklyStartAt(s, k + i))
    ensures WeeklyList(s, k, n)[..i] == WeeklyList(s, k, i)
    decreases n
  {
    if i < n - 1 {
      WeeklyListAt(s, k, n - 1, i);
      assert WeeklyList(s, k, n)[..i] == WeeklyList(s, k, n - 1)[..i];
    }
  }

  lemma WeeklyListOrdered(s: Session, k: nat, n: nat, i: nat, j: nat)
    requires ValidZone(s.zone) && s.zone.most - s.zone.least < WEEK && i < j < n
    ensures WeeklyList(s, k, n)[i].start < WeeklyList(s, k, n)[j].start
  {
    var a, b := WeeklyStartAt(s, k + i), WeeklyStartAt(s, k + j);
    assert a < b by { StartsIncrease(s, k + i, k + j); }
    assert WeeklyList(s, k, n)[i].start == a by { WeeklyListAt(s, k, n, i); }
    assert WeeklyList(s, k, n)[j].start == b by { WeeklyListAt(s, k, n, j); }
  }

  /** The list runs through consecutive weeks from the next one, in strictly increasing order. */
  lemma OccurrencesIncrease(s: Session, limit: nat, from: int, i: nat, j: nat)
    requires ValidZone(s.zone) && s.zone.most - s.zone.least < WEEK
    requires i < j < |Occurrences(s, limit, from)|
    ensures Occurrences(s, limit, from)[i].start < Occurrences(s, limit, from)[j].start
    ensures s.weekly && Occurrences(s, limit, from)[i].start == WeeklyStartAt(s, Correct(s, Jump(s, from), from) + i)
  {
    WeeklyListOrdered(s, Correct(s, Jump(s, from), from), limit, i, j);
    WeeklyListAt(s, Correct(s, Jump(s, from), from), limit, i);
  }

  /** Every listed occurrence lasts as long as the session itself, and a single date is listed as it stands until it has ended. */
  lemma OccurrencesLast(s: Session, limit: nat, from: int, i: nat)
    requires ValidZone(s.zone) && i < |Occurrences(s, limit, from)|
    ensures var o := Occurrences(s, limit, from)[i];
            && s.active
            && o.end - o.start == (if s.startsAt <= s.endsAt then s.endsAt - s.startsAt else 0)
            && (!s.weekly ==> i == 0 && o.start == s.startsAt && s.endsAt >= from)
  {
    if s.weekly { WeeklyListAt(s, Correct(s, Jump(s, from), from), limit, i); }
  }

  /** A shorter list is a prefix of a longer one. */
  lemma OccurrencesPrefix(s: Session, limit: nat, more: nat, from: int)
    requires ValidZone(s.zone) && limit <= more
    ensures var o := Occurrences(s, more, from);
            Occurrences(s, limit, from) == if limit <= |o| then o[..limit] else o
  {
    var k := Correct(s, Jump(s, from), from);
    if s.active && s.weekly && limit < more {
      WeeklyListAt(s, k, more, limit);
    }
  }
}
