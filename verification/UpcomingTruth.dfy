/** The upcoming list against what is really still to come: every occurrence that has not ended, found without searching. */
module UpcomingTruth {
  import opened OfficeHours
  import opened UpcomingMerge

  function Min(a: nat, b: nat): nat {
    if a <= b then a else b
  }

  // ---------------------------------------------------------------- a sorted list by how many entries are due by a time

  /** How many of the times are no later than `x`. */
  function CountTo(l: seq<int>, x: int): nat
    decreases |l|
  {
    if l == [] then 0 else (if l[0] <= x then 1 else 0) + CountTo(l[1..], x)
  }

  lemma {:induction false} CountAppend(a: seq<int>, b: seq<int>, x: int)
    ensures CountTo(a + b, x) == CountTo(a, x) + CountTo(b, x)
    decreases |a|
  {
    if a == [] {
      assert a + b == b;
    } else {
      assert (a + b)[1..] == a[1..] + b;
      CountAppend(a[1..], b, x);
    }
  }

  lemma {:induction false} CountInsert(y: int, l: seq<int>, x: int)
    ensures CountTo(Insert(y, l), x) == CountTo(l, x) + if y <= x then 1 else 0
    decreases |l|
  {
    if l == [] || y <= l[0] {
      assert ([y] + l)[1..] == l;
    } else {
      assert ([l[0]] + Insert(y, l[1..]))[1..] == Insert(y, l[1..]);
      CountInsert(y, l[1..], x);
    }
  }

  lemma {:induction false} CountSort(l: seq<int>, x: int)
    ensures CountTo(Sort(l), x) == CountTo(l, x)
    decreases |l|
  {
    if l != [] {
      CountSort(l[1..], x);
      CountInsert(l[0], Sort(l[1..]), x);
    }
  }

  lemma {:induction false} CountNone(l: seq<int>, x: int)
    requires forall y | y in l :: y > x
    ensures CountTo(l, x) == 0
    decreases |l|
  {
    if l != [] {
      assert l[0] in l && forall y | y in l[1..] :: y in l;
      CountNone(l[1..], x);
    }
  }

  lemma {:induction false} CountTake(l: seq<int>, k: nat, x: int)
    requires Ordered(l)
    ensures CountTo(Take(l, k), x) == Min(k, CountTo(l, x))
    decreases |l|
  {
    if l != [] && k > 0 {
      assert Take(l, k)[1..] == Take(l[1..], k - 1);
      CountTake(l[1..], k - 1, x);
      if l[0] > x { CountNone(l[1..], x); }
    }
  }

  /** Increasing lists with the same counts are the same list. */
  lemma {:induction false} CountsDetermine(a: seq<int>, b: seq<int>)
    requires Ordered(a) && Ordered(b) && forall x :: CountTo(a, x) == CountTo(b, x)
    ensures a == b
    decreases |a|
  {
    SameHeads(a, b);
    if a != [] && b != [] {
      forall x ensures CountTo(a[1..], x) == CountTo(b[1..], x) {
        assert CountTo(a, x) == CountTo(b, x);
      }
      CountsDetermine(a[1..], b[1..]);
    }
  }

  lemma SameHeads(a: seq<int>, b: seq<int>)
    requires Ordered(a) && Ordered(b) && forall x :: CountTo(a, x) == CountTo(b, x)
    ensures (a == [] <==> b == []) && (a != [] && b != [] ==> a[0] == b[0])
  {
    if a != [] {
      assert CountTo(b, a[0]) == CountTo(a, a[0]) > 0;
      if b != [] && b[0] > a[0] { CountNone(b, a[0]); }
    }
    if b != [] {
      assert CountTo(a, b[0]) == CountTo(b, b[0]) > 0;
      if a != [] && a[0] > b[0] { CountNone(a, b[0]); }
    }
  }

  // ---------------------------------------------------------------- the occurrences that have not ended

  /** No week from here on starts by `x`. */
  function WeekBound(s: Session, x: int): nat {
    var room := x + s.zone.most - AnchorWall(s);
    if room < 0 then 0 else room / WEEK + 1
  }

  lemma BoundSuffices(s: Session, k: nat, x: int)
    requires ValidZone(s.zone) && WeeklyStartAt(s, k) <= x
    ensures k < WeekBound(s, x)
  {
    StartBounds(s, k);
  }

  /** The weeks of a session that start by `x` and have not ended. */
  ghost function OpenWeeks(s: Session, from: int, x: int): set<nat> {
    set k: nat | k < WeekBound(s, x) && WeeklyStartAt(s, k) <= x && !Ended(s, k, from)
  }

  /** How many occurrences of a session start by `x` and have not ended. */
  ghost function OpenBy(s: Session, from: int, x: int): nat {
    if !s.active then 0
    else if s.weekly then |OpenWeeks(s, from, x)|
    else if s.endsAt >= from && s.startsAt <= x then 1 else 0
  }

  ghost function AllOpenBy(sessions: seq<Session>, from: int, x: int): nat
    decreases |sessions|
  {
    if sessions == [] then 0 else OpenBy(sessions[0], from, x) + AllOpenBy(sessions[1..], from, x)
  }

  // ---------------------------------------------------------------- what the list has of them

  /** Of the open weeks, those that the search reaches. */
  ghost function ListedWeeks(s: Session, from: int, x: int): set<nat>
    requires ValidZone(s.zone)
  {
    set k | k in OpenWeeks(s, from, x) && k >= Correct(s, Jump(s, from), from)
  }

  ghost function ListedBy(s: Session, from: int, x: int): nat
    requires ValidZone(s.zone)
  {
    if s.active && s.weekly then |ListedWeeks(s, from, x)| else OpenBy(s, from, x)
  }

  ghost function AllListedBy(sessions: seq<Session>, from: int, x: int): nat
    requires Listable(sessions)
    decreases |sessions|
  {
    if sessions == [] then 0 else ListedBy(sessions[0], from, x) + AllListedBy(sessions[1..], from, x)
  }

  lemma {:induction false} SmallerSet(a: set<nat>, b: set<nat>)
    requires a <= b
    ensures |a| <= |b| && (|a| == |b| ==> a == b)
    decreases |a|
  {
    if a == {} {
      if b != {} { assert |b| > 0; }
    } else {
      var k :| k in a;
      SmallerSet(a - {k}, b - {k});
      assert a == (a - {k}) + {k} && b == (b - {k}) + {k};
    }
  }

  /** The start of every week of a session. */
  function StartsOf(s: Session): nat -> int {
    (k: nat) => WeeklyStartAt(s, k)
  }

  function Row(at: nat -> int, k: nat, n: nat): (l: seq<int>)
    ensures |l| == n
  {
    if n == 0 then [] else Row(at, k, n - 1) + [at(k + n - 1)]
  }

  lemma {:induction false} WeeklyRow(s: Session, k: nat, n: nat)
    ensures Starts(WeeklyList(s, k, n)) == Row(StartsOf(s), k, n)
    decreases n
  {
    if n > 0 {
      WeeklyRow(s, k, n - 1);
      AppendStart(WeeklyList(s, k, n - 1), OccurrenceFor(s, WeeklyStartAt(s, k + n - 1)));
      assert StartsOf(s)(k + n - 1) == WeeklyStartAt(s, k + n - 1);
    }
  }

  lemma AppendStart(l: seq<Occurrence>, o: Occurrence)
    ensures Starts(l + [o]) == Starts(l) + [o.start]
  {
  }

  /** The weeks from `k` on, `n` of them, that start by `x`. */
  ghost function WeeksIn(at: nat -> int, k: nat, n: nat, x: int): set<nat> {
    set j: nat | k <= j < k + n && at(j) <= x
  }

  lemma {:induction false} CountRow(at: nat -> int, k: nat, n: nat, x: int)
    ensures CountTo(Row(at, k, n), x) == |WeeksIn(at, k, n, x)| <= n
    decreases n
  {
    if n == 0 {
      assert WeeksIn(at, k, n, x) == {};
    } else {
      var last, before := at(k + n - 1), WeeksIn(at, k, n - 1, x);
      CountRow(at, k, n - 1, x);
      CountAppend(Row(at, k, n - 1), [last], x);
      assert [last][1..] == [];
      assert WeeksIn(at, k, n, x) == if last <= x then before + {k + n - 1} else before;
    }
  }

  lemma {:induction false} FullWeeks(at: nat -> int, k: nat, n: nat, x: int)
    requires forall j: nat | k <= j < k + n :: at(j) <= x
    ensures |WeeksIn(at, k, n, x)| == n
    decreases n
  {
    if n == 0 {
      assert WeeksIn(at, k, n, x) == {};
    } else {
      FullWeeks(at, k, n - 1, x);
      assert WeeksIn(at, k, n, x) == WeeksIn(at, k, n - 1, x) + {k + n - 1};
    }
  }

  lemma ListedFrom(s: Session, from: int, n: nat, x: int)
    requires ValidZone(s.zone) && s.zone.most - s.zone.least < WEEK
    ensures WeeksIn(StartsOf(s), Correct(s, Jump(s, from), from), n, x) <= ListedWeeks(s, from, x)
  {
    var first := Correct(s, Jump(s, from), from);
    forall k | k in WeeksIn(StartsOf(s), first, n, x) ensures k in ListedWeeks(s, from, x) {
      BoundSuffices(s, k, x);
      if k > first { StartsIncrease(s, first, k); }
    }
  }

  lemma EarlierWeek(s: Session, from: int, n: nat, x: int, j: nat, k: nat)
    requires ValidZone(s.zone) && s.zone.most - s.zone.least < WEEK
    requires var first := Correct(s, Jump(s, from), from); first <= j < first + n && k in ListedWeeks(s, from, x)
    requires k !in WeeksIn(StartsOf(s), Correct(s, Jump(s, from), from), n, x)
    ensures StartsOf(s)(j) <= x
  {
    assert StartsOf(s)(k) == WeeklyStartAt(s, k) <= x && k > j;
    StartsIncrease(s, j, k);
  }

  lemma WeeksListed(s: Session, from: int, n: nat, x: int)
    requires ValidZone(s.zone) && s.zone.most - s.zone.least < WEEK
    ensures |WeeksIn(StartsOf(s), Correct(s, Jump(s, from), from), n, x)| == Min(n, |ListedWeeks(s, from, x)|)
  {
    var first := Correct(s, Jump(s, from), from);
    var seen, listed := WeeksIn(StartsOf(s), first, n, x), ListedWeeks(s, from, x);
    ListedFrom(s, from, n, x);
    CountRow(StartsOf(s), first, n, x);
    SmallerSet(seen, listed);
    if k :| k in listed && k !in seen {
      forall j: nat | first <= j < first + n ensures StartsOf(s)(j) <= x {
        EarlierWeek(s, from, n, x, j, k);
      }
      FullWeeks(StartsOf(s), first, n, x);
    } else {
      assert listed == seen;
    }
  }

  lemma SessionCounts(s: Session, limit: nat, from: int, x: int)
    requires ValidZone(s.zone) && s.zone.most - s.zone.least < WEEK
    ensures CountTo(Starts(Occurrences(s, limit, from)), x) == Min(limit, ListedBy(s, from, x))
  {
    if s.active && s.weekly {
      WeeklyRow(s, Correct(s, Jump(s, from), from), limit);
      CountRow(StartsOf(s), Correct(s, Jump(s, from), from), limit, x);
      WeeksListed(s, from, limit, x);
    } else if s.active && s.endsAt >= from && limit > 0 {
      assert Starts(Occurrences(s, limit, from)) == [s.startsAt];
      assert [s.startsAt][1..] == [];
    } else {
      assert Starts(Occurrences(s, limit, from)) == [];
    }
  }

  lemma {:induction false} AllCounts(sessions: seq<Session>, limit: nat, from: int, x: int)
    requires Listable(sessions)
    ensures Min(limit, CountTo(Flatten(Expand(sessions, limit, from)), x)) == Min(limit, AllListedBy(sessions, from, x))
    decreases |sessions|
  {
    if sessions != [] {
      var lists := Expand(sessions, limit, from);
      assert sessions[0] in sessions;
      SessionCounts(sessions[0], limit, from, x);
      assert lists[1..] == Expand(sessions[1..], limit, from);
      AllCounts(sessions[1..], limit, from, x);
      CountAppend(lists[0], Flatten(lists[1..]), x);
    }
  }

  /** By any time the list has as many entries as the search reaches, up to the limit, whatever the expansion. */
  lemma UpcomingCounts(sessions: seq<Session>, expansion: nat, limit: nat, from: int, x: int)
    requires Listable(sessions) && limit <= expansion
    ensures CountTo(UpcomingStarts(sessions, expansion, limit, from), x) == Min(limit, AllListedBy(sessions, from, x))
    ensures Ordered(UpcomingStarts(sessions, expansion, limit, from))
  {
    ExpandTake(sessions, limit, expansion, from);
    var all := Flatten(Expand(sessions, limit, from));
    SortOrders(all);
    CountSort(all, x);
    CountTake(Sort(all), limit, x);
    AllCounts(sessions, limit, from, x);
  }

  // ---------------------------------------------------------------- the list is the earliest of them

  /** `u` is the increasing list of the `limit` earliest occurrences that have not ended: by any time it has as many as there are. */
  ghost predicate Earliest(u: seq<int>, sessions: seq<Session>, limit: nat, from: int) {
    Ordered(u) && forall x :: CountTo(u, x) == Min(limit, AllOpenBy(sessions, from, x))
  }

  /** There is only one such list. */
  lemma EarliestUnique(u: seq<int>, v: seq<int>, sessions: seq<Session>, limit: nat, from: int)
    requires Earliest(u, sessions, limit, from) && Earliest(v, sessions, limit, from)
    ensures u == v
  {
    CountsDetermine(u, v);
  }

  ghost predicate JumpsSafe(sessions: seq<Session>, from: int) {
    forall s | s in sessions && s.active && s.weekly :: JumpIsSafe(s, from)
  }

  lemma ListedIsOpen(s: Session, from: int, x: int)
    requires ValidZone(s.zone)
    ensures ListedBy(s, from, x) <= OpenBy(s, from, x)
    ensures s.active && s.weekly && JumpIsSafe(s, from) ==> ListedBy(s, from, x) == OpenBy(s, from, x)
  {
    SmallerSet(ListedWeeks(s, from, x), OpenWeeks(s, from, x));
    if JumpIsSafe(s, from) {
      assert ListedWeeks(s, from, x) == OpenWeeks(s, from, x);
    }
  }

  lemma {:induction false} AllListed(sessions: seq<Session>, from: int, x: int)
    requires Listable(sessions)
    ensures AllListedBy(sessions, from, x) <= AllOpenBy(sessions, from, x)
    ensures JumpsSafe(sessions, from) ==> AllListedBy(sessions, from, x) == AllOpenBy(sessions, from, x)
    ensures forall s | s in sessions && ListedBy(s, from, x) < OpenBy(s, from, x) :: AllListedBy(sessions, from, x) < AllOpenBy(sessions, from, x)
    decreases |sessions|
  {
    if sessions != [] {
      assert sessions[0] in sessions && sessions == [sessions[0]] + sessions[1..];
      ListedIsOpen(sessions[0], from, x);
      AllListed(sessions[1..], from, x);
    }
  }

  lemma SkippedIsMissing(s: Session, from: int, j: nat)
    requires ValidZone(s.zone) && s.active && s.weekly && j < Jump(s, from) && !Ended(s, j, from)
    ensures ListedBy(s, from, WeeklyStartAt(s, j)) < OpenBy(s, from, WeeklyStartAt(s, j))
  {
    var x := WeeklyStartAt(s, j);
    BoundSuffices(s, j, x);
    assert j in OpenWeeks(s, from, x) && j !in ListedWeeks(s, from, x);
    SmallerSet(ListedWeeks(s, from, x), OpenWeeks(s, from, x));
  }

  lemma UnsafeIsMissing(s: Session, from: int) returns (x: int)
    requires ValidZone(s.zone) && s.active && s.weekly && !JumpIsSafe(s, from)
    ensures ListedBy(s, from, x) < OpenBy(s, from, x)
  {
    var j: nat :| j < Jump(s, from) && !Ended(s, j, from);
    SkippedIsMissing(s, from, j);
    x := WeeklyStartAt(s, j);
  }

  /**
   * For every limit the list is that of the earliest occurrences that have not ended, if and only if the jump of every
   * active weekly session passes over ended weeks only.
   */
  lemma UpcomingIsEarliest(sessions: seq<Session>, from: int)
    requires Listable(sessions)
    ensures (forall limit: nat :: Earliest(UpcomingStarts(sessions, limit, limit, from), sessions, limit, from)) <==> JumpsSafe(sessions, from)
  {
    if JumpsSafe(sessions, from) {
      forall limit: nat ensures Earliest(UpcomingStarts(sessions, limit, limit, from), sessions, limit, from) {
        SafeIsEarliest(sessions, limit, limit, from);
      }
    } else {
      var limit := UnsafeIsNotEarliest(sessions, from);
    }
  }

  /** The other direction: at the limit that counts a skipped occurrence, the list is short of it. */
  lemma UnsafeIsNotEarliest(sessions: seq<Session>, from: int) returns (limit: nat)
    requires Listable(sessions) && !JumpsSafe(sessions, from)
    ensures !Earliest(UpcomingStarts(sessions, limit, limit, from), sessions, limit, from)
  {
    var s :| s in sessions && s.active && s.weekly && !JumpIsSafe(s, from);
    var x := UnsafeIsMissing(s, from);
    AllListed(sessions, from, x);
    limit := AllOpenBy(sessions, from, x);
    ShortOfOne(sessions, limit, from, x);
  }

  lemma ShortOfOne(sessions: seq<Session>, limit: nat, from: int, x: int)
    requires Listable(sessions) && AllListedBy(sessions, from, x) < AllOpenBy(sessions, from, x) == limit
    ensures !Earliest(UpcomingStarts(sessions, limit, limit, from), sessions, limit, from)
  {
    UpcomingCounts(sessions, limit, limit, from, x);
  }

  /** One direction at every expansion. */
  lemma SafeIsEarliest(sessions: seq<Session>, expansion: nat, limit: nat, from: int)
    requires Listable(sessions) && limit <= expansion && JumpsSafe(sessions, from)
    ensures Earliest(UpcomingStarts(sessions, expansion, limit, from), sessions, limit, from)
  {
    UpcomingCounts(sessions, expansion, limit, from, 0);
    forall x ensures CountTo(UpcomingStarts(sessions, expansion, limit, from), x) == Min(limit, AllOpenBy(sessions, from, x)) {
      UpcomingCounts(sessions, expansion, limit, from, x);
      AllListed(sessions, from, x);
    }
  }

  /** Sessions whose time of day, duration and offset swing add up to less than a week are always listed in full. */
  lemma ShortSessionsListed(sessions: seq<Session>, expansion: nat, limit: nat, from: int)
    requires Listable(sessions) && limit <= expansion
    requires forall s | s in sessions && s.active && s.weekly :: TimeOfDay(s) + Duration(s) + s.zone.most - s.zone.least < WEEK
    ensures Earliest(UpcomingStarts(sessions, expansion, limit, from), sessions, limit, from)
  {
    forall s | s in sessions && s.active && s.weekly ensures JumpIsSafe(s, from) {
      NextIsLeast(s, from);
      NextIffJumpSafe(s, from);
    }
    SafeIsEarliest(sessions, expansion, limit, from);
  }

  /** A session of eight days, seven days after it began: the list shows next week only, though this week is still open. */
  lemma OpenSessionMissing()
    ensures var s := Session(UTC, 0, 8 * DAY, true, true);
            && Listable([s]) && OpenBy(s, 7 * DAY, 0) == 1
            && CountTo(UpcomingStarts([s], 1, 1, 7 * DAY), 0) == 0
  {
    var s, from := Session(UTC, 0, 8 * DAY, true, true), 7 * DAY;
    OpenSessionSkipped();
    FixedStarts(s, 0);
    UpcomingCounts([s], 1, 1, from, 0);
    assert [s][1..] == [];
    SkippedIsMissing(s, from, 0);
    assert OpenWeeks(s, from, 0) <= {0} by {
      forall k | k in OpenWeeks(s, from, 0) ensures k == 0 { FixedStarts(s, k); }
    }
    SmallerSet(OpenWeeks(s, from, 0), {0});
  }
}
