/** The upcoming list over several sessions: the earliest occurrences of all of them. */
module UpcomingMerge {
  import opened OfficeHours

  // ---------------------------------------------------------------- sorted start times

  function Insert(x: int, sorted: seq<int>): (r: seq<int>)
    ensures |r| == |sorted| + 1
  {
    if sorted == [] || x <= sorted[0] then [x] + sorted else [sorted[0]] + Insert(x, sorted[1..])
  }

  function Sort(s: seq<int>): (r: seq<int>)
    ensures |r| == |s|
  {
    if s == [] then [] else Insert(s[0], Sort(s[1..]))
  }

  function Take(s: seq<int>, k: nat): seq<int> {
    if k <= |s| then s[..k] else s
  }

  predicate Ordered(s: seq<int>) {
    forall i, j | 0 <= i < j < |s| :: s[i] <= s[j]
  }

  lemma {:induction false} InsertAdds(x: int, s: seq<int>)
    ensures multiset(Insert(x, s)) == multiset(s) + multiset{x}
  {
    if s != [] && x > s[0] {
      InsertAdds(x, s[1..]);
      assert s == [s[0]] + s[1..];
    }
  }

  lemma {:induction false} InsertOrdered(x: int, s: seq<int>)
    requires Ordered(s)
    ensures Ordered(Insert(x, s))
  {
    if s == [] {
    } else if x <= s[0] {
      OrderedCons(x, s);
    } else {
      InsertOrdered(x, s[1..]);
      InsertAdds(x, s[1..]);
      var rest := Insert(x, s[1..]);
      forall y | y in rest ensures s[0] <= y {
        assert y in multiset(rest);
        assert y == x || y in s[1..];
      }
      OrderedCons(s[0], rest);
    }
  }

  lemma OrderedCons(x: int, s: seq<int>)
    requires Ordered(s) && forall y | y in s :: x <= y
    ensures Ordered([x] + s)
  {
    var all := [x] + s;
    forall i, j | 0 <= i < j < |all| ensures all[i] <= all[j] {
      assert all[j] == s[j - 1] && all[j] in s;
      assert i > 0 ==> all[i] == s[i - 1];
    }
  }

  /** The sort yields the increasing arrangement of the same numbers. */
  lemma {:induction false} SortOrders(s: seq<int>)
    ensures Ordered(Sort(s)) && multiset(Sort(s)) == multiset(s)
  {
    if s != [] {
      SortOrders(s[1..]);
      InsertOrdered(s[0], Sort(s[1..]));
      InsertAdds(s[0], Sort(s[1..]));
      assert s == [s[0]] + s[1..];
    }
  }

  lemma {:induction false} OrderedUnique(a: seq<int>, b: seq<int>)
    requires Ordered(a) && Ordered(b) && multiset(a) == multiset(b)
    ensures a == b
  {
    assert |a| == |multiset(a)| == |multiset(b)| == |b|;
    if a != [] {
      assert a[0] in multiset(b) && b[0] in multiset(a);
      assert a[0] == b[0];
      assert a == [a[0]] + a[1..] && b == [b[0]] + b[1..];
      assert multiset(a[1..]) == multiset(a) - multiset{a[0]};
      assert multiset(b[1..]) == multiset(b) - multiset{b[0]};
      OrderedUnique(a[1..], b[1..]);
    }
  }

  /** The order of the input does not matter. */
  lemma SortCanonical(a: seq<int>, b: seq<int>)
    requires multiset(a) == multiset(b)
    ensures Sort(a) == Sort(b)
  {
    SortOrders(a);
    SortOrders(b);
    OrderedUnique(Sort(a), Sort(b));
  }

  // ---------------------------------------------------------------- dropping what cannot be among the first k

  /** Inserting a number after the first `k` leaves them alone. */
  lemma {:induction false} InsertBeyond(x: int, s: seq<int>, k: nat)
    requires Ordered(s) && k <= |s| && (k > 0 ==> s[k - 1] <= x)
    ensures Insert(x, s)[..k] == s[..k]
  {
    if k > 0 {
      if x <= s[0] {
        assert forall i | 0 <= i < k :: s[i] == x;
      } else {
        InsertBeyond(x, s[1..], k - 1);
        assert s[..k] == [s[0]] + s[1..][..k - 1];
        assert Insert(x, s)[..k] == [s[0]] + Insert(x, s[1..])[..k - 1];
      }
    }
  }

  lemma {:induction false} SizeBound(a: multiset<int>, b: multiset<int>)
    requires a <= b
    ensures |a| <= |b|
  {
    assert b == a + (b - a);
  }

  /** If `k` of the numbers are at most `x`, then the first `k` of the sorted ones are. */
  lemma RankBound(s: seq<int>, small: seq<int>, x: int)
    requires Ordered(s) && multiset(small) <= multiset(s) && small != []
    requires forall y | y in small :: y <= x
    ensures |small| <= |s| && s[|small| - 1] <= x
  {
    SizeBound(multiset(small), multiset(s));
    var k := |small| - 1;
    if s[k] > x {
      var low := s[..k];
      assert s == low + s[k..];
      forall y | y in multiset(small) ensures multiset(small)[y] <= multiset(low)[y] {
        assert y in small;
        assert y !in s[k..];
        assert multiset(s)[y] == multiset(low)[y] + multiset(s[k..])[y];
      }
      SizeBound(multiset(small), multiset(low));
    }
  }

  /** One more number, not below `k` that are already there, does not change the first `k`. */
  lemma DropOne(rest: seq<int>, small: seq<int>, x: int)
    requires multiset(small) <= multiset(rest) && forall y | y in small :: y <= x
    ensures Take(Sort([x] + rest), |small|) == Take(Sort(rest), |small|)
  {
    SortOrders(rest);
    assert ([x] + rest)[1..] == rest;
    SizeBound(multiset(small), multiset(rest));
    if small != [] {
      RankBound(Sort(rest), small, x);
    }
    InsertBeyond(x, Sort(rest), |small|);
  }

  lemma DropLast(rest: seq<int>, init: seq<int>, x: int, k: nat)
    requires Ordered(init + [x]) && k <= |init|
    ensures Take(Sort(rest + (init + [x])), k) == Take(Sort(rest + init), k)
  {
    var small, all := init[..k], init + [x];
    assert init == small + init[k..];
    forall y | y in small ensures y <= x {
      var i :| 0 <= i < k && small[i] == y;
      assert all[i] <= all[|init|];
    }
    DropOne(rest + init, small, x);
    assert multiset([x] + (rest + init)) == multiset(rest + all);
    SortCanonical([x] + (rest + init), rest + all);
  }

  /** Of an increasing list, only the first `k` can be among the first `k` of a larger collection. */
  lemma {:induction false} DropTail(rest: seq<int>, a: seq<int>, k: nat)
    requires Ordered(a)
    ensures Take(Sort(rest + a), k) == Take(Sort(rest + Take(a, k)), k)
    decreases |a|
  {
    if |a| > k {
      var init, x := a[..|a| - 1], a[|a| - 1];
      assert a == init + [x];
      assert Take(init, k) == Take(a, k);
      DropTail(rest, init, k);
      DropLast(rest, init, x, k);
    } else {
      assert Take(a, k) == a;
    }
  }

  // ---------------------------------------------------------------- the list over all sessions

  function Flatten(lists: seq<seq<int>>): seq<int> {
    if lists == [] then [] else lists[0] + Flatten(lists[1..])
  }

  function TakeEach(lists: seq<seq<int>>, k: nat): seq<seq<int>> {
    seq(|lists|, i requires 0 <= i < |lists| => Take(lists[i], k))
  }

  lemma {:induction false} TakeEachSame(rest: seq<int>, lists: seq<seq<int>>, k: nat)
    requires forall l | l in lists :: Ordered(l)
    ensures Take(Sort(rest + Flatten(lists)), k) == Take(Sort(rest + Flatten(TakeEach(lists, k))), k)
    decreases |lists|
  {
    if lists != [] {
      var a, more := lists[0], lists[1..];
      assert TakeEach(lists, k)[1..] == TakeEach(more, k);
      assert Ordered(a);
      TakeFirst(rest, a, Flatten(more), k);
      TakeEachSame(rest + Take(a, k), more, k);
      assert rest + Take(a, k) + Flatten(more) == rest + (Take(a, k) + Flatten(more));
      assert rest + Take(a, k) + Flatten(TakeEach(more, k)) == rest + Flatten(TakeEach(lists, k));
    }
  }

  lemma TakeFirst(rest: seq<int>, a: seq<int>, b: seq<int>, k: nat)
    requires Ordered(a)
    ensures Take(Sort(rest + (a + b)), k) == Take(Sort(rest + (Take(a, k) + b)), k)
  {
    Swap(rest, a, b);
    DropTail(rest + b, a, k);
    Swap(rest, Take(a, k), b);
  }

  lemma Swap(r: seq<int>, a: seq<int>, b: seq<int>)
    ensures Sort(r + (a + b)) == Sort(r + b + a)
  {
    assert multiset(r + (a + b)) == multiset(r + b + a);
    SortCanonical(r + (a + b), r + b + a);
  }

  /** The start times of a list of occurrences. */
  function Starts(o: seq<Occurrence>): seq<int> {
    seq(|o|, i requires 0 <= i < |o| => o[i].start)
  }

  ghost predicate Listable(sessions: seq<Session>) {
    forall s | s in sessions :: ValidZone(s.zone) && s.zone.most - s.zone.least < WEEK
  }

  /** The start times of every session, expanded to `n` occurrences each. */
  ghost function Expand(sessions: seq<Session>, n: nat, from: int): seq<seq<int>>
    requires Listable(sessions)
  {
    seq(|sessions|, i requires 0 <= i < |sessions| => Starts(Occurrences(sessions[i], n, from)))
  }

  /**
   * The start times of the upcoming list: expand each session to `expansion` occurrences, keep the first `limit` of
   * each, sort the union and keep `limit`. Ties between sessions may be listed in any order.
   */
  ghost function UpcomingStarts(sessions: seq<Session>, expansion: nat, limit: nat, from: int): seq<int>
    requires Listable(sessions)
  {
    Take(Sort(Flatten(TakeEach(Expand(sessions, expansion, from), limit))), limit)
  }

  lemma ExpandOrdered(sessions: seq<Session>, n: nat, from: int)
    requires Listable(sessions)
    ensures forall l | l in Expand(sessions, n, from) :: Ordered(l)
  {
    forall i | 0 <= i < |sessions| ensures Ordered(Expand(sessions, n, from)[i]) {
      var o := Occurrences(sessions[i], n, from);
      assert sessions[i] in sessions;
      forall a, b | 0 <= a < b < |o| ensures o[a].start <= o[b].start {
        OccurrencesIncrease(sessions[i], n, from, a, b);
      }
    }
  }

  lemma ExpandTake(sessions: seq<Session>, limit: nat, n: nat, from: int)
    requires Listable(sessions) && limit <= n
    ensures TakeEach(Expand(sessions, n, from), limit) == Expand(sessions, limit, from)
  {
    forall i | 0 <= i < |sessions|
      ensures TakeEach(Expand(sessions, n, from), limit)[i] == Expand(sessions, limit, from)[i]
    {
      assert sessions[i] in sessions;
      OccurrencesPrefix(sessions[i], limit, n, from);
    }
  }

  /** However many occurrences of each session are written out, the list is the same; expanding further changes nothing. */
  lemma ExpansionIrrelevant(sessions: seq<Session>, expansion: nat, limit: nat, n: nat, from: int)
    requires Listable(sessions) && limit <= expansion && limit <= n
    ensures UpcomingStarts(sessions, expansion, limit, from) == Take(Sort(Flatten(Expand(sessions, n, from))), limit)
    ensures UpcomingStarts(sessions, expansion, limit, from) == UpcomingStarts(sessions, limit, limit, from)
  {
    ExpandTake(sessions, limit, expansion, from);
    ExpandTake(sessions, limit, limit, from);
    ExpandTake(sessions, limit, n, from);
    var all := Expand(sessions, n, from);
    ExpandOrdered(sessions, n, from);
    TakeAllSame(all, limit);
  }

  lemma TakeAllSame(lists: seq<seq<int>>, k: nat)
    requires forall l | l in lists :: Ordered(l)
    ensures Take(Sort(Flatten(lists)), k) == Take(Sort(Flatten(TakeEach(lists, k))), k)
  {
    TakeEachSame([], lists, k);
    assert [] + Flatten(lists) == Flatten(lists);
    assert [] + Flatten(TakeEach(lists, k)) == Flatten(TakeEach(lists, k));
  }
}
