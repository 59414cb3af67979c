/** The key that identifies a direct conversation by its members. */
module MemberKey {

  type UserId = nat

  function ToSet(ids: seq<UserId>): set<UserId> {
    set id | id in ids
  }

  /** Drops repeated ids; the result is sorted afterwards, so which copy stays does not matter. */
  function Uniq(ids: seq<UserId>): seq<UserId> {
    if ids == [] then [] else if ids[0] in ids[1..] then Uniq(ids[1..]) else [ids[0]] + Uniq(ids[1..])
  }

  function Insert(id: UserId, sorted: seq<UserId>): seq<UserId> {
    if sorted == [] || id <= sorted[0] then [id] + sorted else [sorted[0]] + Insert(id, sorted[1..])
  }

  function Sort(ids: seq<UserId>): seq<UserId> {
    if ids == [] then [] else Insert(ids[0], Sort(ids[1..]))
  }

  function Decimal(n: nat): string {
    if n < 10 then [Digit(n)] else Decimal(n / 10) + [Digit(n % 10)]
  }

  function Digit(d: nat): (c: char)
    requires d < 10
    ensures c != ':' && DigitValue(c) == d
  {
    '0' + d as char
  }

  function DigitValue(c: char): nat {
    if '0' <= c then c as int - '0' as int else 0
  }

  function Join(ids: seq<UserId>): string {
    if ids == [] then ""
    else if |ids| == 1 then Decimal(ids[0])
    else Decimal(ids[0]) + ":" + Join(ids[1..])
  }

  /** The key of a list of users: distinct ids in increasing order, joined by colons. */
  function MemberKeyFor(ids: seq<UserId>): string {
    Join(Sort(Uniq(ids)))
  }

  // ---------------------------------------------------------------- reading a key back

  /** Reads decimals separated by colons, with `acc` already read of the first. */
  function ParseFrom(s: string, acc: nat): seq<UserId> {
    if s == [] then [acc]
    else if s[0] == ':' then [acc] + ParseFrom(s[1..], 0)
    else ParseFrom(s[1..], 10 * acc + DigitValue(s[0]))
  }

  function Parse(s: string): seq<UserId> {
    if s == [] then [] else ParseFrom(s, 0)
  }

  lemma {:induction false} ParseDecimal(n: nat, rest: string)
    ensures ParseFrom(Decimal(n) + rest, 0) == ParseFrom(rest, n)
  {
    if n < 10 {
      assert ([Digit(n)] + rest)[1..] == rest;
    } else {
      var tail := [Digit(n % 10)] + rest;
      assert Decimal(n) + rest == Decimal(n / 10) + tail;
      ParseDecimal(n / 10, tail);
      assert tail[1..] == rest;
    }
  }

  lemma DecimalNonEmpty(n: nat)
    ensures Decimal(n) != []
  {
  }

  /** Joining and parsing are inverse. */
  lemma {:induction false} ParseJoin(ids: seq<UserId>)
    ensures Parse(Join(ids)) == ids
  {
    if ids != [] {
      DecimalNonEmpty(ids[0]);
      if |ids| == 1 {
        assert Decimal(ids[0]) + [] == Decimal(ids[0]);
        ParseDecimal(ids[0], []);
      } else {
        var rest := ids[1..];
        ParseJoin(rest);
        JoinNonEmpty(rest);
        assert Join(ids) == Decimal(ids[0]) + (":" + Join(rest));
        ParseDecimal(ids[0], ":" + Join(rest));
        assert (":" + Join(rest))[1..] == Join(rest);
      }
    }
  }

  lemma JoinNonEmpty(ids: seq<UserId>)
    requires ids != []
    ensures Join(ids) != []
  {
  }

  // ---------------------------------------------------------------- sorted listings are unique

  predicate Increasing(ids: seq<UserId>) {
    forall i, j | 0 <= i < j < |ids| :: ids[i] < ids[j]
  }

  lemma IncreasingCons(id: UserId, ids: seq<UserId>)
    requires Increasing(ids) && forall x | x in ids :: id < x
    ensures Increasing([id] + ids)
  {
    var all := [id] + ids;
    forall i, j | 0 <= i < j < |all| ensures all[i] < all[j] {
      assert all[j] == ids[j - 1] && all[j] in ids;
      assert i > 0 ==> all[i] == ids[i - 1];
    }
  }

  lemma {:induction false} InsertIncreasing(id: UserId, sorted: seq<UserId>)
    requires Increasing(sorted) && id !in sorted
    ensures Increasing(Insert(id, sorted)) && ToSet(Insert(id, sorted)) == ToSet(sorted) + {id}
  {
    if sorted == [] || id <= sorted[0] {
      assert ToSet([id] + sorted) == {id} + ToSet(sorted);
    } else {
      InsertIncreasing(id, sorted[1..]);
      var rest := Insert(id, sorted[1..]);
      assert sorted == [sorted[0]] + sorted[1..];
      forall x | x in rest ensures sorted[0] < x {
        assert x in ToSet(rest);
      }
      IncreasingCons(sorted[0], rest);
      assert ToSet([sorted[0]] + rest) == {sorted[0]} + ToSet(rest);
    }
  }

  lemma {:induction false} SortUniq(ids: seq<UserId>)
    ensures Increasing(Sort(Uniq(ids))) && ToSet(Sort(Uniq(ids))) == ToSet(ids)
    ensures ToSet(Uniq(ids)) == ToSet(ids)
  {
    if ids != [] {
      var rest := ids[1..];
      SortUniq(rest);
      assert ToSet(ids) == {ids[0]} + ToSet(rest);
      if ids[0] !in rest {
        assert ids[0] !in ToSet(rest);
        var u := [ids[0]] + Uniq(rest);
        assert u[1..] == Uniq(rest) && ToSet(u) == {ids[0]} + ToSet(Uniq(rest));
        InsertIncreasing(ids[0], Sort(Uniq(rest)));
      }
    }
  }

  lemma NonEmptySet(ids: seq<UserId>)
    ensures ids == [] <==> ToSet(ids) == {}
  {
    if ids != [] {
      assert ids[0] in ToSet(ids);
    }
  }

  lemma {:induction false} IncreasingUnique(a: seq<UserId>, b: seq<UserId>)
    requires Increasing(a) && Increasing(b) && ToSet(a) == ToSet(b)
    ensures a == b
  {
    NonEmptySet(a);
    NonEmptySet(b);
    if a != [] {
      assert a[0] in ToSet(b);
      assert b[0] in ToSet(a);
      assert a[0] == b[0];
      forall x ensures x in ToSet(a[1..]) <==> x in ToSet(b[1..]) {
        assert x in ToSet(a) <==> x == a[0] || x in a[1..];
        assert x in ToSet(b) <==> x == b[0] || x in b[1..];
      }
      IncreasingUnique(a[1..], b[1..]);
    }
  }

  /** The key is canonical and injective: two lists share a key exactly when they hold the same ids. */
  lemma KeyIdentifiesMembers(a: seq<UserId>, b: seq<UserId>)
    ensures MemberKeyFor(a) == MemberKeyFor(b) <==> ToSet(a) == ToSet(b)
  {
    SortUniq(a);
    SortUniq(b);
    ParseJoin(Sort(Uniq(a)));
    ParseJoin(Sort(Uniq(b)));
    if ToSet(a) == ToSet(b) {
      IncreasingUnique(Sort(Uniq(a)), Sort(Uniq(b)));
    }
  }

  /** The ids that a key names. */
  function KeyIds(key: string): set<UserId> {
    ToSet(Parse(key))
  }

  /** A key names exactly the ids it was made from, and only the empty list has the blank key. */
  lemma KeyNames(ids: seq<UserId>)
    ensures KeyIds(MemberKeyFor(ids)) == ToSet(ids)
    ensures MemberKeyFor(ids) == "" <==> ids == []
  {
    SortUniq(ids);
    ParseJoin(Sort(Uniq(ids)));
    if ids != [] {
      assert ids[0] in ToSet(ids);
      JoinNonEmpty(Sort(Uniq(ids)));
    }
  }
}
