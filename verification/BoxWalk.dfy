/** The walk over the boxes of an M4A file (ISO/IEC 14496-12, section 4.2). */
module BoxWalk {
  import opened Bytes
  import opened Options

  /** A four-character box type, as the number its four bytes denote. */
  type Kind = k: nat | k < TWO_TO_THE_32

  /** What the walk yields for a box: its type, where its payload starts and where the box ends. */
  datatype Visit = Visit(kind: Kind, payloadStart: nat, boxEnd: nat)

  const MAX_DEPTH := 8

  const MOOV: Kind := 0x6d6f6f76
  const TRAK: Kind := 0x7472616b
  const MDIA: Kind := 0x6d646961
  const MINF: Kind := 0x6d696e66
  const STBL: Kind := 0x7374626c

  predicate IsContainer(kind: Kind) {
    kind == MOOV || kind == TRAK || kind == MDIA || kind == MINF || kind == STBL
  }

  /** The box whose header starts at `offset` of a range ending at `end`, if there is a well-formed one. */
  function BoxAt(bytes: ByteString, offset: nat, end: nat): (v: Option<Visit>)
    ensures v.Some? ==> offset + 8 <= v.value.payloadStart <= v.value.boxEnd <= end <= |bytes|
  {
    if offset + 8 > end || end > |bytes| then None else
      var size := Word32(bytes, offset);
      var kind := Word32(bytes, offset + 4);
      if size == 1 then
        if offset + 16 > end then None else
          var large := Word64(bytes, offset + 8);
          if large < 16 || offset + large > end then None
          else Some(Visit(kind, offset + 16, offset + large))
      else
        var total := if size == 0 then end - offset else size;
        if total < 8 || offset + total > end then None
        else Some(Visit(kind, offset + 8, offset + total))
  }

  /** A way to read the box that starts at an offset of a range ending at a given position. */
  type Reader = (nat, nat) -> Option<Visit>

  function ReaderOf(bytes: ByteString): Reader {
    (offset: nat, end: nat) => BoxAt(bytes, offset, end)
  }

  /** Every box of the range in pre-order, up to the first malformed header of each level. */
  function Walk(bytes: ByteString, offset: nat, end: nat, depth: nat): seq<Visit> {
    WalkBy(ReaderOf(bytes), offset, end, depth)
  }

  /** A box that a reader may report: a header of at least eight bytes, and nothing past the range. */
  predicate Fits(v: Visit, offset: nat, end: nat) {
    offset + 8 <= v.payloadStart <= v.boxEnd <= end
  }

  function WalkBy(read: Reader, offset: nat, end: nat, depth: nat): seq<Visit>
    decreases if offset <= end then end - offset else 0
  {
    var box := read(offset, end);
    if box.None? || !Fits(box.value, offset, end) then [] else
      var v := box.value;
      var inside := if Descends(v, depth) then WalkBy(read, v.payloadStart, v.boxEnd, depth + 1) else [];
      [v] + inside + WalkBy(read, v.boxEnd, end, depth)
  }

  predicate Descends(v: Visit, depth: nat) {
    depth < MAX_DEPTH && IsContainer(v.kind)
  }

  /** Reads the header at `offset`, as the body of the loop does. */
  method ReadBox(bytes: ByteString, offset: nat, endAt: nat) returns (box: Option<Visit>)
    requires offset + 8 <= endAt <= |bytes|
    ensures box == BoxAt(bytes, offset, endAt)
  {
    var size := Word32(bytes, offset);
    var kind := Word32(bytes, offset + 4);
    var headerSize := 8;
    if size == 1 {
      if offset + 16 > endAt { return None; }
      size := Word64(bytes, offset + 8);
      headerSize := 16;
    } else if size == 0 {
      size := endAt - offset;
    }
    if size < headerSize || offset + size > endAt { return None; }
    return Some(Visit(kind, offset + headerSize, offset + size));
  }

  /**
   * The loop that yields boxes to a block; the block ends the walk early by returning a value.
   * `visited` is the history of yields.
   */
  method EachBox<T>(bytes: ByteString, startAt: nat, endAt: nat, depth: nat, block: Visit -> Option<T>)
    returns (visited: seq<Visit>, result: Option<T>)
    requires startAt <= endAt <= |bytes|
    ensures result == FirstSome(Walk(bytes, startAt, endAt, depth), block)
    ensures IsYieldHistory(visited, Walk(bytes, startAt, endAt, depth), block)
    decreases endAt - startAt
  {
    ghost var read := ReaderOf(bytes);
    ghost var all := WalkBy(read, startAt, endAt, depth);
    visited, result := [], None;
    var offset := startAt;
    while offset + 8 <= endAt
      invariant startAt <= offset <= endAt
      invariant result.None? && Pending(all, visited, WalkBy(read, offset, endAt, depth), block)
      decreases endAt - offset
    {
      var box := ReadBox(bytes, offset, endAt);
      assert read(offset, endAt) == box;
      if box.None? { break; }
      var v := box.value;
      ghost var inside := if Descends(v, depth) then WalkBy(read, v.payloadStart, v.boxEnd, depth + 1) else [];
      ghost var rest := WalkBy(read, v.boxEnd, endAt, depth);
      ghost var before := visited;
      visited := visited + [v];
      result := block(v);
      YieldBox(all, before, v, inside, rest, block);
      if result.Some? { return; }
      if Descends(v, depth) {
        var inner;
        inner, result := EachBox(bytes, v.payloadStart, v.boxEnd, depth + 1, block);
        visited := visited + inner;
        YieldInside(all, before, v, inner, inside, rest, block);
        if result.Some? { return; }
      }
      offset := v.boxEnd;
    }
    assert read(offset, endAt).None?;
    assert all == visited;
  }

  /** The loop has yielded `visited`, without an answer, and `coming` is still to come. */
  ghost predicate Pending<T>(all: seq<Visit>, visited: seq<Visit>, coming: seq<Visit>, block: Visit -> Option<T>) {
    all == visited + coming && FirstSome(visited, block).None?
  }

  /** `visited` is what a loop over `all` yields before `block` first returns a value: all of it if it never does. */
  ghost predicate IsYieldHistory<T>(visited: seq<Visit>, all: seq<Visit>, block: Visit -> Option<T>) {
    && visited <= all
    && (FirstSome(all, block).None? ==> visited == all)
    && (FirstSome(all, block).Some? ==>
          visited != [] && FirstSome(visited[..|visited| - 1], block).None? && block(visited[|visited| - 1]) == FirstSome(all, block))
  }

  lemma YieldBox<T>(all: seq<Visit>, visited: seq<Visit>, v: Visit, inside: seq<Visit>, rest: seq<Visit>, block: Visit -> Option<T>)
    requires Pending(all, visited, [v] + inside + rest, block)
    ensures block(v).Some? ==> FirstSome(all, block) == block(v) && IsYieldHistory(visited + [v], all, block)
    ensures block(v).None? && inside == [] ==> Pending(all, visited + [v], rest, block)
  {
    assert all == visited + [v] + (inside + rest);
    FirstSomeConcat(visited, [v], block);
    FirstSomeConcat(visited + [v], inside + rest, block);
    assert (visited + [v])[..|visited|] == visited;
  }

  lemma YieldInside<T>(all: seq<Visit>, visited: seq<Visit>, v: Visit, inner: seq<Visit>, inside: seq<Visit>, rest: seq<Visit>,
                       block: Visit -> Option<T>)
    requires Pending(all, visited, [v] + inside + rest, block) && block(v).None?
    requires IsYieldHistory(inner, inside, block)
    ensures FirstSome(inside, block).None? ==> Pending(all, visited + [v] + inner, rest, block)
    ensures FirstSome(inside, block).Some? ==>
              FirstSome(all, block) == FirstSome(inside, block) && IsYieldHistory(visited + [v] + inner, all, block)
  {
    var head := visited + [v];
    FirstSomeConcat(visited, [v], block);
    assert all == head + inside + rest;
    FirstSomeConcat(head, inside, block);
    if FirstSome(inside, block).Some? {
      HistoryAfter(head, inner, inside, rest, block);
    }
  }

  lemma HistoryAfter<T>(head: seq<Visit>, inner: seq<Visit>, inside: seq<Visit>, rest: seq<Visit>, block: Visit -> Option<T>)
    requires FirstSome(head, block).None? && FirstSome(inside, block).Some?
    requires IsYieldHistory(inner, inside, block)
    ensures FirstSome(head + inside + rest, block) == FirstSome(inside, block)
    ensures IsYieldHistory(head + inner, head + inside + rest, block)
  {
    FirstSomeConcat(head, inside, block);
    FirstSomeConcat(head + inside, rest, block);
    var init := inner[..|inner| - 1];
    FirstSomeConcat(head, init, block);
    assert (head + inner)[..|head + inner| - 1] == head + init;
    assert head + inner <= head + inside;
  }

  predicate AllFit(s: seq<Visit>, offset: nat, end: nat) {
    forall v | v in s :: Fits(v, offset, end)
  }

  /** Every visited box lies inside the walked range. */
  lemma {:induction false} WalkInRange(read: Reader, offset: nat, end: nat, depth: nat)
    ensures AllFit(WalkBy(read, offset, end, depth), offset, end)
    decreases if offset <= end then end - offset else 0
  {
    var box := read(offset, end);
    if box.Some? && Fits(box.value, offset, end) {
      WalkInRange(read, box.value.boxEnd, end, depth);
      WalkInRange(read, box.value.payloadStart, box.value.boxEnd, depth + 1);
    }
  }

  /** `later` starts inside the payload of `earlier` and ends with it, or starts after it ends. */
  predicate NestedOrAfter(earlier: Visit, later: Visit) {
    || (earlier.payloadStart + 8 <= later.payloadStart && later.boxEnd <= earlier.boxEnd)
    || earlier.boxEnd + 8 <= later.payloadStart
  }

  predicate Laminar(s: seq<Visit>) {
    forall i, j | 0 <= i < j < |s| :: NestedOrAfter(s[i], s[j])
  }

  lemma LaminarLevel(v: Visit, inside: seq<Visit>, rest: seq<Visit>, end: nat)
    requires Laminar(inside) && AllFit(inside, v.payloadStart, v.boxEnd)
    requires Laminar(rest) && AllFit(rest, v.boxEnd, end)
    ensures Laminar([v] + inside + rest)
  {
    var w := [v] + inside + rest;
    forall i, j | 0 <= i < j < |w| ensures NestedOrAfter(w[i], w[j]) {
      assert w[j] in if j <= |inside| then inside else rest;
      assert i == 0 || w[i] == if i <= |inside| then inside[i - 1] else rest[i - 1 - |inside|];
      assert 0 < i <= |inside| ==> w[i] in inside;
    }
  }

  lemma {:induction false} WalkByLaminar(read: Reader, offset: nat, end: nat, depth: nat)
    ensures Laminar(WalkBy(read, offset, end, depth))
    decreases if offset <= end then end - offset else 0
  {
    var box := read(offset, end);
    if box.Some? && Fits(box.value, offset, end) {
      var v := box.value;
      WalkByLaminar(read, v.boxEnd, end, depth);
      WalkInRange(read, v.boxEnd, end, depth);
      WalkByLaminar(read, v.payloadStart, v.boxEnd, depth + 1);
      WalkInRange(read, v.payloadStart, v.boxEnd, depth + 1);
      var inside := if Descends(v, depth) then WalkBy(read, v.payloadStart, v.boxEnd, depth + 1) else [];
      LaminarLevel(v, inside, WalkBy(read, v.boxEnd, end, depth), end);
    }
  }

  /** On any bytes the visited spans lie in the range and are pairwise nested or disjoint, in pre-order. */
  lemma WalkLaminar(bytes: ByteString, offset: nat, end: nat, depth: nat)
    ensures AllFit(Walk(bytes, offset, end, depth), offset, end)
    ensures Laminar(Walk(bytes, offset, end, depth))
  {
    WalkInRange(ReaderOf(bytes), offset, end, depth);
    WalkByLaminar(ReaderOf(bytes), offset, end, depth);
  }

  lemma {:induction false} WalkByLinear(read: Reader, offset: nat, end: nat, depth: nat)
    requires offset <= end
    ensures 8 * |WalkBy(read, offset, end, depth)| <= end - offset
    decreases end - offset
  {
    var box := read(offset, end);
    if box.Some? && Fits(box.value, offset, end) {
      WalkByLinear(read, box.value.boxEnd, end, depth);
      WalkByLinear(read, box.value.payloadStart, box.value.boxEnd, depth + 1);
    }
  }

  /** The walk is linear: at least eight bytes of the range per visited box, whatever the nesting. */
  lemma WalkLinear(bytes: ByteString, offset: nat, end: nat, depth: nat)
    requires offset <= end
    ensures 8 * |Walk(bytes, offset, end, depth)| <= end - offset
  {
    WalkByLinear(ReaderOf(bytes), offset, end, depth);
  }

  lemma {:induction false} WalkByAgree(r: Reader, s: Reader, lo: nat, hi: nat, offset: nat, end: nat, depth: nat)
    requires forall i: nat, j: nat | lo <= i && j <= hi :: r(i, j) == s(i, j)
    requires lo <= offset && end <= hi
    ensures WalkBy(r, offset, end, depth) == WalkBy(s, offset, end, depth)
    decreases if offset <= end then end - offset else 0
  {
    var box := r(offset, end);
    if box.Some? && Fits(box.value, offset, end) {
      WalkByAgree(r, s, lo, hi, box.value.boxEnd, end, depth);
      WalkByAgree(r, s, lo, hi, box.value.payloadStart, box.value.boxEnd, depth + 1);
    }
  }

  lemma BoxAtAgree(a: ByteString, b: ByteString, offset: nat, end: nat)
    requires end <= |a| && end <= |b| && forall k | offset <= k < end :: a[k] == b[k]
    ensures BoxAt(a, offset, end) == BoxAt(b, offset, end)
  {
  }

  /** The walk of a range reads nothing outside it: bytes elsewhere cannot change its result. */
  lemma WalkReadsOnlyItsRange(a: ByteString, b: ByteString, lo: nat, hi: nat, depth: nat)
    requires hi <= |a| && hi <= |b| && forall k | lo <= k < hi :: a[k] == b[k]
    ensures Walk(a, lo, hi, depth) == Walk(b, lo, hi, depth)
  {
    forall i: nat, j: nat | lo <= i && j <= hi ensures ReaderOf(a)(i, j) == ReaderOf(b)(i, j) {
      BoxAtAgree(a, b, i, j);
    }
    WalkByAgree(ReaderOf(a), ReaderOf(b), lo, hi, lo, hi, depth);
  }

  // ---------------------------------------------------------------- which boxes are entered

  /** The four bytes at `at` are the characters of `name`. */
  predicate Spells(bytes: ByteString, at: nat, name: string)
    requires |name| == 4
  {
    at + 4 <= |bytes| && forall i | 0 <= i < 4 :: bytes[at + i] as int == name[i] as int
  }

  lemma WordSpells(bytes: ByteString, at: nat, name: string)
    requires |name| == 4 && at + 4 <= |bytes| && forall i | 0 <= i < 4 :: name[i] as int < 256
    ensures Spells(bytes, at, name) <==>
            Word32(bytes, at) == name[0] as int * 0x100_0000 + name[1] as int * 0x1_0000 + name[2] as int * 0x100 + name[3] as int
  {
    var a, b, c, d: nat := bytes[at], bytes[at + 1], bytes[at + 2], bytes[at + 3];
    if Spells(bytes, at, name) {
      assert bytes[at + 0] as int == name[0] as int && bytes[at + 1] as int == name[1] as int;
      assert bytes[at + 2] as int == name[2] as int && bytes[at + 3] as int == name[3] as int;
    }
    SameDigits(a, b, c, d, name[0] as int, name[1] as int, name[2] as int, name[3] as int);
  }

  lemma SameDigits(a: nat, b: nat, c: nat, d: nat, w: nat, x: nat, y: nat, z: nat)
    requires a < 256 && b < 256 && c < 256 && d < 256 && w < 256 && x < 256 && y < 256 && z < 256
    ensures a * 0x100_0000 + b * 0x1_0000 + c * 0x100 + d == w * 0x100_0000 + x * 0x1_0000 + y * 0x100 + z <==> a == w && b == x && c == y && d == z
  {
  }

  /** The type bytes of a container box. */
  predicate SpellsContainer(bytes: ByteString, at: nat) {
    || Spells(bytes, at, "moov") || Spells(bytes, at, "trak") || Spells(bytes, at, "mdia")
    || Spells(bytes, at, "minf") || Spells(bytes, at, "stbl")
  }

  lemma BoxKind(bytes: ByteString, offset: nat, end: nat)
    requires BoxAt(bytes, offset, end).Some?
    ensures offset + 8 <= |bytes| && BoxAt(bytes, offset, end).value.kind == Word32(bytes, offset + 4)
    ensures Fits(BoxAt(bytes, offset, end).value, offset, end)
  {
  }

  /** What lies inside a box is walked if and only if it is less than eight levels down and its type is moov, trak, mdia, minf or stbl. */
  lemma EnteredIff(bytes: ByteString, offset: nat, end: nat, depth: nat)
    requires BoxAt(bytes, offset, end).Some?
    ensures var v := BoxAt(bytes, offset, end).value;
            Walk(bytes, offset, end, depth) ==
            [v] + (if depth < 8 && SpellsContainer(bytes, offset + 4) then Walk(bytes, v.payloadStart, v.boxEnd, depth + 1) else [])
                + Walk(bytes, v.boxEnd, end, depth)
  {
    BoxKind(bytes, offset, end);
    WordSpells(bytes, offset + 4, "moov");
    WordSpells(bytes, offset + 4, "trak");
    WordSpells(bytes, offset + 4, "mdia");
    WordSpells(bytes, offset + 4, "minf");
    WordSpells(bytes, offset + 4, "stbl");
  }

  /** Where there is no well-formed box the walk of a level ends. */
  lemma MalformedEnds(bytes: ByteString, offset: nat, end: nat, depth: nat)
    requires BoxAt(bytes, offset, end).None?
    ensures Walk(bytes, offset, end, depth) == []
  {
  }
}
