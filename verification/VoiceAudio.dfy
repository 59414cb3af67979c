/** Duration extraction and the acceptance of a voice recording (movie header box: ISO/IEC 14496-12, section 8.2.2). */
module VoiceAudio {
  import opened Bytes
  import opened Options
  import opened BoxWalk
  import opened BoxFormat

  const MVHD: Kind := 0x6d766864
  const FTYP: Kind := 0x66747970
  const MAX_BYTES := 6 * 1024 * 1024
  const MAX_DURATION_SECONDS := 300.0

  /** The time fields of a movie header: `ticks` counts units of 1/`timescale` seconds. */
  datatype MovieTime = MovieTime(timescale: nat, ticks: nat)

  /** What the duration block answers for one visited box. Every visited box ends inside `bytes`. */
  function MovieHeader(bytes: ByteString, v: Visit): (t: Option<MovieTime>)
    ensures t.Some? ==> v.kind == MVHD && v.payloadStart + 20 <= v.boxEnd <= |bytes| && t.value.timescale > 0
  {
    if v.kind != MVHD || v.boxEnd > |bytes| || v.payloadStart >= |bytes| then None else
      var start := v.payloadStart;
      if bytes[start] == 0 && start + 20 <= v.boxEnd then
        Timed(Word32(bytes, start + 12), Word32(bytes, start + 16))
      else if bytes[start] == 1 && start + 32 <= v.boxEnd then
        Timed(Word32(bytes, start + 20), Word64(bytes, start + 24))
      else None
  }

  function Timed(timescale: nat, ticks: nat): Option<MovieTime> {
    if timescale > 0 then Some(MovieTime(timescale, ticks)) else None
  }

  function HeaderBlock(bytes: ByteString): Visit -> Option<MovieTime> {
    (v: Visit) => MovieHeader(bytes, v)
  }

  function Seconds(t: MovieTime): real
    requires t.timescale > 0
  {
    t.ticks as real / t.timescale as real
  }

  /** The duration comes from the first box of the pre-order that answers, and there is none exactly when no box does. */
  method MovieDuration(bytes: ByteString) returns (seconds: Option<real>)
    ensures var boxes := Walk(bytes, 0, |bytes|, 0);
            match seconds
            case None => forall v | v in boxes :: MovieHeader(bytes, v).None?
            case Some(s) => exists i | 0 <= i < |boxes| ::
              && (forall j | 0 <= j < i :: MovieHeader(bytes, boxes[j]).None?)
              && MovieHeader(bytes, boxes[i]).Some?
              && s == MovieHeader(bytes, boxes[i]).value.ticks as real / MovieHeader(bytes, boxes[i]).value.timescale as real
    ensures seconds == DurationOf(bytes)
  {
    var visited, time := EachBox(bytes, 0, |bytes|, 0, HeaderBlock(bytes));
    ghost var k := FirstSomeIndex(Walk(bytes, 0, |bytes|, 0), HeaderBlock(bytes));
    match time {
      case None => return None;
      case Some(t) => return Some(Seconds(t));
    }
  }

  function DurationOf(bytes: ByteString): Option<real> {
    match FirstSome(Walk(bytes, 0, |bytes|, 0), HeaderBlock(bytes))
    case None => None
    case Some(t) => if t.timescale > 0 then Some(Seconds(t)) else None
  }

  /** The same search on a forest, without bytes or positions. */
  function FirstTime(f: Forest, depth: nat): Option<MovieTime> {
    match f
    case End => None
    case Leaf(kind, _, data, rest) =>
      var here := MovieHeader(data, Visit(kind, 0, |data|));
      if here.Some? then here else FirstTime(rest, depth)
    case Container(_, _, children, rest) =>
      var inside := if depth < MAX_DEPTH then FirstTime(children, depth + 1) else None;
      if inside.Some? then inside else FirstTime(rest, depth)
  }

  /** The block sees only the payload of the box it is given. */
  lemma MovieHeaderIsLocal(bytes: ByteString, at: nat, data: ByteString, kind: Kind)
    requires Holds(bytes, at, data)
    ensures MovieHeader(bytes, Visit(kind, at, at + |data|)) == MovieHeader(data, Visit(kind, 0, |data|))
  {
  }

  lemma FirstSomeLevel<T>(v: Visit, inside: seq<Visit>, rest: seq<Visit>, block: Visit -> Option<T>)
    ensures FirstSome([v] + inside + rest, block) ==
              if block(v).Some? then block(v) else if FirstSome(inside, block).Some? then FirstSome(inside, block) else FirstSome(rest, block)
  {
    FirstSomeConcat([v] + inside, rest, block);
    FirstSomeConcat([v], inside, block);
  }

  /** What the block answers for the first box of a printed forest. */
  lemma PrintedHeader(bytes: ByteString, at: nat, f: Forest, v: Visit)
    requires !f.End? && Printable(f) && v == FirstVisit(f, at)
    requires f.Leaf? ==> Holds(bytes, v.payloadStart, f.data)
    ensures HeaderBlock(bytes)(v) == if f.Leaf? then MovieHeader(f.data, Visit(f.kind, 0, |f.data|)) else None
  {
  }

  /** The first answer of a forest, from those of its first box, of what that holds and of what follows. */
  lemma TimeOfLevel(f: Forest, at: nat, depth: nat, v: Visit, block: Visit -> Option<MovieTime>)
    requires !f.End? && v == FirstVisit(f, at)
    requires block(v) == if f.Leaf? then MovieHeader(f.data, Visit(f.kind, 0, |f.data|)) else None
    requires f.Container? ==> FirstSome(Listing(f.children, v.payloadStart, depth + 1), block) == FirstTime(f.children, depth + 1)
    requires FirstSome(Listing(f.rest, v.boxEnd, depth), block) == FirstTime(f.rest, depth)
    ensures FirstSome(Listing(f, at, depth), block) == FirstTime(f, depth)
  {
    var inside := if f.Container? && depth < MAX_DEPTH then Listing(f.children, v.payloadStart, depth + 1) else [];
    FirstSomeLevel(v, inside, Listing(f.rest, v.boxEnd, depth), block);
  }

  lemma {:induction false} PrintedTime(bytes: ByteString, at: nat, f: Forest, depth: nat)
    requires Printable(f) && Holds(bytes, at, Print(f))
    ensures FirstSome(Listing(f, at, depth), HeaderBlock(bytes)) == FirstTime(f, depth)
    decreases f
  {
    if !f.End? {
      var v := FirstVisit(f, at);
      var payload := if f.Leaf? then f.data else Print(f.children);
      HoldsParts(bytes, at, f, v, PrintHeader(f.kind, f.form, PayloadSize(f)), payload);
      PrintedTime(bytes, v.boxEnd, f.rest, depth);
      if f.Container? {
        PrintedTime(bytes, v.payloadStart, f.children, depth + 1);
      }
      assert HeaderBlock(bytes)(v) == if f.Leaf? then MovieHeader(f.data, Visit(f.kind, 0, |f.data|)) else None by {
        PrintedHeader(bytes, at, f, v);
      }
      TimeOfLevel(f, at, depth, v, HeaderBlock(bytes));
    }
  }

  /** End to end: the duration read from a printed file is the one its box tree holds. */
  lemma PrintedDuration(f: Forest)
    requires Printable(f)
    ensures match FirstTime(f, 0)
            case None => DurationOf(Print(f)) == None
            case Some(t) => t.timescale > 0 && DurationOf(Print(f)) == Some(Seconds(t))
  {
    RoundTrip(f);
    PrintedTime(Print(f), 0, f, 0);
    var k := FirstSomeIndex(Walk(Print(f), 0, |Print(f)|, 0), HeaderBlock(Print(f)));
  }

  /** A movie header payload: version, flags and dates, the time fields, then the rest. */
  function PrintTime(t: MovieTime, long: bool, dates: ByteString, tail: ByteString): ByteString
    requires t.timescale < TWO_TO_THE_32 && t.ticks < if long then TWO_TO_THE_64 else TWO_TO_THE_32
  {
    if long then [1] + dates + Encode32(t.timescale) + Encode64(t.ticks) + tail
    else [0] + dates + Encode32(t.timescale) + Encode32(t.ticks) + tail
  }

  /** Both header versions are read back, unless the time scale is zero. */
  lemma ReadPrintedTime(t: MovieTime, long: bool, dates: ByteString, tail: ByteString, kind: Kind)
    requires t.timescale < TWO_TO_THE_32 && t.ticks < if long then TWO_TO_THE_64 else TWO_TO_THE_32
    requires |dates| == if long then 19 else 11
    ensures var data := PrintTime(t, long, dates, tail);
            MovieHeader(data, Visit(kind, 0, |data|)) == if kind == MVHD && t.timescale > 0 then Some(t) else None
  {
    var data := PrintTime(t, long, dates, tail);
    var scale := Encode32(t.timescale);
    if long {
      var ticks := Encode64(t.ticks);
      assert data == [1] + dates + (scale + ticks + tail);
      assert Holds(data, 20, scale) && Holds(data, 24, ticks);
      ReadEncode32(data, 20, t.timescale);
      ReadEncode64(data, 24, t.ticks);
    } else {
      var ticks := Encode32(t.ticks);
      assert data == [0] + dates + (scale + ticks + tail);
      assert Holds(data, 12, scale) && Holds(data, 16, ticks);
      ReadEncode32(data, 12, t.timescale);
      ReadEncode32(data, 16, t.ticks);
    }
  }

  /**
   * An ordinary recording: a file type box, then a movie box whose first child is a movie header, in any of the size
   * forms and with any boxes after them. Its duration is the number of ticks over the time scale.
   */
  lemma OrdinaryRecording(brand: ByteString, t: MovieTime, long: bool, dates: ByteString, tail: ByteString, siblings: Forest, rest: Forest,
                          header: SizeForm, movie: SizeForm)
    requires 0 < t.timescale < TWO_TO_THE_32 && t.ticks < if long then TWO_TO_THE_64 else TWO_TO_THE_32
    requires |dates| == if long then 19 else 11
    requires Printable(siblings) && Printable(rest) && PrintableHeader(0x66747970, Compact, |brand|)
    requires PrintableHeader(0x6d766864, header, |PrintTime(t, long, dates, tail)|) && (header.ToEnd? ==> siblings.End?)
    requires PrintableHeader(0x6d6f6f76, movie, Size(Leaf(0x6d766864, header, PrintTime(t, long, dates, tail), siblings))) && (movie.ToEnd? ==> rest.End?)
    ensures var mvhd := Leaf(0x6d766864, header, PrintTime(t, long, dates, tail), siblings);
            var f := Leaf(0x66747970, Compact, brand, Container(0x6d6f6f76, movie, mvhd, rest));
            Printable(f) && DurationOf(Print(f)) == Some(t.ticks as real / t.timescale as real)
  {
    var mvhd := Leaf(0x6d766864, header, PrintTime(t, long, dates, tail), siblings);
    var moov := Container(0x6d6f6f76, movie, mvhd, rest);
    var f := Leaf(0x66747970, Compact, brand, moov);
    assert Printable(mvhd) && Printable(moov) && Printable(f);
    ReadPrintedTime(t, long, dates, tail, 0x6d766864);
    assert FirstTime(mvhd, 1) == Some(t) && FirstTime(moov, 0) == Some(t);
    PrintedDuration(f);
  }

  /** An upload, with its content type already in lower case. */
  datatype Upload = Upload(contentType: string, hasM4aExtension: bool, bytes: ByteString)

  datatype Reason = NotM4aType | EmptyFile | TooLarge | NotM4aFile | UnknownDuration | TooLong

  datatype Verdict = Accepted(seconds: real) | Rejected(reason: Reason)

  predicate AllowedType(u: Upload) {
    || u.contentType in {"audio/mp4", "audio/m4a", "audio/x-m4a"}
    || (u.contentType == "application/octet-stream" && u.hasM4aExtension)
  }

  predicate LooksLikeM4a(bytes: ByteString) {
    |bytes| >= 12 && Word32(bytes, 4) == FTYP
  }

  /** Rounding to one decimal, halves up. */
  function RoundToTenth(d: real): real {
    (d * 10.0 + 0.5).Floor as real / 10.0
  }

  /** The requirement that each rejection reports as broken. */
  ghost predicate Breaks(u: Upload, reason: Reason) {
    match reason
    case NotM4aType =>
      && u.contentType != "audio/mp4" && u.contentType != "audio/m4a" && u.contentType != "audio/x-m4a"
      && !(u.contentType == "application/octet-stream" && u.hasM4aExtension)
    case EmptyFile => u.bytes == []
    case TooLarge => |u.bytes| > 6_291_456
    case NotM4aFile => |u.bytes| < 12 || !Spells(u.bytes, 4, "ftyp")
    case UnknownDuration => DurationOf(u.bytes).None? || DurationOf(u.bytes).value <= 0.0
    case TooLong => DurationOf(u.bytes).Some? && DurationOf(u.bytes).value > 300.5
  }

  /** A recording is accepted exactly when no requirement is broken, and reported to within a twentieth of a second. */
  method Inspect(u: Upload) returns (verdict: Verdict)
    ensures verdict.Rejected? ==> Breaks(u, verdict.reason)
    ensures verdict.Accepted? ==> forall reason :: !Breaks(u, reason)
    ensures verdict.Accepted? ==>
              && DurationOf(u.bytes).Some?
              && DurationOf(u.bytes).value - 0.05 < verdict.seconds <= DurationOf(u.bytes).value + 0.05
              && (verdict.seconds == 0.0 <==> DurationOf(u.bytes).value < 0.05)
  {
    if |u.bytes| >= 8 { WordSpells(u.bytes, 4, "ftyp"); }
    if !AllowedType(u) { return Rejected(NotM4aType); }
    if |u.bytes| == 0 { return Rejected(EmptyFile); }
    if |u.bytes| > MAX_BYTES { return Rejected(TooLarge); }
    if !LooksLikeM4a(u.bytes) { return Rejected(NotM4aFile); }
    var duration := MovieDuration(u.bytes);
    if duration.None? || duration.value <= 0.0 { return Rejected(UnknownDuration); }
    if duration.value > MAX_DURATION_SECONDS + 0.5 { return Rejected(TooLong); }
    return Accepted(RoundToTenth(duration.value));
  }
}
