/** A printer for box forests, and the proof that the walk inverts it. */
module BoxFormat {
  import opened Bytes
  import opened Options
  import opened BoxWalk

  /** The three ways ISO/IEC 14496-12 lets a box state its size. */
  datatype SizeForm = Compact | Extended | ToEnd

  /** The boxes of a range: a first box and the boxes after it. */
  datatype Forest =
    | End
    | Leaf(kind: Kind, form: SizeForm, data: ByteString, rest: Forest)
    | Container(kind: Kind, form: SizeForm, children: Forest, rest: Forest)

  function HeaderSize(form: SizeForm): nat {
    if form.Extended? then 16 else 8
  }

  /** The size fits the field that states it. */
  predicate PrintableHeader(kind: Kind, form: SizeForm, payloadSize: nat) {
    && (form.Compact? ==> 8 + payloadSize < TWO_TO_THE_32)
    && (form.Extended? ==> 16 + payloadSize < TWO_TO_THE_64)
  }

  function PrintHeader(kind: Kind, form: SizeForm, payloadSize: nat): (s: ByteString)
    requires PrintableHeader(kind, form, payloadSize)
    ensures |s| == HeaderSize(form)
  {
    match form
    case Compact => Encode32(8 + payloadSize) + Encode32(kind)
    case Extended => Encode32(1) + Encode32(kind) + Encode64(16 + payloadSize)
    case ToEnd => Encode32(0) + Encode32(kind)
  }

  /** The number of bytes the boxes of a forest occupy. */
  function Size(f: Forest): nat
    decreases f, 1
  {
    if f.End? then 0 else HeaderSize(f.form) + PayloadSize(f) + Size(f.rest)
  }

  function PayloadSize(f: Forest): nat
    requires !f.End?
    decreases f, 0
  {
    if f.Leaf? then |f.data| else Size(f.children)
  }

  /** The sizes fit their fields and only the last box of a range runs to its end. */
  predicate Printable(f: Forest) {
    !f.End? ==>
      && PrintableHeader(f.kind, f.form, PayloadSize(f))
      && (f.form.ToEnd? ==> f.rest.End?)
      && (IsContainer(f.kind) <==> f.Container?)
      && (f.Container? ==> Printable(f.children))
      && Printable(f.rest)
  }

  function Print(f: Forest): (s: ByteString)
    requires Printable(f)
    ensures |s| == Size(f)
  {
    match f
    case End => []
    case Leaf(kind, form, data, rest) => PrintHeader(kind, form, |data|) + data + Print(rest)
    case Container(kind, form, children, rest) => PrintHeader(kind, form, Size(children)) + Print(children) + Print(rest)
  }

  /** The visit the first box of a forest printed at `at` should produce. */
  function FirstVisit(f: Forest, at: nat): (v: Visit)
    requires !f.End?
    ensures at + 8 <= v.payloadStart <= v.boxEnd
  {
    Visit(f.kind, at + HeaderSize(f.form), at + HeaderSize(f.form) + PayloadSize(f))
  }

  /** The visits a forest printed at `at` should produce, cut off below the depth limit. */
  function Listing(f: Forest, at: nat, depth: nat): seq<Visit> {
    if f.End? then [] else
      var v := FirstVisit(f, at);
      var inside := if f.Container? && depth < MAX_DEPTH then Listing(f.children, v.payloadStart, depth + 1) else [];
      [v] + inside + Listing(f.rest, v.boxEnd, depth)
  }

  lemma ReadShortHeader(bytes: ByteString, at: nat, end: nat, kind: Kind, size: nat)
    requires size != 1 && size < TWO_TO_THE_32
    requires at + 8 <= end <= |bytes| && Holds(bytes, at, Encode32(size) + Encode32(kind))
    requires size == 0 || 8 <= size <= end - at
    ensures BoxAt(bytes, at, end) == Some(Visit(kind, at + 8, if size == 0 then end else at + size))
  {
    HoldsConcat(bytes, at, Encode32(size) + Encode32(kind), Encode32(size), at + 4, Encode32(kind));
    ReadEncode32(bytes, at, size);
    ReadEncode32(bytes, at + 4, kind);
  }

  lemma ReadLongHeader(bytes: ByteString, at: nat, end: nat, kind: Kind, size: nat)
    requires 16 <= size <= end - at && size < TWO_TO_THE_64
    requires end <= |bytes| && Holds(bytes, at, Encode32(1) + Encode32(kind) + Encode64(size))
    ensures BoxAt(bytes, at, end) == Some(Visit(kind, at + 16, at + size))
  {
    HoldsConcat(bytes, at, Encode32(1) + Encode32(kind) + Encode64(size), Encode32(1) + Encode32(kind), at + 8, Encode64(size));
    HoldsConcat(bytes, at, Encode32(1) + Encode32(kind), Encode32(1), at + 4, Encode32(kind));
    ReadEncode32(bytes, at, 1);
    ReadEncode32(bytes, at + 4, kind);
    ReadEncode64(bytes, at + 8, size);
  }

  lemma ReadHeader(bytes: ByteString, at: nat, end: nat, kind: Kind, form: SizeForm, payloadSize: nat)
    requires PrintableHeader(kind, form, payloadSize)
    requires Holds(bytes, at, PrintHeader(kind, form, payloadSize))
    requires at + HeaderSize(form) + payloadSize <= end <= |bytes|
    requires form.ToEnd? ==> at + HeaderSize(form) + payloadSize == end
    ensures BoxAt(bytes, at, end) == Some(Visit(kind, at + HeaderSize(form), at + HeaderSize(form) + payloadSize))
  {
    match form
    case Compact => ReadShortHeader(bytes, at, end, kind, 8 + payloadSize);
    case Extended => ReadLongHeader(bytes, at, end, kind, 16 + payloadSize);
    case ToEnd => ReadShortHeader(bytes, at, end, kind, 0);
  }

  /** A reader finds every box of the forest where the sizes put it, starting at `at`. */
  ghost predicate LaidOut(read: Reader, at: nat, f: Forest)
    decreases f
  {
    !f.End? ==>
      var v := FirstVisit(f, at);
      && read(at, at + Size(f)) == Some(v)
      && (f.Container? ==> LaidOut(read, v.payloadStart, f.children))
      && LaidOut(read, v.boxEnd, f.rest)
  }

  lemma ReadFirst(bytes: ByteString, at: nat, end: nat, f: Forest, v: Visit)
    requires !f.End? && Printable(f) && end == at + Size(f) <= |bytes| && v == FirstVisit(f, at)
    requires Holds(bytes, at, PrintHeader(f.kind, f.form, PayloadSize(f)))
    ensures ReaderOf(bytes)(at, end) == Some(v)
  {
    ReadHeader(bytes, at, end, f.kind, f.form, PayloadSize(f));
  }

  /** The printed parts stand where the first visit says. */
  lemma HoldsParts(bytes: ByteString, at: nat, f: Forest, v: Visit, header: ByteString, payload: ByteString)
    requires !f.End? && Printable(f) && Holds(bytes, at, Print(f)) && v == FirstVisit(f, at)
    requires header == PrintHeader(f.kind, f.form, PayloadSize(f))
    requires payload == if f.Leaf? then f.data else Print(f.children)
    ensures Holds(bytes, at, header)
    ensures Holds(bytes, v.payloadStart, payload)
    ensures Holds(bytes, v.boxEnd, Print(f.rest))
  {
    PrintUnfold(f, header, payload);
    HoldsConcat(bytes, at, Print(f), header + payload, v.boxEnd, Print(f.rest));
    HoldsConcat(bytes, at, header + payload, header, v.payloadStart, payload);
  }

  lemma PrintUnfold(f: Forest, header: ByteString, payload: ByteString)
    requires !f.End? && Printable(f)
    requires header == PrintHeader(f.kind, f.form, PayloadSize(f))
    requires payload == if f.Leaf? then f.data else Print(f.children)
    ensures Print(f) == header + payload + Print(f.rest) && |payload| == PayloadSize(f)
  {
  }

  /** The first box of a printed forest can be read, and what it holds and what follows it are printed in their places. */
  lemma PartsReadable(bytes: ByteString, at: nat, f: Forest, v: Visit, end: nat, header: ByteString, payload: ByteString)
    requires !f.End? && Printable(f) && Holds(bytes, at, Print(f)) && v == FirstVisit(f, at) && end == at + Size(f)
    requires header == PrintHeader(f.kind, f.form, PayloadSize(f))
    requires payload == if f.Leaf? then f.data else Print(f.children)
    ensures ReaderOf(bytes)(at, end) == Some(v) && Holds(bytes, v.payloadStart, payload) && Holds(bytes, v.boxEnd, Print(f.rest))
  {
    assert end <= |bytes|;
    HoldsParts(bytes, at, f, v, header, payload);
    ReadFirst(bytes, at, end, f, v);
  }

  lemma {:induction false} PrintIsLaidOut(bytes: ByteString, at: nat, f: Forest)
    requires Printable(f) && Holds(bytes, at, Print(f))
    ensures LaidOut(ReaderOf(bytes), at, f)
    decreases f
  {
    if !f.End? {
      var v := FirstVisit(f, at);
      var payload := if f.Leaf? then f.data else Print(f.children);
      PartsReadable(bytes, at, f, v, at + Size(f), PrintHeader(f.kind, f.form, PayloadSize(f)), payload);
      PrintIsLaidOut(bytes, v.boxEnd, f.rest);
      if f.Container? {
        PrintIsLaidOut(bytes, v.payloadStart, f.children);
      }
    }
  }

  lemma {:induction false} WalkLaidOut(read: Reader, at: nat, end: nat, f: Forest, depth: nat)
    requires Printable(f) && LaidOut(read, at, f) && end == at + Size(f)
    ensures WalkBy(read, at, end, depth) == Listing(f, at, depth)
    decreases f
  {
    if f.End? {
      assert forall v :: !Fits(v, at, at);
    } else {
      var v := FirstVisit(f, at);
      WalkLaidOut(read, v.boxEnd, end, f.rest, depth);
      if f.Container? {
        WalkLaidOut(read, v.payloadStart, v.boxEnd, f.children, depth + 1);
      }
    }
  }

  /** Walking a printed forest yields exactly its pre-order listing, whatever surrounds it. */
  lemma WalkPrint(bytes: ByteString, at: nat, end: nat, f: Forest, depth: nat)
    requires Printable(f) && Holds(bytes, at, Print(f)) && end == at + |Print(f)|
    ensures Walk(bytes, at, end, depth) == Listing(f, at, depth)
  {
    PrintIsLaidOut(bytes, at, f);
    WalkLaidOut(ReaderOf(bytes), at, end, f, depth);
  }

  /** The round trip for a whole file. */
  lemma RoundTrip(f: Forest)
    requires Printable(f)
    ensures Walk(Print(f), 0, |Print(f)|, 0) == Listing(f, 0, 0)
  {
    WalkPrint(Print(f), 0, |Print(f)|, f, 0);
  }

  /** Levels of nesting: 0 for the empty forest, 1 for a flat one. */
  function Height(f: Forest): nat {
    match f
    case End => 0
    case Leaf(_, _, _, rest) => Max(1, Height(rest))
    case Container(_, _, children, rest) => Max(1 + Height(children), Height(rest))
  }

  function Max(a: nat, b: nat): nat {
    if a < b then b else a
  }

  /** The complete pre-order of a forest, at any nesting. */
  function Preorder(f: Forest, at: nat): seq<Visit> {
    if f.End? then [] else
      var v := FirstVisit(f, at);
      var inside := if f.Container? then Preorder(f.children, v.payloadStart) else [];
      [v] + inside + Preorder(f.rest, v.boxEnd)
  }

  lemma {:induction false} ListingIsPreorder(f: Forest, at: nat, depth: nat)
    requires Height(f) + depth <= MAX_DEPTH + 1
    ensures Listing(f, at, depth) == Preorder(f, at)
  {
    if !f.End? {
      var v := FirstVisit(f, at);
      ListingIsPreorder(f.rest, v.boxEnd, depth);
      if f.Container? && depth < MAX_DEPTH {
        ListingIsPreorder(f.children, v.payloadStart, depth + 1);
      }
    }
  }

  /** No box is lost when containers nest no deeper than the walker's limit. */
  lemma RoundTripComplete(f: Forest)
    requires Printable(f) && Height(f) <= MAX_DEPTH + 1
    ensures Walk(Print(f), 0, |Print(f)|, 0) == Preorder(f, 0)
  {
    RoundTrip(f);
    ListingIsPreorder(f, 0, 0);
  }
}
