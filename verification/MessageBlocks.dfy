/** The block parser of message bodies: fenced code, lists, quotes, paragraphs and spacers. */
module MessageBlocks {
  import opened MessageLines

  datatype Block =
    | Paragraph(text: string)
    | BulletList(items: seq<string>)
    | OrderedList(items: seq<string>)
    | Blockquote(text: string)
    | Code(code: string, language: string)
    | Spacer

  // ---------------------------------------------------------------- the specification: runs of lines

  predicate SameKind(a: Line, b: Line) {
    a.Blank? == b.Blank? && a.Bullet? == b.Bullet? && a.Ordered? == b.Ordered? && a.Quote? == b.Quote? && a.Plain? == b.Plain?
  }

  /** The length of the maximal run that starts the list. */
  function RunLength(lines: seq<Line>): (n: nat)
    requires lines != []
    ensures 1 <= n <= |lines|
  {
    if |lines| > 1 && SameKind(lines[0], lines[1]) then 1 + RunLength(lines[1..]) else 1
  }

  function Texts(run: seq<Line>): seq<string> {
    seq(|run|, i requires 0 <= i < |run| => if run[i].Blank? then "" else run[i].text)
  }

  function Unless(value: string, block: Block): seq<Block> {
    if value == "" then [] else [block]
  }

  /** The block of one run; a quote or paragraph with nothing in it yields none. */
  function Emit(run: seq<Line>): seq<Block> {
    if run == [] then [] else
      match run[0]
      case Blank => [Spacer]
      case Bullet(_) => [BulletList(Texts(run))]
      case Ordered(_) => [OrderedList(Texts(run))]
      case Quote(_) => var value := Trim(JoinLines(Texts(run))); Unless(value, Blockquote(value))
      case Plain(_) => var value := Trim(JoinLines(Texts(run))); Unless(value, Paragraph(value))
  }

  /** One block per maximal run, in order. */
  function Raw(lines: seq<Line>): seq<Block>
    decreases |lines|
  {
    if lines == [] then [] else
      var n := RunLength(lines);
      Emit(lines[..n]) + Raw(lines[n..])
  }

  /** Appends a block, except a spacer that would come first or follow a spacer. */
  function Push(blocks: seq<Block>, b: Block): seq<Block> {
    if b.Spacer? && (blocks == [] || blocks[|blocks| - 1].Spacer?) then blocks else blocks + [b]
  }

  function PushAll(blocks: seq<Block>, more: seq<Block>): seq<Block>
    decreases |more|
  {
    if more == [] then blocks else PushAll(Push(blocks, more[0]), more[1..])
  }

  function Classified(lines: seq<string>): seq<Line> {
    seq(|lines|, i requires 0 <= i < |lines| => Classify(lines[i]))
  }

  /** The blocks of a stretch of text. */
  function TextBlocks(text: string): seq<Block> {
    Raw(Classified(SplitLines(StripNewlines(text))))
  }

  // ---------------------------------------------------------------- facts about runs

  /** The lines of a run are all of one kind. */
  predicate Uniform(run: seq<Line>) {
    forall i | 0 <= i < |run| :: SameKind(run[0], run[i])
  }

  /** The run is of one kind and ends only where the kind changes. */
  lemma {:induction false} RunIsMaximal(lines: seq<Line>)
    requires lines != []
    ensures var n := RunLength(lines); Uniform(lines[..n]) && (n < |lines| ==> !SameKind(lines[0], lines[n]))
    decreases |lines|
  {
    if |lines| > 1 && SameKind(lines[0], lines[1]) {
      RunIsMaximal(lines[1..]);
      var n := RunLength(lines);
      forall i | 0 <= i < n ensures SameKind(lines[0], lines[i]) {
        assert i > 0 ==> lines[i] == lines[1..][..n - 1][i - 1];
      }
    }
  }

  lemma {:induction false} RunLengthOf(run: seq<Line>, rest: seq<Line>)
    requires run != [] && Uniform(run)
    requires rest == [] || !SameKind(run[0], rest[0])
    ensures RunLength(run + rest) == |run|
    decreases |run|
  {
    var lines := run + rest;
    if |run| > 1 {
      assert lines[1..] == run[1..] + rest;
      assert SameKind(run[0], run[1]);
      RunLengthOf(run[1..], rest);
    } else if rest != [] {
      assert lines[1] == rest[0];
    }
  }

  /** A finished run is emitted before whatever follows it. */
  lemma RawAfterRun(run: seq<Line>, rest: seq<Line>)
    requires Uniform(run)
    requires run == [] || rest == [] || !SameKind(run[0], rest[0])
    ensures Raw(run + rest) == Emit(run) + Raw(rest)
  {
    if run == [] {
      assert run + rest == rest;
    } else {
      RunLengthOf(run, rest);
      assert (run + rest)[..|run|] == run && (run + rest)[|run|..] == rest;
    }
  }

  /** A blank line is a spacer, and further blank lines add nothing. */
  lemma PushBlank(blocks: seq<Block>, rest: seq<Line>)
    ensures PushAll(blocks, Raw([Blank] + rest)) == PushAll(Push(blocks, Spacer), Raw(rest))
  {
    if rest != [] && rest[0].Blank? {
      var n := RunLength(rest);
      assert ([Blank] + rest)[1..] == rest;
      assert RunLength([Blank] + rest) == n + 1;
      assert ([Blank] + rest)[n + 1..] == rest[n..];
      assert ([Blank] + rest)[..n + 1][0] == Blank;
      PushAllConcat(blocks, [Spacer], Raw(rest[n..]));
      PushAllConcat(Push(blocks, Spacer), [Spacer], Raw(rest[n..]));
    } else {
      RawAfterRun([Blank], rest);
      PushAllConcat(blocks, [Spacer], Raw(rest));
    }
  }

  lemma {:induction false} PushAllConcat(blocks: seq<Block>, a: seq<Block>, b: seq<Block>)
    ensures PushAll(blocks, a + b) == PushAll(PushAll(blocks, a), b)
    decreases |a|
  {
    if a == [] {
      assert a + b == b;
    } else {
      assert (a + b)[1..] == a[1..] + b;
      PushAllConcat(Push(blocks, a[0]), a[1..], b);
    }
  }

  // ---------------------------------------------------------------- the three-buffer loop

  /** The list under construction. */
  datatype ListKind = NoList | BulletKind | OrderedKind

  /** The variables of the loop: the blocks so far and the paragraph, list and quote buffers. */
  datatype Machine = Machine(blocks: seq<Block>, paragraph: seq<string>, kind: ListKind, items: seq<string>, quote: seq<string>)

  function FlushParagraph(m: Machine): Machine {
    var value := Trim(JoinLines(m.paragraph));
    m.(paragraph := [], blocks := m.blocks + Unless(value, Paragraph(value)))
  }

  function FlushList(m: Machine): Machine {
    var list := if m.kind.NoList? || m.items == [] then []
                else if m.kind.BulletKind? then [BulletList(m.items)] else [OrderedList(m.items)];
    m.(kind := NoList, items := [], blocks := m.blocks + list)
  }

  function FlushQuote(m: Machine): Machine {
    var value := Trim(JoinLines(m.quote));
    m.(quote := [], blocks := m.blocks + Unless(value, Blockquote(value)))
  }

  function FlushAll(m: Machine): Machine {
    FlushQuote(FlushList(FlushParagraph(m)))
  }

  /** The body of the loop: each kind of line flushes the buffers of the other kinds and joins its own. */
  function Accept(m: Machine, line: Line): Machine {
    match line
    case Blank => var f := FlushAll(m); f.(blocks := Push(f.blocks, Spacer))
    case Bullet(item) =>
      var f := FlushQuote(FlushParagraph(m));
      var g := if f.kind.OrderedKind? then FlushList(f) else f;
      g.(kind := BulletKind, items := g.items + [item])
    case Ordered(item) =>
      var f := FlushQuote(FlushParagraph(m));
      var g := if f.kind.BulletKind? then FlushList(f) else f;
      g.(kind := OrderedKind, items := g.items + [item])
    case Quote(text) => var f := FlushList(FlushParagraph(m)); f.(quote := f.quote + [text])
    case Plain(text) => var f := FlushQuote(FlushList(m)); f.(paragraph := f.paragraph + [text])
  }

  /** The buffers hold exactly the run `pending`, so at most one of them is in use. */
  ghost predicate Buffered(m: Machine, pending: seq<Line>) {
    && Uniform(pending)
    && (pending != [] ==> !pending[0].Blank?)
    && m.paragraph == (if pending != [] && pending[0].Plain? then Texts(pending) else [])
    && m.quote == (if pending != [] && pending[0].Quote? then Texts(pending) else [])
    && m.items == (if pending != [] && (pending[0].Bullet? || pending[0].Ordered?) then Texts(pending) else [])
    && m.kind == (if pending != [] && pending[0].Bullet? then BulletKind else if pending != [] && pending[0].Ordered? then OrderedKind else NoList)
  }

  lemma PushAllOne(blocks: seq<Block>, more: seq<Block>)
    requires |more| <= 1 && forall b | b in more :: !b.Spacer?
    ensures PushAll(blocks, more) == blocks + more
  {
  }

  /** Flushing the buffers emits the pending run. */
  lemma FlushEmits(m: Machine, pending: seq<Line>)
    requires Buffered(m, pending)
    ensures FlushAll(m).blocks == PushAll(m.blocks, Emit(pending)) && Buffered(FlushAll(m), [])
  {
  }

  lemma EmptyBuffer()
    ensures Trim(JoinLines([])) == ""
  {
  }

  /** A line of another kind emits the pending run and starts its own. */
  lemma AcceptStarts(m: Machine, pending: seq<Line>, line: Line)
    requires Buffered(m, pending) && (pending == [] || !SameKind(pending[0], line)) && !line.Blank?
    ensures Accept(m, line).blocks == PushAll(m.blocks, Emit(pending)) && Buffered(Accept(m, line), [line])
  {
    EmptyBuffer();
    FlushEmits(m, pending);
    if pending != [] { assert |Texts(pending)| > 0; }
    assert Texts([line]) == [line.text];
  }

  /** A line of the same kind joins the pending run. */
  lemma AcceptJoins(m: Machine, pending: seq<Line>, line: Line)
    requires Buffered(m, pending) && pending != [] && SameKind(pending[0], line)
    ensures Accept(m, line).blocks == m.blocks && Buffered(Accept(m, line), pending + [line])
  {
  }

  /** The blocks so far, the pending run and the coming lines amount to `goal`. */
  ghost predicate Owes(blocks: seq<Block>, pending: seq<Line>, coming: seq<Line>, goal: seq<Block>) {
    PushAll(blocks, Raw(pending + coming)) == goal
  }

  lemma OwesJoin(blocks: seq<Block>, pending: seq<Line>, line: Line, rest: seq<Line>, coming: seq<Line>, goal: seq<Block>)
    requires coming == [line] + rest && Owes(blocks, pending, coming, goal)
    ensures Owes(blocks, pending + [line], rest, goal)
  {
    assert pending + coming == pending + [line] + rest;
  }

  lemma OwesEmit(blocks: seq<Block>, pending: seq<Line>, coming: seq<Line>, goal: seq<Block>)
    requires Uniform(pending) && (pending == [] || coming == [] || !SameKind(pending[0], coming[0]))
    requires Owes(blocks, pending, coming, goal)
    ensures Owes(PushAll(blocks, Emit(pending)), [], coming, goal)
  {
    RawAfterRun(pending, coming);
    PushAllConcat(blocks, Emit(pending), Raw(coming));
    assert [] + coming == coming;
  }

  lemma OwesBlank(blocks: seq<Block>, rest: seq<Line>, coming: seq<Line>, goal: seq<Block>)
    requires coming == [Blank] + rest && Owes(blocks, [], coming, goal)
    ensures Owes(Push(blocks, Spacer), [], rest, goal)
  {
    assert [] + coming == coming && [] + rest == rest;
    PushBlank(blocks, rest);
  }

  /** Empty buffers. */
  const START := Machine([], [], NoList, [], [])

  /** The state after one line, and the run that is pending then. */
  lemma AcceptKeeps(m: Machine, pending: seq<Line>, line: Line, rest: seq<Line>, coming: seq<Line>, goal: seq<Block>, m': Machine)
    returns (next: seq<Line>)
    requires m' == Accept(m, line) && coming == [line] + rest
    requires Buffered(m, pending) && Owes(m.blocks, pending, coming, goal)
    ensures Buffered(m', next) && Owes(m'.blocks, next, rest, goal)
  {
    if pending != [] && SameKind(pending[0], line) {
      next := pending + [line];
      AcceptJoins(m, pending, line);
      OwesJoin(m.blocks, pending, line, rest, coming, goal);
    } else {
      OwesEmit(m.blocks, pending, coming, goal);
      if line.Blank? {
        next := [];
        FlushEmits(m, pending);
        OwesBlank(PushAll(m.blocks, Emit(pending)), rest, coming, goal);
      } else {
        next := [line];
        AcceptStarts(m, pending, line);
        OwesJoin(PushAll(m.blocks, Emit(pending)), [], line, rest, coming, goal);
        assert [] + [line] == [line];
      }
    }
  }

  lemma OwesStart(before: seq<Block>, lines: seq<Line>, coming: seq<Line>)
    requires coming == lines
    ensures Owes(before, [], coming, PushAll(before, Raw(lines))) && Buffered(START.(blocks := before), [])
  {
    assert [] + coming == lines;
  }

  lemma OwesNothing(m: Machine, pending: seq<Line>, coming: seq<Line>, goal: seq<Block>)
    requires coming == [] && Buffered(m, pending) && Owes(m.blocks, pending, coming, goal)
    ensures FlushAll(m).blocks == goal
  {
    OwesEmit(m.blocks, pending, coming, goal);
    FlushEmits(m, pending);
  }

  /** The loop over the lines. */
  method AcceptFrom(start: Machine, lines: seq<Line>, ghost goal: seq<Block>) returns (m: Machine)
    requires Buffered(start, []) && Owes(start.blocks, [], lines, goal)
    ensures m.blocks == goal
  {
    ghost var pending: seq<Line> := [];
    m := start;
    var coming := lines;
    while coming != []
      invariant Buffered(m, pending) && Owes(m.blocks, pending, coming, goal)
      decreases |coming|
    {
      var line, rest := coming[0], coming[1..];
      m, pending := AcceptLine(m, line, pending, rest, coming, goal);
      coming := rest;
    }
    m := Finish(m, pending, coming, goal);
  }

  method AcceptLine(m: Machine, line: Line, ghost pending: seq<Line>, ghost rest: seq<Line>, ghost coming: seq<Line>, ghost goal: seq<Block>)
    returns (m': Machine, ghost next: seq<Line>)
    requires coming != [] && line == coming[0] && rest == coming[1..]
    requires Buffered(m, pending) && Owes(m.blocks, pending, coming, goal)
    ensures Buffered(m', next) && Owes(m'.blocks, next, rest, goal)
  {
    m' := Accept(m, line);
    assert coming == [line] + rest;
    next := AcceptKeeps(m, pending, line, rest, coming, goal, m');
  }

  method Finish(m: Machine, ghost pending: seq<Line>, ghost coming: seq<Line>, ghost goal: seq<Block>) returns (m': Machine)
    requires coming == [] && Buffered(m, pending) && Owes(m.blocks, pending, coming, goal)
    ensures m'.blocks == goal
  {
    m' := FlushAll(m);
    OwesNothing(m, pending, coming, goal);
  }

  /** Appends the blocks of the given lines, one line at a time. */
  method AppendLines(before: seq<Block>, lines: seq<Line>) returns (blocks: seq<Block>)
    ensures blocks == PushAll(before, Raw(lines))
  {
    OwesStart(before, lines, lines);
    var m := AcceptFrom(START.(blocks := before), lines, PushAll(before, Raw(lines)));
    return m.blocks;
  }

  /** Appends the blocks of `text`. */
  method AppendTextBlocks(before: seq<Block>, text: string) returns (blocks: seq<Block>)
    ensures blocks == PushAll(before, TextBlocks(text))
  {
    blocks := AppendLines(before, Classified(SplitLines(StripNewlines(text))));
  }

  // ---------------------------------------------------------------- fenced code

  /** The position of the next fence at or after `i`, or the end. */
  function FenceAt(s: string, i: nat): (k: nat)
    requires i <= |s|
    ensures i <= k <= |s| && (k < |s| ==> k + 3 <= |s| && s[k..k + 3] == "```")
    decreases |s| - i
  {
    if i + 3 > |s| then |s| else if s[i..i + 3] == "```" then i else FenceAt(s, i + 1)
  }

  /** The end of the language name: the next line break or back tick. */
  function LanguageEnd(s: string, i: nat): (k: nat)
    requires i <= |s|
    ensures i <= k <= |s|
    decreases |s| - i
  {
    if i < |s| && s[i] != '\n' && s[i] != '`' then LanguageEnd(s, i + 1) else i
  }

  /** A match of the fence pattern: an unclosed fence runs to the end. */
  datatype Fence = Fence(start: nat, language: string, code: string, end: nat)

  function FenceFrom(s: string, start: nat): (f: Fence)
    requires start + 3 <= |s|
    ensures f.start == start && start + 3 <= f.end <= |s|
  {
    var named := LanguageEnd(s, start + 3);
    var body := if named < |s| && s[named] == '\n' then named + 1 else named;
    var close := FenceAt(s, body);
    Fence(start, Trim(s[start + 3..named]), StripNewlines(s[body..close]), if close < |s| then close + 3 else |s|)
  }

  /** A piece of the body: a stretch of text or a fence, with the characters it covers. */
  datatype Tile = Text(source: string) | Fenced(source: string, code: string, language: string)

  /** The body from `cursor` on, cut into text and fences. */
  function Tiles(s: string, cursor: nat): seq<Tile>
    requires cursor <= |s|
    decreases |s| - cursor
  {
    var start := FenceAt(s, cursor);
    var text := if cursor < start then [Text(s[cursor..start])] else [];
    if start == |s| then text else
      var f := FenceFrom(s, start);
      text + [Fenced(s[start..f.end], f.code, f.language)] + Tiles(s, f.end)
  }

  function Sources(tiles: seq<Tile>): string {
    if tiles == [] then "" else tiles[0].source + Sources(tiles[1..])
  }

  lemma {:induction false} SourcesConcat(a: seq<Tile>, b: seq<Tile>)
    ensures Sources(a + b) == Sources(a) + Sources(b)
    decreases |a|
  {
    if a == [] {
      assert a + b == b;
    } else {
      assert (a + b)[1..] == a[1..] + b;
      SourcesConcat(a[1..], b);
    }
  }

  /** Fences and text slices tile the body: every character is in exactly one of them, in order. */
  lemma {:induction false} TilesCover(s: string, cursor: nat)
    requires cursor <= |s|
    ensures Sources(Tiles(s, cursor)) == s[cursor..]
    decreases |s| - cursor
  {
    var start := FenceAt(s, cursor);
    var text := if cursor < start then [Text(s[cursor..start])] else [];
    TextSource(s, cursor, start, text);
    if start < |s| {
      var f := FenceFrom(s, start);
      var fence := [Fenced(s[start..f.end], f.code, f.language)];
      TilesCover(s, f.end);
      SourcesConcat(text + fence, Tiles(s, f.end));
      SourcesConcat(text, fence);
      assert Sources(fence) == s[start..f.end] by { assert fence[1..] == []; }
      SliceParts(s, cursor, start, f.end);
    }
  }

  lemma TextSource(s: string, cursor: nat, start: nat, text: seq<Tile>)
    requires cursor <= start <= |s| && text == if cursor < start then [Text(s[cursor..start])] else []
    ensures Sources(text) == s[cursor..start]
  {
  }

  lemma SliceParts(s: string, a: nat, b: nat, c: nat)
    requires a <= b <= c <= |s|
    ensures s[a..] == s[a..b] + s[b..c] + s[c..]
  {
  }

  function TileBlocks(t: Tile): seq<Block> {
    match t
    case Text(source) => TextBlocks(source)
    case Fenced(_, code, language) => [Code(code, language)]
  }

  /** One block per run of lines and per fence, in source order. */
  function BodyBlocks(tiles: seq<Tile>): seq<Block> {
    if tiles == [] then [] else TileBlocks(tiles[0]) + BodyBlocks(tiles[1..])
  }

  lemma {:induction false} BodyConcat(a: seq<Tile>, b: seq<Tile>)
    ensures BodyBlocks(a + b) == BodyBlocks(a) + BodyBlocks(b)
    decreases |a|
  {
    if a == [] {
      assert a + b == b;
    } else {
      assert (a + b)[1..] == a[1..] + b;
      BodyConcat(a[1..], b);
    }
  }

  function DropTrailing(blocks: seq<Block>): seq<Block> {
    if blocks != [] && blocks[|blocks| - 1].Spacer? then DropTrailing(blocks[..|blocks| - 1]) else blocks
  }

  /** The specification of the parser. */
  function Parsed(body: string): seq<Block> {
    var blocks := DropTrailing(PushAll([], BodyBlocks(Tiles(body, 0))));
    if blocks == [] then [Paragraph(body)] else blocks
  }

  lemma TilesStep(s: string, cursor: nat, blocks: seq<Block>)
    requires cursor <= |s| && FenceAt(s, cursor) < |s|
    ensures var start := FenceAt(s, cursor);
            var f := FenceFrom(s, start);
            var before := if cursor < start then PushAll(blocks, TextBlocks(s[cursor..start])) else blocks;
            PushAll(blocks, BodyBlocks(Tiles(s, cursor))) == PushAll(before + [Code(f.code, f.language)], BodyBlocks(Tiles(s, f.end)))
  {
    var start := FenceAt(s, cursor);
    var f := FenceFrom(s, start);
    var text := if cursor < start then [Text(s[cursor..start])] else [];
    var fence := [Fenced(s[start..f.end], f.code, f.language)];
    var rest := Tiles(s, f.end);
    BodyConcat(text + fence, rest);
    BodyConcat(text, fence);
    TextTile(s, cursor, start, text);
    assert BodyBlocks(fence) == [Code(f.code, f.language)] by { assert fence[1..] == []; }
    PushAllConcat(blocks, BodyBlocks(text) + [Code(f.code, f.language)], BodyBlocks(rest));
    PushAllConcat(blocks, BodyBlocks(text), [Code(f.code, f.language)]);
    PushAllOne(PushAll(blocks, BodyBlocks(text)), [Code(f.code, f.language)]);
  }

  lemma TextTile(s: string, cursor: nat, start: nat, text: seq<Tile>)
    requires cursor <= start <= |s| && text == if cursor < start then [Text(s[cursor..start])] else []
    ensures BodyBlocks(text) == if cursor < start then TextBlocks(s[cursor..start]) else []
  {
  }

  lemma LastTile(s: string, cursor: nat, blocks: seq<Block>)
    requires cursor <= |s| && FenceAt(s, cursor) == |s|
    ensures PushAll(blocks, BodyBlocks(Tiles(s, cursor))) ==
              if cursor < |s| then PushAll(blocks, TextBlocks(s[cursor..|s|])) else blocks
  {
    TextTile(s, cursor, |s|, Tiles(s, cursor));
  }

  /** The loop over the matches of the fence pattern. */
  method ParseTiles(body: string) returns (blocks: seq<Block>)
    ensures blocks == PushAll([], BodyBlocks(Tiles(body, 0)))
  {
    blocks := [];
    var cursor := 0;
    var next := FenceAt(body, 0);
    while next < |body|
      invariant cursor <= |body| && next == FenceAt(body, cursor)
      invariant PushAll(blocks, BodyBlocks(Tiles(body, cursor))) == PushAll([], BodyBlocks(Tiles(body, 0)))
      decreases |body| - cursor
    {
      TilesStep(body, cursor, blocks);
      if next > cursor {
        blocks := AppendTextBlocks(blocks, body[cursor..next]);
      }
      var f := FenceFrom(body, next);
      blocks := blocks + [Code(f.code, f.language)];
      cursor := f.end;
      next := FenceAt(body, cursor);
    }
    LastTile(body, cursor, blocks);
    if cursor < |body| {
      blocks := AppendTextBlocks(blocks, body[cursor..|body|]);
    }
  }

  method ParseMessageBlocks(body: string) returns (blocks: seq<Block>)
    ensures blocks == Parsed(body)
  {
    blocks := ParseTiles(body);
    ghost var all := blocks;
    while blocks != [] && blocks[|blocks| - 1].Spacer?
      invariant DropTrailing(blocks) == DropTrailing(all)
      decreases |blocks|
    {
      blocks := blocks[..|blocks| - 1];
    }
    if blocks == [] {
      blocks := [Paragraph(body)];
    }
  }

  // ---------------------------------------------------------------- what the result looks like

  /** No spacer comes first or after another spacer. */
  predicate Spaced(blocks: seq<Block>) {
    forall i | 0 <= i < |blocks| && blocks[i].Spacer? :: i > 0 && !blocks[i - 1].Spacer?
  }

  lemma {:induction false} PushAllSpaced(blocks: seq<Block>, more: seq<Block>)
    requires Spaced(blocks)
    ensures Spaced(PushAll(blocks, more))
    decreases |more|
  {
    if more != [] {
      PushAllSpaced(Push(blocks, more[0]), more[1..]);
    }
  }

  lemma {:induction false} DropTrailingSpaced(blocks: seq<Block>)
    requires Spaced(blocks)
    ensures var r := DropTrailing(blocks); Spaced(r) && (r != [] ==> !r[|r| - 1].Spacer?)
  {
  }

  /** The result is never empty and has no leading, trailing or adjacent spacer. */
  lemma ParsedShape(body: string)
    ensures var r := Parsed(body); r != [] && Spaced(r) && !r[|r| - 1].Spacer?
  {
    PushAllSpaced([], BodyBlocks(Tiles(body, 0)));
    DropTrailingSpaced(PushAll([], BodyBlocks(Tiles(body, 0))));
  }

  /** The blocks that show something, each with whether a gap separates it from the one before. */
  function Marks(blocks: seq<Block>, gap: bool, first: bool): seq<(Block, bool)>
    decreases |blocks|
  {
    if blocks == [] then []
    else if blocks[0].Spacer? then Marks(blocks[1..], true, first)
    else [(blocks[0], gap && !first)] + Marks(blocks[1..], false, false)
  }

  /** Whether a block list shows nothing, and whether it ends in a gap: what later blocks need to know of it. */
  function EndsInGap(blocks: seq<Block>, gap: bool): bool {
    if blocks == [] then gap else blocks[|blocks| - 1].Spacer?
  }

  predicate ShowsNothing(blocks: seq<Block>) {
    forall b | b in blocks :: b.Spacer?
  }

  lemma {:induction false} MarksConcat(a: seq<Block>, b: seq<Block>, gap: bool, first: bool)
    ensures Marks(a + b, gap, first) == Marks(a, gap, first) + Marks(b, EndsInGap(a, gap), first && ShowsNothing(a))
    decreases |a|
  {
    if a == [] {
      assert a + b == b;
    } else {
      assert (a + b)[1..] == a[1..] + b;
      assert a == [a[0]] + a[1..];
      MarksConcat(a[1..], b, a[0].Spacer?, first && a[0].Spacer?);
    }
  }

  lemma PushMarks(blocks: seq<Block>, b: Block, rest: seq<Block>)
    ensures Marks(Push(blocks, b) + rest, false, true) == Marks(blocks + [b] + rest, false, true)
  {
    if Push(blocks, b) == blocks {
      MarksConcat(blocks + [b], rest, false, true);
      MarksConcat(blocks, rest, false, true);
      MarksConcat(blocks, [b], false, true);
      assert Marks([b], EndsInGap(blocks, false), ShowsNothing(blocks)) == [];
      assert ShowsNothing(blocks + [b]) <==> ShowsNothing(blocks);
      if blocks == [] {
        FirstIgnoresGap(rest, true, false);
      }
    }
  }

  lemma {:induction false} PushAllMarks(blocks: seq<Block>, more: seq<Block>)
    ensures Marks(PushAll(blocks, more), false, true) == Marks(blocks + more, false, true)
    decreases |more|
  {
    if more == [] {
      assert blocks + more == blocks;
    } else {
      PushAllMarks(Push(blocks, more[0]), more[1..]);
      PushMarks(blocks, more[0], more[1..]);
      assert blocks + more == blocks + [more[0]] + more[1..];
    }
  }

  /** A gap before the first block that shows something does not count. */
  lemma {:induction false} FirstIgnoresGap(blocks: seq<Block>, g: bool, h: bool)
    ensures Marks(blocks, g, true) == Marks(blocks, h, true)
    decreases |blocks|
  {
  }

  lemma {:induction false} DropTrailingMarks(blocks: seq<Block>)
    ensures Marks(DropTrailing(blocks), false, true) == Marks(blocks, false, true)
  {
    if blocks != [] && blocks[|blocks| - 1].Spacer? {
      var init := blocks[..|blocks| - 1];
      DropTrailingMarks(init);
      assert blocks == init + [Spacer];
      MarksConcat(init, [Spacer], false, true);
    }
  }

  /** Collapsing spacers loses no block and no gap: the result shows what the runs and fences of the body show, if anything. */
  lemma ParsedShows(body: string)
    ensures var raw := Marks(BodyBlocks(Tiles(body, 0)), false, true);
            if raw == [] then Parsed(body) == [Paragraph(body)] else Marks(Parsed(body), false, true) == raw
    ensures Sources(Tiles(body, 0)) == body
  {
    var raw := BodyBlocks(Tiles(body, 0));
    var pushed := PushAll([], raw);
    PushAllMarks([], raw);
    assert [] + raw == raw;
    DropTrailingMarks(pushed);
    TrailingMark(DropTrailing(pushed));
    PushAllSpaced([], raw);
    DropTrailingSpaced(pushed);
    TilesCover(body, 0);
    assert body[0..] == body;
  }

  lemma TrailingMark(blocks: seq<Block>)
    ensures blocks != [] && !blocks[|blocks| - 1].Spacer? ==> Marks(blocks, false, true) != []
  {
  }

  /** A paragraph run is never dropped: its lines are not blank. */
  lemma ParagraphsKept(lines: seq<string>)
    requires lines != [] && forall l | l in lines :: Classify(l).Plain?
    ensures Emit(Classified(lines)) == [Paragraph(Trim(JoinLines(lines)))]
  {
    var run := Classified(lines);
    forall i | 0 <= i < |lines| ensures run[i].Plain? && run[i].text == lines[i] && !AllSpace(lines[i]) {
      assert lines[i] in lines;
      ClassifyKinds(lines[i]);
    }
    assert Texts(run) == lines;
    assert lines[0] in lines;
    JoinBlank(lines);
    TrimBlank(JoinLines(lines));
  }
}
