/** Fenced code in message bodies: what the fence finder finds, and that a written fence is read back. */
module MessageFences {
  import opened MessageLines
  import opened MessageBlocks

  /** A fence starts at `j`. */
  predicate FencedAt(s: string, j: nat) {
    j + 3 <= |s| && s[j] == '`' && s[j + 1] == '`' && s[j + 2] == '`'
  }

  lemma FencedSlice(s: string, j: nat)
    requires j + 3 <= |s|
    ensures FencedAt(s, j) <==> s[j..j + 3] == "```"
  {
    assert FencedAt(s, j) ==> s[j..j + 3] == ['`', '`', '`'];
  }

  /** The finder returns the first fence from `i` on, or the end when there is none. */
  lemma {:induction false} FenceAtIsFirst(s: string, i: nat)
    requires i <= |s|
    ensures var k := FenceAt(s, i);
            i <= k <= |s| && (k < |s| ==> FencedAt(s, k)) && forall j | i <= j < k :: !FencedAt(s, j)
    decreases |s| - i
  {
    if i + 3 <= |s| {
      FencedSlice(s, i);
      if s[i..i + 3] != "```" { FenceAtIsFirst(s, i + 1); }
    }
  }

  lemma FenceAtIs(s: string, i: nat, k: nat)
    requires i <= k <= |s| && (k < |s| ==> FencedAt(s, k)) && forall j | i <= j < k :: !FencedAt(s, j)
    ensures FenceAt(s, i) == k
  {
    FenceAtIsFirst(s, i);
  }

  lemma {:induction false} LanguageEndIs(s: string, i: nat, k: nat)
    requires i <= k <= |s| && (k < |s| ==> s[k] == '\n' || s[k] == '`')
    requires forall j | i <= j < k :: s[j] != '\n' && s[j] != '`'
    ensures LanguageEnd(s, i) == k
    decreases k - i
  {
    if i < k { LanguageEndIs(s, i + 1, k); }
  }

  /** No fence starts in `s`, not even one that a fence right after it would complete. */
  predicate Unfenced(s: string) {
    forall j | 0 <= j < |s| :: !FencedAt(s + "```", j)
  }

  predicate NoFence(s: string) {
    forall j | 0 <= j < |s| :: !FencedAt(s, j)
  }

  predicate IsName(language: string) {
    forall c | c in language :: c != '\n' && c != '`'
  }

  /** `part` stands in `s` from `at` to `end`. */
  ghost predicate Stands(s: string, at: nat, end: nat, part: string) {
    at <= end <= |s| && s[at..end] == part
  }

  lemma UnfencedIn(s: string, at: nat, end: nat, part: string)
    requires Stands(s, at, end, part) && FencedAt(s, end) && Unfenced(part)
    ensures FenceAt(s, at) == end
  {
    forall j | at <= j < end ensures !FencedAt(s, j) {
      var open := part + "```";
      forall k | 0 <= k < |open| ensures open[k] == s[at + k] {
        assert k < |part| ==> part[k] == s[at..end][k];
        assert k >= |part| ==> open[k] == '`' && k - |part| < 3;
      }
      assert !FencedAt(open, j - at);
    }
    FenceAtIs(s, at, end);
  }

  lemma NoFenceIn(s: string, at: nat, part: string)
    requires Stands(s, at, |s|, part) && NoFence(part)
    ensures FenceAt(s, at) == |s|
  {
    forall j | at <= j < |s| ensures !FencedAt(s, j) {
      assert !FencedAt(part, j - at);
    }
    FenceAtIs(s, at, |s|);
  }

  /** A fence with a name on its first line and code from the next line to the closing fence. */
  lemma FenceReads(s: string, start: nat, named: nat, language: string, close: nat, code: string)
    requires FencedAt(s, start) && Stands(s, start + 3, named, language) && IsName(language)
    requires named < |s| && s[named] == '\n' && Stands(s, named + 1, close, code)
    requires if close < |s| then FencedAt(s, close) && Unfenced(code) else NoFence(code)
    ensures FenceFrom(s, start) == Fence(start, Trim(language), StripNewlines(code), if close < |s| then close + 3 else |s|)
  {
    assert LanguageEnd(s, start + 3) == named by { NameReads(s, start + 3, named, language); }
    assert FenceAt(s, named + 1) == close by {
      if close < |s| { UnfencedIn(s, named + 1, close, code); } else { NoFenceIn(s, named + 1, code); }
    }
  }

  lemma NameReads(s: string, at: nat, named: nat, language: string)
    requires Stands(s, at, named, language) && IsName(language) && named < |s| && (s[named] == '\n' || s[named] == '`')
    ensures LanguageEnd(s, at) == named
  {
    forall j | at <= j < named ensures s[j] != '\n' && s[j] != '`' {
      assert s[j] == language[j - at] && s[j] in language;
    }
    LanguageEndIs(s, at, named);
  }

  /** The blocks of a piece of text; an empty piece is not looked at. */
  function Around(text: string): seq<Block> {
    if text == "" then [] else TextBlocks(text)
  }

  lemma TilesOne(s: string, start: nat, end: nat, f: Fence, after: string)
    requires FenceAt(s, 0) == start < |s| && start + 3 <= |s| && f == FenceFrom(s, start) && f.end == end
    requires Stands(s, end, |s|, after) && NoFence(after)
    ensures BodyBlocks(Tiles(s, 0)) == Around(s[..start]) + [Code(f.code, f.language)] + Around(after)
  {
    var text, rest := if 0 < start then [Text(s[0..start])] else [], Tiles(s, end);
    var fence := [Fenced(s[start..end], f.code, f.language)];
    NoFenceIn(s, end, after);
    assert rest == if end < |s| then [Text(after)] else [];
    assert Tiles(s, 0) == text + fence + rest;
    BodyConcat(text + fence, rest);
    BodyConcat(text, fence);
    OneTile(text, s[..start]);
    OneTile(rest, after);
    assert fence[1..] == [] && s[0..start] == s[..start];
    assert BodyBlocks(fence) == [Code(f.code, f.language)];
  }

  lemma OneTile(tiles: seq<Tile>, text: string)
    requires tiles == if text != "" then [Text(text)] else []
    ensures BodyBlocks(tiles) == Around(text)
  {
    if text != "" {
      assert tiles[1..] == [];
      assert BodyBlocks(tiles) == TextBlocks(text) + BodyBlocks([]);
    }
  }

  /** Blocks with code among them are never replaced by the fallback paragraph. */
  lemma CodeStays(body: string, before: seq<Block>, code: Block, after: seq<Block>)
    requires BodyBlocks(Tiles(body, 0)) == before + [code] + after && code.Code?
    ensures Parsed(body) == DropTrailing(PushAll([], before + [code] + after))
  {
    var raw := before + [code] + after;
    var pushed := PushAll([], raw);
    PushAllMarks([], raw);
    assert [] + raw == raw;
    DropTrailingMarks(pushed);
    MarksConcat(before + [code], after, false, true);
    MarksConcat(before, [code], false, true);
    assert Marks([code], EndsInGap(before, false), ShowsNothing(before)) != [];
    assert Marks(raw, false, true) != [];
  }

  /** A closed fence is read back: its language trimmed, its code without outer line breaks, between the blocks around it. */
  lemma FenceRoundTrip(before: string, language: string, code: string, after: string)
    requires Unfenced(before) && IsName(language) && Unfenced(code) && NoFence(after)
    ensures var body := before + "```" + language + "\n" + code + "```" + after;
            Parsed(body) == DropTrailing(PushAll([], Around(before) + [Code(StripNewlines(code), Trim(language))] + Around(after)))
  {
    var body := before + "```" + language + "\n" + code + "```" + after;
    var start, named := |before|, |before| + 3 + |language|;
    var close := named + 1 + |code|;
    assert Stands(body, 0, start, before) && FencedAt(body, start) && Stands(body, start + 3, named, language) && body[named] == '\n';
    assert Stands(body, named + 1, close, code) && FencedAt(body, close) && Stands(body, close + 3, |body|, after);
    UnfencedIn(body, 0, start, before);
    FenceReads(body, start, named, language, close, code);
    TilesOne(body, start, close + 3, FenceFrom(body, start), after);
    assert body[..start] == before;
    CodeStays(body, Around(before), Code(StripNewlines(code), Trim(language)), Around(after));
  }

  /** A fence that is not closed runs to the end. */
  lemma OpenFenceRoundTrip(before: string, language: string, code: string)
    requires Unfenced(before) && IsName(language) && NoFence(code)
    ensures var body := before + "```" + language + "\n" + code;
            Parsed(body) == DropTrailing(PushAll([], Around(before) + [Code(StripNewlines(code), Trim(language))]))
  {
    var body := before + "```" + language + "\n" + code;
    var start, named := |before|, |before| + 3 + |language|;
    assert Stands(body, 0, start, before) && FencedAt(body, start) && Stands(body, start + 3, named, language) && body[named] == '\n';
    assert Stands(body, named + 1, |body|, code);
    UnfencedIn(body, 0, start, before);
    FenceReads(body, start, named, language, |body|, code);
    TilesOne(body, start, |body|, FenceFrom(body, start), "");
    assert body[..start] == before;
    var blocks := Around(before) + [Code(StripNewlines(code), Trim(language))];
    assert blocks + Around("") == blocks;
    CodeStays(body, Around(before), Code(StripNewlines(code), Trim(language)), Around(""));
  }

  /** A fence closed on its own line has a name and no code. */
  lemma NameOnlyFence(before: string, language: string, after: string)
    requires Unfenced(before) && IsName(language) && NoFence(after)
    ensures var body := before + "```" + language + "```" + after;
            Parsed(body) == DropTrailing(PushAll([], Around(before) + [Code("", Trim(language))] + Around(after)))
  {
    var body := before + "```" + language + "```" + after;
    var start, named := |before|, |before| + 3 + |language|;
    assert Stands(body, 0, start, before) && FencedAt(body, start) && Stands(body, start + 3, named, language);
    assert FencedAt(body, named) && Stands(body, named + 3, |body|, after);
    UnfencedIn(body, 0, start, before);
    NameReads(body, start + 3, named, language);
    FenceAtIs(body, named, named);
    assert body[named..named] == "" && body[start + 3..named] == language && body[..start] == before;
    TilesOne(body, start, named + 3, FenceFrom(body, start), after);
    CodeStays(body, Around(before), Code("", Trim(language)), Around(after));
  }
}
