/** Lines of a message and how the block parser classifies them. */
module MessageLines {

  /** White space, as JavaScript's `\s` and `trim` have it. */
  predicate IsSpace(c: char) {
    || '\t' <= c <= '\r'
    || c == ' ' || c == '\U{A0}' || c == '\U{1680}'
    || '\U{2000}' <= c <= '\U{200A}'
    || c in {'\U{2028}', '\U{2029}', '\U{202F}', '\U{205F}', '\U{3000}', '\U{FEFF}'}
  }

  /** Characters that `.` does not match. */
  predicate IsTerminator(c: char) {
    c in {'\n', '\r', '\U{2028}', '\U{2029}'}
  }

  function TrimStart(s: string): string {
    if s != "" && IsSpace(s[0]) then TrimStart(s[1..]) else s
  }

  function TrimEnd(s: string): string {
    if s != "" && IsSpace(s[|s| - 1]) then TrimEnd(s[..|s| - 1]) else s
  }

  function Trim(s: string): string {
    TrimEnd(TrimStart(s))
  }

  predicate AllSpace(s: string) {
    forall c | c in s :: IsSpace(c)
  }

  lemma {:induction false} TrimStartBlank(s: string)
    ensures TrimStart(s) == "" <==> AllSpace(s)
    ensures TrimStart(s) != "" ==> !IsSpace(TrimStart(s)[0])
  {
    if s != "" && IsSpace(s[0]) {
      TrimStartBlank(s[1..]);
      assert s == [s[0]] + s[1..];
    } else if s != "" {
      assert s[0] in s;
    }
  }

  lemma {:induction false} TrimEndKeeps(s: string)
    requires s != "" && !IsSpace(s[0])
    ensures TrimEnd(s) != ""
  {
    if IsSpace(s[|s| - 1]) {
      TrimEndKeeps(s[..|s| - 1]);
    }
  }

  /** Trimming leaves nothing exactly when there is only white space. */
  lemma TrimBlank(s: string)
    ensures Trim(s) == "" <==> AllSpace(s)
  {
    TrimStartBlank(s);
    if TrimStart(s) != "" {
      TrimEndKeeps(TrimStart(s));
    }
  }

  /** `split("\n")`. */
  function SplitLines(s: string): (l: seq<string>)
    ensures l != []
  {
    if s == "" then [""]
    else
      var rest := SplitLines(s[1..]);
      if s[0] == '\n' then [""] + rest else [[s[0]] + rest[0]] + rest[1..]
  }

  /** `join("\n")`. */
  function JoinLines(l: seq<string>): string {
    if l == [] then "" else if |l| == 1 then l[0] else l[0] + "\n" + JoinLines(l[1..])
  }

  /** Joining the split lines gives the text back. */
  lemma {:induction false} JoinSplit(s: string)
    ensures JoinLines(SplitLines(s)) == s
  {
    if s != "" {
      JoinSplit(s[1..]);
      var rest := SplitLines(s[1..]);
      if s[0] == '\n' {
        assert ([""] + rest)[1..] == rest;
      } else {
        var l := [[s[0]] + rest[0]] + rest[1..];
        assert l[1..] == rest[1..];
      }
      assert s == [s[0]] + s[1..];
    }
  }

  /** A joined text is blank exactly when every line is. */
  lemma {:induction false} JoinBlank(l: seq<string>)
    ensures AllSpace(JoinLines(l)) <==> forall s | s in l :: AllSpace(s)
  {
    if |l| == 1 {
      assert l == [l[0]];
    } else if l != [] {
      JoinBlank(l[1..]);
      assert l == [l[0]] + l[1..];
      var j := l[0] + "\n" + JoinLines(l[1..]);
      assert AllSpace(j) <==> AllSpace(l[0]) && AllSpace(JoinLines(l[1..])) by {
        assert forall c :: c in j <==> c in l[0] || c == '\n' || c in JoinLines(l[1..]);
      }
    }
  }

  function StripStart(s: string): string {
    if s != "" && s[0] == '\n' then StripStart(s[1..]) else s
  }

  function StripEnd(s: string): string {
    if s != "" && s[|s| - 1] == '\n' then StripEnd(s[..|s| - 1]) else s
  }

  /** `replace(/^\n+|\n+$/g, "")`. */
  function StripNewlines(s: string): string {
    StripEnd(StripStart(s))
  }

  // ---------------------------------------------------------------- the line patterns

  datatype Line = Blank | Bullet(text: string) | Ordered(text: string) | Quote(text: string) | Plain(text: string)

  function SkipSpace(s: string, i: nat): (j: nat)
    requires i <= |s|
    ensures i <= j <= |s|
    decreases |s| - i
  {
    if i < |s| && IsSpace(s[i]) then SkipSpace(s, i + 1) else i
  }

  function SkipDigits(s: string, i: nat): (j: nat)
    requires i <= |s|
    ensures i <= j <= |s|
    decreases |s| - i
  {
    if i < |s| && '0' <= s[i] <= '9' then SkipDigits(s, i + 1) else i
  }

  predicate OneLine(s: string) {
    forall c | c in s :: !IsTerminator(c)
  }

  /** `\s+(.+)$` matches from `i`: some space, then at least one more character and no line terminator. */
  predicate ItemFollows(s: string, i: nat)
    requires i <= |s|
  {
    var j := SkipSpace(s, i);
    if j < |s| then i < j && OneLine(s[j..]) else i + 1 < j && !IsTerminator(s[|s| - 1])
  }

  /** The first of the patterns that matches, in the order in which they are tried. */
  function Classify(s: string): Line {
    if Trim(s) == "" then Blank else ClassifyAt(s, SkipSpace(s, 0), SkipDigits(s, SkipSpace(s, 0)))
  }

  /** The same for a line that is not blank, with white space up to `i` and digits from there up to `d`. */
  function ClassifyAt(s: string, i: nat, d: nat): Line
    requires i <= d <= |s|
  {
    if i < |s| && (s[i] == '-' || s[i] == '*') && ItemFollows(s, i + 1) then Bullet(Trim(s[i + 1..]))
    else if i < d < |s| && (s[d] == '.' || s[d] == ')') && ItemFollows(s, d + 1) then Ordered(Trim(s[d + 1..]))
    else if i < |s| && s[i] == '>' then
      var t := if i + 1 < |s| && IsSpace(s[i + 1]) then i + 2 else i + 1;
      if OneLine(s[t..]) then Quote(s[t..]) else Plain(s)
    else Plain(s)
  }

  /** Blank lines are the lines of white space, and plain lines keep their text. */
  lemma ClassifyKinds(s: string)
    ensures Classify(s).Blank? <==> AllSpace(s)
    ensures Classify(s).Plain? ==> Classify(s).text == s
  {
    TrimBlank(s);
  }

  // ---------------------------------------------------------------- what trimming and the patterns mean

  /** White space and line terminators by their code points. */
  lemma SpaceCodes(c: char)
    ensures IsSpace(c) <==> var n := c as int;
              || 9 <= n <= 13 || n == 32 || n == 0xA0 || n == 0x1680 || 0x2000 <= n <= 0x200A
              || n == 0x2028 || n == 0x2029 || n == 0x202F || n == 0x205F || n == 0x3000 || n == 0xFEFF
    ensures IsTerminator(c) <==> var n := c as int; n == 10 || n == 13 || n == 0x2028 || n == 0x2029
  {
  }

  lemma {:induction false} TrimStartParts(s: string) returns (a: nat)
    ensures a <= |s| && AllSpace(s[..a]) && s[a..] == TrimStart(s) && (a < |s| ==> !IsSpace(s[a]))
  {
    a := 0;
    if s != "" && IsSpace(s[0]) {
      var b := TrimStartParts(s[1..]);
      a := b + 1;
      assert s[..a] == [s[0]] + s[1..][..b];
    }
  }

  lemma {:induction false} TrimEndParts(s: string) returns (b: nat)
    ensures b <= |s| && AllSpace(s[b..]) && s[..b] == TrimEnd(s) && (b > 0 ==> !IsSpace(s[b - 1]))
  {
    b := |s|;
    if s != "" && IsSpace(s[|s| - 1]) {
      var init := s[..|s| - 1];
      b := TrimEndParts(init);
      assert s[b..] == init[b..] + [s[|s| - 1]];
    }
  }

  /** Trimming cuts the white space off both ends, and nothing else. */
  lemma TrimParts(s: string) returns (a: nat, b: nat)
    ensures a <= b <= |s| && Trim(s) == s[a..b] && AllSpace(s[..a]) && AllSpace(s[b..])
    ensures a < b ==> !IsSpace(s[a]) && !IsSpace(s[b - 1])
  {
    a := TrimStartParts(s);
    var c := TrimEndParts(s[a..]);
    b := a + c;
    assert s[a..][..c] == s[a..b] && s[a..][c..] == s[b..];
  }

  predicate AllBreaks(s: string) {
    forall c | c in s :: c == '\n'
  }

  lemma {:induction false} StripStartParts(s: string) returns (a: nat)
    ensures a <= |s| && AllBreaks(s[..a]) && s[a..] == StripStart(s) && (a < |s| ==> s[a] != '\n')
  {
    a := 0;
    if s != "" && s[0] == '\n' {
      var b := StripStartParts(s[1..]);
      a := b + 1;
      assert s[..a] == [s[0]] + s[1..][..b];
    }
  }

  lemma {:induction false} StripEndParts(s: string) returns (b: nat)
    ensures b <= |s| && AllBreaks(s[b..]) && s[..b] == StripEnd(s) && (b > 0 ==> s[b - 1] != '\n')
  {
    b := |s|;
    if s != "" && s[|s| - 1] == '\n' {
      var init := s[..|s| - 1];
      b := StripEndParts(init);
      assert s[b..] == init[b..] + [s[|s| - 1]];
    }
  }

  /** Stripping cuts the line breaks off both ends, and nothing else. */
  lemma StripParts(s: string) returns (a: nat, b: nat)
    ensures a <= b <= |s| && StripNewlines(s) == s[a..b] && AllBreaks(s[..a]) && AllBreaks(s[b..])
    ensures a < b ==> s[a] != '\n' && s[b - 1] != '\n'
  {
    a := StripStartParts(s);
    var c := StripEndParts(s[a..]);
    b := a + c;
    assert s[a..][..c] == s[a..b] && s[a..][c..] == s[b..];
  }

  lemma {:induction false} SkipSpaceIs(s: string, i: nat, j: nat)
    requires i <= j <= |s| && (forall k | i <= k < j :: IsSpace(s[k])) && (j < |s| ==> !IsSpace(s[j]))
    ensures SkipSpace(s, i) == j
    decreases j - i
  {
    if i < j { SkipSpaceIs(s, i + 1, j); }
  }

  lemma {:induction false} SkipDigitsIs(s: string, i: nat, j: nat)
    requires i <= j <= |s| && (forall k | i <= k < j :: '0' <= s[k] <= '9') && (j < |s| ==> !('0' <= s[j] <= '9'))
    ensures SkipDigits(s, i) == j
    decreases j - i
  {
    if i < j { SkipDigitsIs(s, i + 1, j); }
  }

  lemma {:induction false} TrimLead(lead: string, s: string)
    requires AllSpace(lead)
    ensures Trim(lead + s) == Trim(s)
    decreases |lead|
  {
    if lead == "" {
      assert lead + s == s;
    } else {
      assert lead[0] in lead && (lead + s)[1..] == lead[1..] + s;
      TrimLead(lead[1..], s);
    }
  }

  lemma NotBlank(s: string, i: nat)
    requires i < |s| && !IsSpace(s[i])
    ensures Trim(s) != ""
  {
    assert s[i] in s;
    TrimBlank(s);
  }

  /** The parts of `a + b + c + d`, by position. */
  lemma FourParts(a: string, b: string, c: string, d: string)
    ensures var s, i, j, k := a + b + c + d, |a|, |a| + |b|, |a| + |b| + |c|;
            && s[..i] == a && s[i..j] == b && s[j..k] == c && s[k..] == d && s[j..] == c + d
  {
  }

  /** No character ends a line. */
  predicate WithinLine(s: string) {
    forall c | c in s :: c != '\n' && c != '\r' && c != '\U{2028}' && c != '\U{2029}'
  }

  /** White space up to `j`, then an item that stays within its line. */
  predicate ItemAt(s: string, i: nat, j: nat) {
    i < j < |s| && (forall k | i <= k < j :: IsSpace(s[k])) && !IsSpace(s[j]) && WithinLine(s[j..])
  }

  lemma ItemIs(s: string, i: nat, j: nat)
    requires ItemAt(s, i, j)
    ensures ItemFollows(s, i) && Trim(s[i..]) == Trim(s[j..])
  {
    SkipSpaceIs(s, i, j);
    assert s[i..] == s[i..j] + s[j..];
    TrimLead(s[i..j], s[j..]);
  }

  lemma BulletAt(s: string, i: nat, j: nat)
    requires i < |s| && (forall k | 0 <= k < i :: IsSpace(s[k])) && (s[i] == '-' || s[i] == '*') && ItemAt(s, i + 1, j)
    ensures Classify(s) == Bullet(Trim(s[j..]))
  {
    SkipSpaceIs(s, 0, i);
    NotBlank(s, i);
    ItemIs(s, i + 1, j);
  }

  lemma OrderedAt(s: string, i: nat, d: nat, j: nat)
    requires i < d < |s| && (forall k | 0 <= k < i :: IsSpace(s[k])) && (forall k | i <= k < d :: '0' <= s[k] <= '9')
    requires (s[d] == '.' || s[d] == ')') && ItemAt(s, d + 1, j)
    ensures Classify(s) == Ordered(Trim(s[j..]))
  {
    assert SkipSpace(s, 0) == i by { SkipSpaceIs(s, 0, i); }
    assert SkipDigits(s, i) == d by { SkipDigitsIs(s, i, d); }
    assert Trim(s) != "" by { NotBlank(s, i); }
    assert ItemFollows(s, d + 1) && Trim(s[d + 1..]) == Trim(s[j..]) by { ItemIs(s, d + 1, j); }
    ClassifiesOrdered(s, i, d);
  }

  lemma ClassifiesOrdered(s: string, i: nat, d: nat)
    requires SkipSpace(s, 0) == i < |s| && SkipDigits(s, i) == d < |s| && i < d && '0' <= s[i] <= '9'
    requires Trim(s) != "" && (s[d] == '.' || s[d] == ')') && ItemFollows(s, d + 1)
    ensures Classify(s) == Ordered(Trim(s[d + 1..]))
  {
  }

  /** A dash or an asterisk, white space and an item make a bullet with the item trimmed. */
  lemma BulletLine(indent: string, marker: string, gap: string, item: string)
    requires AllSpace(indent) && marker in {"-", "*"} && gap != "" && AllSpace(gap)
    requires item != "" && !IsSpace(item[0]) && WithinLine(item)
    ensures Classify(indent + marker + gap + item) == Bullet(Trim(item))
  {
    var s, i, j := indent + marker + gap + item, |indent|, |indent| + 1 + |gap|;
    FourParts(indent, marker, gap, item);
    forall k | 0 <= k < i ensures IsSpace(s[k]) { assert s[k] in indent; }
    forall k | i + 1 <= k < j ensures IsSpace(s[k]) { assert s[k] in gap; }
    assert s[i] == marker[0] && s[j] == item[0];
    BulletAt(s, i, j);
  }

  /** A marker with only white space after it: two or more make an empty bullet, and one or none a plain line. */
  lemma BareMarker(indent: string, marker: string, gap: string)
    requires AllSpace(indent) && marker in {"-", "*"} && AllSpace(gap) && WithinLine(gap)
    ensures Classify(indent + marker + gap) == if |gap| >= 2 then Bullet("") else Plain(indent + marker + gap)
  {
    var s, i := indent + marker + gap, |indent|;
    FourParts(indent, marker, gap, "");
    assert s == indent + marker + gap + "";
    forall k | 0 <= k < i ensures IsSpace(s[k]) { assert s[k] in indent; }
    forall k | i + 1 <= k < |s| ensures IsSpace(s[k]) && !IsTerminator(s[k]) { assert s[k] in gap; }
    assert s[i] == marker[0] && s[i + 1..] == gap;
    SkipSpaceIs(s, 0, i);
    SkipDigitsIs(s, i, i);
    SkipSpaceIs(s, i + 1, |s|);
    NotBlank(s, i);
    TrimBlank(gap);
  }

  predicate AllDigits(s: string) {
    forall c | c in s :: '0' <= c <= '9'
  }

  /** Digits, a point or a bracket, white space and an item make an entry of an ordered list with the item trimmed. */
  lemma OrderedLine(indent: string, digits: string, marker: string, gap: string, item: string)
    requires AllSpace(indent) && digits != "" && AllDigits(digits) && marker in {".", ")"} && gap != "" && AllSpace(gap)
    requires item != "" && !IsSpace(item[0]) && WithinLine(item)
    ensures Classify(indent + (digits + marker) + gap + item) == Ordered(Trim(item))
  {
    var numbered := digits + marker;
    var s, i, d := indent + numbered + gap + item, |indent|, |indent| + |digits|;
    var j := d + 1 + |gap|;
    FourParts(indent, numbered, gap, item);
    forall k | 0 <= k < i ensures IsSpace(s[k]) { assert s[k] in indent; }
    forall k | i <= k < d ensures '0' <= s[k] <= '9' {
      assert s[k] == numbered[k - i] == digits[k - i];
      assert s[k] in digits;
    }
    forall k | d + 1 <= k < j ensures IsSpace(s[k]) { assert s[k] in gap; }
    assert s[d] == numbered[|digits|] == marker[0] && s[j] == item[0];
    OrderedAt(s, i, d, j);
  }

  /** An angle bracket makes a quote of what follows it, less one white space. */
  lemma QuoteLine(indent: string, gap: string, text: string)
    requires AllSpace(indent) && WithinLine(text)
    requires if gap == "" then text == "" || !IsSpace(text[0]) else |gap| == 1 && AllSpace(gap)
    ensures Classify(indent + ">" + gap + text) == Quote(text)
  {
    var s, i := indent + ">" + gap + text, |indent|;
    FourParts(indent, ">", gap, text);
    forall k | 0 <= k < i ensures IsSpace(s[k]) { assert s[k] in indent; }
    assert s[i] == '>' && (gap != "" ==> s[i + 1] == gap[0] && gap[0] in gap) && (gap == "" && text != "" ==> s[i + 1] == text[0]);
    SkipSpaceIs(s, 0, i);
    SkipDigitsIs(s, i, i);
    NotBlank(s, i);
  }

  /** A line that begins with anything else is plain. */
  lemma PlainLine(indent: string, rest: string)
    requires AllSpace(indent) && rest != "" && !IsSpace(rest[0]) && rest[0] !in {'-', '*', '>'} && !('0' <= rest[0] <= '9')
    ensures Classify(indent + rest) == Plain(indent + rest)
  {
    var s, i := indent + rest, |indent|;
    forall k | 0 <= k < i ensures IsSpace(s[k]) { assert s[k] in indent; }
    assert s[i] == rest[0];
    SkipSpaceIs(s, 0, i);
    SkipDigitsIs(s, i, i);
    NotBlank(s, i);
  }

  /** An item, or white space enough to hold an empty one, follows from `i` on and stays within its line. */
  predicate Followed(s: string, i: nat, j: nat) {
    && i < j <= |s| && (forall k | i <= k < j :: IsSpace(s[k]))
    && if j < |s| then !IsSpace(s[j]) && WithinLine(s[j..]) else j >= i + 2 && WithinLine(s[|s| - 1..])
  }

  lemma ItemMeans(s: string, i: nat) returns (j: nat)
    requires i <= |s| && ItemFollows(s, i)
    ensures Followed(s, i, j)
  {
    j := SkipSpace(s, i);
    SkipSpaceMeans(s, i);
  }

  /** Only a dash or an asterisk with white space right after it, and an item within the line, makes a bullet. */
  lemma BulletMeans(s: string) returns (i: nat, j: nat)
    requires Classify(s).Bullet?
    ensures i < |s| && (forall k | 0 <= k < i :: IsSpace(s[k])) && (s[i] == '-' || s[i] == '*') && Followed(s, i + 1, j)
    ensures Classify(s).text == Trim(s[i + 1..])
  {
    i := SkipSpace(s, 0);
    SkipSpaceMeans(s, 0);
    j := ItemMeans(s, i + 1);
  }

  /** Only digits and a point or a bracket with white space right after it, and an item within the line, make an entry of an ordered list. */
  lemma OrderedMeans(s: string) returns (i: nat, d: nat, j: nat)
    requires Classify(s).Ordered?
    ensures i < d < |s| && (forall k | 0 <= k < i :: IsSpace(s[k])) && forall k | i <= k < d :: '0' <= s[k] <= '9'
    ensures (s[d] == '.' || s[d] == ')') && Followed(s, d + 1, j) && Classify(s).text == Trim(s[d + 1..])
  {
    i := SkipSpace(s, 0);
    d := SkipDigits(s, i);
    OrderedParts(s, i, d);
    SkipSpaceMeans(s, 0);
    SkipDigitsMeans(s, i);
    j := ItemMeans(s, d + 1);
  }

  lemma OrderedParts(s: string, i: nat, d: nat)
    requires i <= d <= |s| && ClassifyAt(s, i, d).Ordered?
    ensures i < d < |s| && (s[d] == '.' || s[d] == ')') && ItemFollows(s, d + 1) && ClassifyAt(s, i, d).text == Trim(s[d + 1..])
  {
  }

  /** Only an angle bracket makes a quote. */
  lemma QuoteMeans(s: string) returns (i: nat)
    requires Classify(s).Quote?
    ensures i < |s| && (forall k | 0 <= k < i :: IsSpace(s[k])) && s[i] == '>'
    ensures Classify(s).text == s[i + 1..] || (i + 1 < |s| && IsSpace(s[i + 1]) && Classify(s).text == s[i + 2..])
  {
    i := SkipSpace(s, 0);
    SkipSpaceMeans(s, 0);
  }

  lemma {:induction false} SkipSpaceMeans(s: string, i: nat)
    requires i <= |s|
    ensures forall k | i <= k < SkipSpace(s, i) :: IsSpace(s[k])
    ensures SkipSpace(s, i) < |s| ==> !IsSpace(s[SkipSpace(s, i)])
    decreases |s| - i
  {
    if i < |s| && IsSpace(s[i]) { SkipSpaceMeans(s, i + 1); }
  }

  lemma {:induction false} SkipDigitsMeans(s: string, i: nat)
    requires i <= |s|
    ensures forall k | i <= k < SkipDigits(s, i) :: '0' <= s[k] <= '9'
    decreases |s| - i
  {
    if i < |s| && '0' <= s[i] <= '9' { SkipDigitsMeans(s, i + 1); }
  }
}
