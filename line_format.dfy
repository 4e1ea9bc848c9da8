/**
 * How the summary text is turned into display blocks (App.tsx, the render map over
 * `data.text.split('\n')`): each line is trimmed; a blank line gives nothing, a line
 * starting with `*` or `-` gives a bullet with its leading run of `*`, `-` and
 * whitespace removed, and any other line gives a paragraph holding the trimmed line.
 */
module LineFormat {
  import opened Wrappers

  /**
   * The characters JavaScript's `trim` removes and its regular-expression class `\s`
   * matches: the WhiteSpace and LineTerminator code points of ECMAScript (tab, vertical
   * tab, form feed, space, no-break space, the space separators of category Zs, the
   * byte order mark, line feed, carriage return, line and paragraph separator).
   */
  predicate IsWhitespace(c: char) {
    || c == '\t' || c == '\n' || c == '\U{000B}' || c == '\U{000C}' || c == '\r'
    || c == ' ' || c == '\U{00A0}' || c == '\U{1680}'
    || ('\U{2000}' <= c <= '\U{200A}')
    || c == '\U{2028}' || c == '\U{2029}' || c == '\U{202F}' || c == '\U{205F}'
    || c == '\U{3000}' || c == '\U{FEFF}'
  }

  /** A trimmed line starting with one of these is shown as a bullet. */
  predicate IsBulletMarker(c: char) {
    c == '*' || c == '-'
  }

  /** The class `[*-\s]` of the pattern `/^[*-\s]+/` that strips a bullet's lead-in. */
  predicate IsBulletPrefixChar(c: char) {
    IsBulletMarker(c) || IsWhitespace(c)
  }

  /** A line that is empty or holds nothing but whitespace. */
  predicate IsBlank(line: string) {
    forall i :: 0 <= i < |line| ==> IsWhitespace(line[i])
  }

  /** `s` with its longest prefix of characters satisfying `p` removed. */
  function DropWhile(s: string, p: char -> bool): (r: string)
    ensures |r| <= |s| && r == s[|s| - |r|..]
    ensures r == [] || !p(r[0])
    ensures forall i :: 0 <= i < |s| - |r| ==> p(s[i])
    decreases |s|
  {
    if |s| > 0 && p(s[0]) then DropWhile(s[1..], p) else s
  }

  /** `s` with its longest suffix of characters satisfying `p` removed. */
  function DropWhileEnd(s: string, p: char -> bool): (r: string)
    ensures |r| <= |s| && r == s[..|r|]
    ensures r == [] || !p(r[|r| - 1])
    ensures forall i :: |r| <= i < |s| ==> p(s[i])
    decreases |s|
  {
    if |s| > 0 && p(s[|s| - 1]) then DropWhileEnd(s[..|s| - 1], p) else s
  }

  /** JavaScript's `String.prototype.trim`. */
  function Trim(s: string): (r: string)
    ensures |r| <= |s|
    ensures r == [] || (!IsWhitespace(r[0]) && !IsWhitespace(r[|r| - 1]))
    ensures r == [] <==> IsBlank(s)
  {
    DropWhile(DropWhileEnd(s, IsWhitespace), IsWhitespace)
  }

  /** The trimmed line is `s` cut at both ends, and only whitespace was cut. */
  lemma TrimIsSlice(s: string) returns (lead: nat)
    ensures lead + |Trim(s)| <= |s| && Trim(s) == s[lead..lead + |Trim(s)|]
    ensures forall i :: 0 <= i < lead ==> IsWhitespace(s[i])
    ensures forall i :: lead + |Trim(s)| <= i < |s| ==> IsWhitespace(s[i])
  {
    var e := DropWhileEnd(s, IsWhitespace);
    lead := |e| - |Trim(s)|;
    assert e == s[..|e|];
  }

  /** `content` is what `/^[*-\s]+/` leaves of `trimmed`: a suffix, preceded only by lead-in characters, not itself starting with one. */
  predicate IsStrippedBullet(trimmed: string, content: string) {
    && |content| <= |trimmed|
    && content == trimmed[|trimmed| - |content|..]
    && (content == [] || !IsBulletPrefixChar(content[0]))
    && forall i :: 0 <= i < |trimmed| - |content| ==> IsBulletPrefixChar(trimmed[i])
  }

  /** One display block. */
  datatype Block = Bullet(content: string) | Paragraph(content: string)

  /** The block one line of the summary text renders as, or None for a blank line. */
  function LineBlock(line: string): Option<Block> {
    var trimmed := Trim(line);
    if |trimmed| > 0 && IsBulletMarker(trimmed[0]) then
      Some(Bullet(DropWhile(trimmed, IsBulletPrefixChar)))
    else if |trimmed| == 0 then
      None
    else
      Some(Paragraph(trimmed))
  }

  /**
   * A blank line renders as nothing; a line whose trimmed form starts with a marker renders
   * as a bullet holding the trimmed form with its lead-in stripped; any other line renders
   * as a paragraph holding exactly its trimmed form.
   */
  lemma LineBlockCases(line: string)
    ensures LineBlock(line).None? <==> IsBlank(line)
    ensures LineBlock(line).Some? && LineBlock(line).value.Bullet? <==>
      !IsBlank(line) && IsBulletMarker(Trim(line)[0])
    ensures LineBlock(line).Some? && LineBlock(line).value.Bullet? ==>
      IsStrippedBullet(Trim(line), LineBlock(line).value.content)
    ensures LineBlock(line).Some? && LineBlock(line).value.Paragraph? ==>
      LineBlock(line).value.content == Trim(line)
  {
    var t := Trim(line);
    if |t| > 0 && IsBulletMarker(t[0]) {
      var c := DropWhile(t, IsBulletPrefixChar);
      assert LineBlock(line) == Some(Bullet(c));
      assert IsStrippedBullet(t, c);
    } else if |t| == 0 {
      assert LineBlock(line) == None;
    } else {
      assert LineBlock(line) == Some(Paragraph(t));
    }
  }

  /** Bullet content never begins with `*`, `-` or whitespace, and never ends with whitespace. */
  lemma BulletContentShape(line: string)
    requires Trim(line) != [] && IsBulletMarker(Trim(line)[0])
    ensures LineBlock(line).Some? && LineBlock(line).value.Bullet?
    ensures var c := LineBlock(line).value.content;
      c == [] || (!IsBulletMarker(c[0]) && !IsWhitespace(c[0]) && !IsWhitespace(c[|c| - 1]))
  {
    var t, c := Trim(line), LineBlock(line).value.content;
    LineBlockCases(line);
    assert IsStrippedBullet(t, c);
    if c != [] {
      assert t != [];
      assert c[0] == t[|t| - |c|];
      assert c[|c| - 1] == t[|t| - 1];
      assert !IsBulletPrefixChar(c[0]);
    }
  }

  /** JavaScript's `s.split(sep)` for a one-character separator: "" gives [""], and a trailing separator gives a trailing "". */
  function Split(s: string, sep: char): (parts: seq<string>)
    ensures |parts| >= 1
    ensures forall i :: 0 <= i < |parts| ==> sep !in parts[i]
  {
    if |s| == 0 then [""]
    else
      var rest := Split(s[1..], sep);
      if s[0] == sep then [""] + rest else [[s[0]] + rest[0]] + rest[1..]
  }

  /** JavaScript's `parts.join(sep)`, the inverse of `Split`. */
  function Join(parts: seq<string>, sep: char): string {
    if |parts| == 0 then ""
    else if |parts| == 1 then parts[0]
    else parts[0] + [sep] + Join(parts[1..], sep)
  }

  lemma {:induction false} JoinSplit(s: string, sep: char)
    ensures Join(Split(s, sep), sep) == s
  {
    if |s| > 0 {
      var rest := Split(s[1..], sep);
      JoinSplit(s[1..], sep);
      if s[0] == sep {
        assert Split(s, sep) == [""] + rest;
        assert ([""] + rest)[1..] == rest;
      } else {
        var parts := [[s[0]] + rest[0]] + rest[1..];
        if |rest| > 1 {
          assert parts[1..] == rest[1..];
          assert Join(rest, sep) == rest[0] + [sep] + Join(rest[1..], sep);
        }
      }
    }
  }

  /** Splitting text whose first part `a` holds no separator: `a` is glued to the front of what follows. */
  lemma {:induction false} SplitAfterPlainPrefix(a: string, t: string, sep: char)
    requires sep !in a
    ensures Split(a + t, sep) == [a + Split(t, sep)[0]] + Split(t, sep)[1..]
  {
    if |a| > 0 {
      SplitAfterPlainPrefix(a[1..], t, sep);
      assert (a + t)[1..] == a[1..] + t;
      assert [a[0]] + (a[1..] + Split(t, sep)[0]) == a + Split(t, sep)[0];
    } else {
      var parts := Split(t, sep);
      assert a + t == t;
      assert a + parts[0] == parts[0];
      assert [parts[0]] + parts[1..] == parts;
    }
  }

  lemma {:induction false} SplitJoin(parts: seq<string>, sep: char)
    requires |parts| >= 1
    requires forall i :: 0 <= i < |parts| ==> sep !in parts[i]
    ensures Split(Join(parts, sep), sep) == parts
  {
    if |parts| == 1 {
      SplitAfterPlainPrefix(parts[0], "", sep);
      assert parts[0] + "" == parts[0];
    } else {
      var tail := Join(parts[1..], sep);
      SplitJoin(parts[1..], sep);
      SplitAfterPlainPrefix(parts[0], [sep] + tail, sep);
      assert parts[0] + [sep] + tail == parts[0] + ([sep] + tail);
      assert Split([sep] + tail, sep) == [""] + Split(tail, sep) by {
        assert ([sep] + tail)[1..] == tail;
      }
      assert parts[0] + "" == parts[0];
    }
  }

  /** The blocks of one line: none for a blank line, otherwise exactly one. */
  function Emit(b: Option<Block>): seq<Block> {
    match b
    case None => []
    case Some(x) => [x]
  }

  /** `lines.map(render)` as React renders it: a line rendered as null adds no block. */
  function RenderLines(lines: seq<string>, render: string -> Option<Block>): (blocks: seq<Block>)
    ensures |blocks| <= |lines|
  {
    if lines == [] then [] else Emit(render(lines[0])) + RenderLines(lines[1..], render)
  }

  /** The blocks rendered for a summary text. */
  function SummaryBlocks(text: string): (blocks: seq<Block>)
    ensures |blocks| <= |Split(text, '\n')|
  {
    RenderLines(Split(text, '\n'), LineBlock)
  }

  /** The lines that are not blank, in their original order. */
  function NonBlankLines(lines: seq<string>): (kept: seq<string>)
    ensures |kept| <= |lines|
    ensures forall i :: 0 <= i < |kept| ==> kept[i] in lines && !IsBlank(kept[i])
    ensures forall line :: line in lines && !IsBlank(line) ==> line in kept
  {
    if lines == [] then []
    else (if IsBlank(lines[0]) then [] else [lines[0]]) + NonBlankLines(lines[1..])
  }

  /** Rendering distributes over concatenation of lines: no reordering, no interaction between lines. */
  lemma {:induction false} RenderLinesAppend(a: seq<string>, b: seq<string>, render: string -> Option<Block>)
    ensures RenderLines(a + b, render) == RenderLines(a, render) + RenderLines(b, render)
  {
    if a == [] {
      assert a + b == b;
    } else {
      assert (a + b)[0] == a[0];
      assert (a + b)[1..] == a[1..] + b;
      RenderLinesAppend(a[1..], b, render);
    }
  }

  /** A single line renders as its own block, or as nothing when blank. */
  lemma OneLineBlocks(line: string, render: string -> Option<Block>)
    ensures RenderLines([line], render) == Emit(render(line))
  {
    assert [line][1..] == [];
  }

  /** A line renderer that returns null exactly for blank lines. */
  ghost predicate DropsExactlyBlank(render: string -> Option<Block>) {
    forall line :: render(line).None? <==> IsBlank(line)
  }

  lemma LineBlockDropsExactlyBlank()
    ensures DropsExactlyBlank(LineBlock)
  {
    forall line ensures LineBlock(line).None? <==> IsBlank(line) {
      LineBlockCases(line);
    }
  }

  /** For a renderer that drops exactly the blank lines, the k-th block renders the k-th non-blank line. */
  lemma {:induction false} RenderFollowsNonBlankLines(lines: seq<string>, render: string -> Option<Block>)
    requires DropsExactlyBlank(render)
    ensures |RenderLines(lines, render)| == |NonBlankLines(lines)|
    ensures forall k :: 0 <= k < |RenderLines(lines, render)| ==>
      render(NonBlankLines(lines)[k]) == Some(RenderLines(lines, render)[k])
  {
    if lines != [] {
      var rest, keptRest := RenderLines(lines[1..], render), NonBlankLines(lines[1..]);
      RenderFollowsNonBlankLines(lines[1..], render);
      if IsBlank(lines[0]) {
        assert RenderLines(lines, render) == rest;
        assert NonBlankLines(lines) == keptRest;
      } else {
        var b := render(lines[0]).value;
        assert RenderLines(lines, render) == [b] + rest;
        assert NonBlankLines(lines) == [lines[0]] + keptRest;
        forall k | 1 <= k < |RenderLines(lines, render)|
          ensures render(NonBlankLines(lines)[k]) == Some(RenderLines(lines, render)[k])
        {
          assert RenderLines(lines, render)[k] == rest[k - 1];
          assert NonBlankLines(lines)[k] == keptRest[k - 1];
        }
      }
    }
  }

  /** The k-th block is the block of the k-th non-blank line, so there is one block per non-blank line, in line order. */
  lemma BlocksFollowNonBlankLines(lines: seq<string>)
    ensures |RenderLines(lines, LineBlock)| == |NonBlankLines(lines)|
    ensures forall k :: 0 <= k < |RenderLines(lines, LineBlock)| ==>
      LineBlock(NonBlankLines(lines)[k]) == Some(RenderLines(lines, LineBlock)[k])
  {
    LineBlockDropsExactlyBlank();
    RenderFollowsNonBlankLines(lines, LineBlock);
  }

  /** With no blank line, every line is kept. */
  lemma {:induction false} NoBlankLinesAllKept(lines: seq<string>)
    requires forall i :: 0 <= i < |lines| ==> !IsBlank(lines[i])
    ensures NonBlankLines(lines) == lines
  {
    if lines != [] {
      NoBlankLinesAllKept(lines[1..]);
    }
  }

  /** With no blank line, every line yields exactly one block. */
  lemma NoBlankLinesNoLoss(lines: seq<string>)
    requires forall i :: 0 <= i < |lines| ==> !IsBlank(lines[i])
    ensures |RenderLines(lines, LineBlock)| == |lines|
  {
    NoBlankLinesAllKept(lines);
    BlocksFollowNonBlankLines(lines);
  }

  /** Text holding no line break renders as the block of that single line. */
  lemma SingleLineText(text: string)
    requires '\n' !in text
    ensures SummaryBlocks(text) == Emit(LineBlock(text))
  {
    SplitAfterPlainPrefix(text, "", '\n');
    assert text + "" == text;
  }
}
