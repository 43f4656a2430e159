/** The deterministic shape renderers: a label becomes a Box, SoftBox, Cylinder or
    "Saturn" Diamond block of text. All four share a greedy word wrap and
    CPython's `str.center`. Each renderer is a pure function giving its lines, and
    a method that builds them the way the source does, proved equal to it. */
module Renderers {
  import opened PyText

  /** The four shape kinds; each names one renderer. */
  datatype ShapeKind = Box | SoftBox | Cylinder | Diamond

  // ---------------------------------------------------------------------------
  // Word wrap.

  function JoinSpace(words: seq<string>): string
  {
    Join(" ", words)
  }

  /** The total length of the words. */
  function SumLen(words: seq<string>): nat
    decreases |words|
  {
    if words == [] then 0 else SumLen(words[..|words| - 1]) + |words[|words| - 1]|
  }

  function Flatten(groups: seq<seq<string>>): seq<string>
    decreases |groups|
  {
    if groups == [] then [] else Flatten(groups[..|groups| - 1]) + groups[|groups| - 1]
  }

  /** The words of every line, in order. */
  function WordsOfLines(lines: seq<string>): seq<string>
    decreases |lines|
  {
    if lines == [] then [] else WordsOfLines(lines[..|lines| - 1]) + SplitWords(lines[|lines| - 1])
  }

  /** The wrap loop's variables: the finished lines (as their word groups), the
      words of the line being filled, and the sum of their lengths. */
  datatype WrapState = WrapState(groups: seq<seq<string>>, current: seq<string>, currentLength: int)

  /** One iteration of the wrap loop. Adding `word` makes the current line
      `currentLength + len(word) + len(current)` long; when that exceeds the
      width the current line is closed (or, if it is empty, the word alone becomes
      a line of its own). */
  function WrapStep(st: WrapState, word: string, maxWidth: int): WrapState
  {
    if st.currentLength + |word| + |st.current| > maxWidth then
      if st.current != [] then WrapState(st.groups + [st.current], [word], |word|)
      else WrapState(st.groups + [[word]], st.current, st.currentLength)
    else WrapState(st.groups, st.current + [word], st.currentLength + |word|)
  }

  /** The wrap loop over the remaining `words`. */
  function WrapFrom(st: WrapState, words: seq<string>, maxWidth: int): WrapState
    decreases |words|
  {
    if words == [] then st else WrapFrom(WrapStep(st, words[0], maxWidth), words[1..], maxWidth)
  }

  /** The word groups of the finished wrap: the closed lines and the last one. */
  function WrapGroups(text: string, maxWidth: int): seq<seq<string>>
  {
    var st := WrapFrom(WrapState([], [], 0), SplitWords(text), maxWidth);
    st.groups + (if st.current != [] then [st.current] else [])
  }

  function JoinGroups(groups: seq<seq<string>>): (r: seq<string>)
    ensures |r| == |groups|
  {
    seq(|groups|, k requires 0 <= k < |groups| => JoinSpace(groups[k]))
  }

  /** `_wrap_text`: the greedy wrap, or `[text]` when the text has no word. */
  function Wrap(text: string, maxWidth: int): seq<string>
  {
    var lines := JoinGroups(WrapGroups(text, maxWidth));
    if lines == [] then [text] else lines
  }

  predicate GroupOk(g: seq<string>, maxWidth: int)
  {
    |g| >= 1 && (forall i :: 0 <= i < |g| ==> IsWord(g[i])) && (|JoinSpace(g)| <= maxWidth || |g| == 1)
  }

  predicate StateOk(st: WrapState, maxWidth: int)
  {
    (forall k :: 0 <= k < |st.groups| ==> GroupOk(st.groups[k], maxWidth)) &&
    (forall i :: 0 <= i < |st.current| ==> IsWord(st.current[i])) &&
    (st.current == [] || |JoinSpace(st.current)| <= maxWidth || |st.current| == 1) &&
    st.currentLength == SumLen(st.current)
  }

  lemma {:induction false} JoinSnoc(sep: string, g: seq<string>, w: string)
    requires |g| >= 1
    ensures Join(sep, g + [w]) == Join(sep, g) + sep + w
    decreases |g|
  {
    if |g| > 1 {
      assert (g + [w])[1..] == g[1..] + [w];
      JoinSnoc(sep, g[1..], w);
    }
  }

  lemma SumLenSnoc(g: seq<string>, w: string)
    ensures SumLen(g + [w]) == SumLen(g) + |w|
  {
    assert (g + [w])[..|g|] == g;
  }

  lemma FlattenSnoc(gs: seq<seq<string>>, g: seq<string>)
    ensures Flatten(gs + [g]) == Flatten(gs) + g
  {
    assert (gs + [g])[..|gs|] == gs;
  }

  /** Adding a word to a non-empty line adds a space and the word. */
  lemma JoinSpaceSnocLen(g: seq<string>, w: string)
    requires |g| >= 1 && |JoinSpace(g)| == SumLen(g) + |g| - 1
    ensures |JoinSpace(g + [w])| == SumLen(g + [w]) + |g + [w]| - 1
  {
    JoinSnoc(" ", g, w);
    SumLenSnoc(g, w);
  }

  /** What one step of the wrap loop keeps: the invariant of the state, the
      length of the current line, and every word so far, in order. */
  predicate StepKeeps(st: WrapState, st': WrapState, word: string, maxWidth: int)
  {
    StateOk(st', maxWidth) &&
    (st'.current != [] ==> |JoinSpace(st'.current)| == SumLen(st'.current) + |st'.current| - 1) &&
    Flatten(st'.groups) + st'.current == Flatten(st.groups) + st.current + [word]
  }

  lemma {:induction false} WrapCloseOk(st: WrapState, word: string, maxWidth: int)
    requires StateOk(st, maxWidth) && IsWord(word) && st.current != []
    ensures StepKeeps(st, WrapState(st.groups + [st.current], [word], |word|), word, maxWidth)
  {
    FlattenSnoc(st.groups, st.current);
    assert SumLen([word]) == |word| by { SumLenSnoc([], word); }
    assert JoinSpace([word]) == word;
  }

  lemma {:induction false} WrapAloneOk(st: WrapState, word: string, maxWidth: int)
    requires StateOk(st, maxWidth) && IsWord(word) && st.current == []
    ensures StepKeeps(st, WrapState(st.groups + [[word]], st.current, st.currentLength), word, maxWidth)
  {
    FlattenSnoc(st.groups, [word]);
    assert JoinSpace([word]) == word;
  }

  lemma {:induction false} WrapExtendOk(st: WrapState, word: string, maxWidth: int)
    requires StateOk(st, maxWidth) && IsWord(word)
    requires st.current != [] ==> |JoinSpace(st.current)| == SumLen(st.current) + |st.current| - 1
    requires st.currentLength + |word| + |st.current| <= maxWidth
    ensures StepKeeps(st, WrapState(st.groups, st.current + [word], st.currentLength + |word|), word, maxWidth)
  {
    var cur := st.current + [word];
    SumLenSnoc(st.current, word);
    if st.current == [] {
      assert cur == [word];
      assert JoinSpace([word]) == word;
    } else {
      JoinSpaceSnocLen(st.current, word);
    }
    forall i | 0 <= i < |cur| ensures IsWord(cur[i]) {
      if i < |st.current| {
        assert cur[i] == st.current[i];
      }
    }
    AppendAssoc(Flatten(st.groups), st.current, [word]);
  }

  lemma {:induction false} WrapStepOk(st: WrapState, word: string, maxWidth: int)
    requires StateOk(st, maxWidth) && IsWord(word)
    requires st.current != [] ==> |JoinSpace(st.current)| == SumLen(st.current) + |st.current| - 1
    ensures StepKeeps(st, WrapStep(st, word, maxWidth), word, maxWidth)
  {
    if st.currentLength + |word| + |st.current| > maxWidth {
      if st.current != [] {
        assert WrapStep(st, word, maxWidth) == WrapState(st.groups + [st.current], [word], |word|);
        WrapCloseOk(st, word, maxWidth);
      } else {
        assert WrapStep(st, word, maxWidth) == WrapState(st.groups + [[word]], st.current, st.currentLength);
        WrapAloneOk(st, word, maxWidth);
      }
    } else {
      assert WrapStep(st, word, maxWidth) == WrapState(st.groups, st.current + [word], st.currentLength + |word|);
      WrapExtendOk(st, word, maxWidth);
    }
  }

  lemma ConsWords(done: seq<string>, words: seq<string>)
    requires words != []
    ensures (done + [words[0]]) + words[1..] == done + words
  {
    assert words == [words[0]] + words[1..];
  }

  /** The wrap loop keeps every line within the width unless it is one word, and
      keeps every word, in order. */
  lemma {:induction false} WrapFromOk(st: WrapState, words: seq<string>, maxWidth: int)
    requires StateOk(st, maxWidth)
    requires st.current != [] ==> |JoinSpace(st.current)| == SumLen(st.current) + |st.current| - 1
    requires forall i :: 0 <= i < |words| ==> IsWord(words[i])
    ensures var r := WrapFrom(st, words, maxWidth);
            StateOk(r, maxWidth) &&
            Flatten(r.groups) + r.current == Flatten(st.groups) + st.current + words
    decreases |words|
  {
    if words != [] {
      var st1 := WrapStep(st, words[0], maxWidth);
      WrapStepOk(st, words[0], maxWidth);
      WrapFromOk(st1, words[1..], maxWidth);
      assert WrapFrom(st, words, maxWidth) == WrapFrom(st1, words[1..], maxWidth);
      var done := Flatten(st.groups) + st.current;
      assert Flatten(st1.groups) + st1.current == done + [words[0]];
      ConsWords(done, words);
    }
  }

  lemma WrapGroupsOk(text: string, maxWidth: int)
    ensures forall k :: 0 <= k < |WrapGroups(text, maxWidth)| ==> GroupOk(WrapGroups(text, maxWidth)[k], maxWidth)
    ensures Flatten(WrapGroups(text, maxWidth)) == SplitWords(text)
  {
    var st0 := WrapState([], [], 0);
    WrapFromOk(st0, SplitWords(text), maxWidth);
    var st := WrapFrom(st0, SplitWords(text), maxWidth);
    assert Flatten(st0.groups) + st0.current + SplitWords(text) == SplitWords(text);
    if st.current != [] {
      FlattenSnoc(st.groups, st.current);
      assert GroupOk(st.current, maxWidth);
      assert WrapGroups(text, maxWidth) == st.groups + [st.current];
    } else {
      assert WrapGroups(text, maxWidth) == st.groups;
      assert Flatten(st.groups) + st.current == Flatten(st.groups);
    }
  }

  lemma {:induction false} WordLenOfWord(w: string, rest: string)
    requires IsWord(w) && (rest == [] || IsSpace(rest[0]))
    ensures WordLen(w + rest) == |w|
    decreases |w|
  {
    assert (w + rest)[0] == w[0];
    if |w| > 1 {
      assert (w + rest)[1..] == w[1..] + rest;
      WordLenOfWord(w[1..], rest);
    } else {
      assert (w + rest)[1..] == rest;
    }
  }

  /** Splitting a line of words joined by single spaces gives the words back. */
  lemma {:induction false} SplitWordsJoinSpace(g: seq<string>)
    requires forall i :: 0 <= i < |g| ==> IsWord(g[i])
    ensures SplitWords(JoinSpace(g)) == g
    decreases |g|
  {
    if |g| == 1 {
      WordLenOfWord(g[0], []);
      assert g[0] + [] == g[0];
      assert g[0][|g[0]|..] == [];
    } else if |g| > 1 {
      var w := g[0];
      var rest := JoinSpace(g[1..]);
      var s := w + " " + rest;
      assert JoinSpace(g) == s;
      assert s == w + (" " + rest);
      WordLenOfWord(w, " " + rest);
      assert s[0] == w[0];
      assert s[..|w|] == w;
      assert s[|w|..] == " " + rest;
      assert (" " + rest)[1..] == rest;
      SplitWordsJoinSpace(g[1..]);
      assert [w] + g[1..] == g;
    }
  }

  lemma {:induction false} WordsOfJoinedGroups(gs: seq<seq<string>>)
    requires forall k :: 0 <= k < |gs| ==> forall i :: 0 <= i < |gs[k]| ==> IsWord(gs[k][i])
    ensures WordsOfLines(JoinGroups(gs)) == Flatten(gs)
    decreases |gs|
  {
    if gs != [] {
      var n := |gs| - 1;
      var lines := JoinGroups(gs);
      assert lines[..n] == JoinGroups(gs[..n]);
      assert lines[n] == JoinSpace(gs[n]);
      assert forall k :: 0 <= k < n ==> gs[..n][k] == gs[k];
      WordsOfJoinedGroups(gs[..n]);
      SplitWordsJoinSpace(gs[n]);
      assert WordsOfLines(lines) == WordsOfLines(lines[..n]) + SplitWords(lines[n]);
    }
  }

  lemma FlattenEmpty(gs: seq<seq<string>>)
    requires forall k :: 0 <= k < |gs| ==> |gs[k]| >= 1
    requires Flatten(gs) == []
    ensures gs == []
  {
  }

  /** `_wrap_text` never returns an empty list, and returns `[text]` exactly
      when the text has no word. */
  lemma WrapFallback(text: string, maxWidth: int)
    ensures |Wrap(text, maxWidth)| >= 1
    ensures Wrap(text, maxWidth) == [text] <== SplitWords(text) == []
    ensures SplitWords(text) != [] ==> Wrap(text, maxWidth) == JoinGroups(WrapGroups(text, maxWidth))
  {
    var gs := WrapGroups(text, maxWidth);
    WrapGroupsOk(text, maxWidth);
    if SplitWords(text) == [] {
      FlattenEmpty(gs);
    } else {
      assert gs != [];
    }
  }

  /** The wrapped lines hold the words of `text.split()`, every one, in order. */
  lemma WrapKeepsWords(text: string, maxWidth: int)
    requires SplitWords(text) != []
    ensures WordsOfLines(Wrap(text, maxWidth)) == SplitWords(text)
  {
    WrapFallback(text, maxWidth);
    WrapGroupsOk(text, maxWidth);
    WordsOfJoinedGroups(WrapGroups(text, maxWidth));
  }

  /** Every wrapped line fits in `maxWidth`, unless it is a single word that is
      longer. */
  lemma WrapLineWidths(text: string, maxWidth: int)
    requires SplitWords(text) != []
    ensures forall line :: line in Wrap(text, maxWidth) ==>
              |line| <= maxWidth || (IsWord(line) && |line| > maxWidth)
  {
    var gs := WrapGroups(text, maxWidth);
    WrapFallback(text, maxWidth);
    WrapGroupsOk(text, maxWidth);
    forall line | line in JoinGroups(gs)
      ensures |line| <= maxWidth || (IsWord(line) && |line| > maxWidth)
    {
      var k :| 0 <= k < |gs| && line == JoinSpace(gs[k]);
      assert GroupOk(gs[k], maxWidth);
      if |gs[k]| == 1 { assert JoinSpace(gs[k]) == gs[k][0]; }
    }
  }

  lemma {:induction false} JoinSpaceChars(g: seq<string>, c: char)
    requires forall i :: 0 <= i < |g| ==> c !in g[i]
    requires c != ' '
    ensures c !in JoinSpace(g)
    decreases |g|
  {
    if |g| > 1 {
      JoinSpaceChars(g[1..], c);
    }
  }

  /** A label with at least one word wraps to lines without newlines, so its
      art splits back into exactly the lines it was made of. */
  lemma WrapNoNewline(text: string, maxWidth: int)
    requires '\n' !in text || SplitWords(text) != []
    ensures forall k :: 0 <= k < |Wrap(text, maxWidth)| ==> '\n' !in Wrap(text, maxWidth)[k]
  {
    var gs := WrapGroups(text, maxWidth);
    WrapGroupsOk(text, maxWidth);
    WrapFallback(text, maxWidth);
    if SplitWords(text) == [] {
      return;
    }
    forall k | 0 <= k < |gs| ensures '\n' !in JoinSpace(gs[k]) {
      assert GroupOk(gs[k], maxWidth);
      forall i | 0 <= i < |gs[k]| ensures '\n' !in gs[k][i] {
        assert IsWord(gs[k][i]);
      }
      JoinSpaceChars(gs[k], '\n');
    }
  }

  /** `_wrap_text`, as the source writes it: one pass over the words. */
  method WrapText(text: string, maxWidth: int) returns (lines: seq<string>)
    ensures lines == Wrap(text, maxWidth)
  {
    var words := SplitWords(text);
    lines := [];
    var currentLine: seq<string> := [];
    var currentLength := 0;
    ghost var groups: seq<seq<string>> := [];
    ghost var final := WrapFrom(WrapState([], [], 0), words, maxWidth);
    for i := 0 to |words|
      invariant WrapFrom(WrapState(groups, currentLine, currentLength), words[i..], maxWidth) == final
      invariant lines == JoinGroups(groups)
    {
      var word := words[i];
      assert words[i..][1..] == words[i + 1..];
      if currentLength + |word| + |currentLine| > maxWidth {
        if currentLine != [] {
          lines := lines + [JoinSpace(currentLine)];
          groups := groups + [currentLine];
          currentLine := [word];
          currentLength := |word|;
        } else {
          // a word longer than the width, on a line of its own
          assert JoinSpace([word]) == word;
          lines := lines + [word];
          groups := groups + [[word]];
        }
      } else {
        currentLine := currentLine + [word];
        currentLength := currentLength + |word|;
      }
    }
    if currentLine != [] {
      lines := lines + [JoinSpace(currentLine)];
      groups := groups + [currentLine];
    }
    assert groups == WrapGroups(text, maxWidth);
    if lines == [] {
      lines := [text];
    }
  }

  // ---------------------------------------------------------------------------
  // Centering and measuring.

  /** `max(len(line) for line in lines)`, taken as 0 for no lines. */
  function MaxLen(lines: seq<string>): (m: nat)
    ensures forall i :: 0 <= i < |lines| ==> |lines[i]| <= m
    ensures lines != [] ==> exists i :: 0 <= i < |lines| && |lines[i]| == m
    decreases |lines|
  {
    if lines == [] then 0
    else
      var rest := MaxLen(lines[1..]);
      assert forall i :: 1 <= i < |lines| ==> lines[i] == lines[1..][i - 1];
      if |lines[0]| >= rest then |lines[0]| else rest
  }

  /** `_center_text`: every line passed through `str.center(width)`. */
  function CenterText(lines: seq<string>, width: int): (r: seq<string>)
    ensures |r| == |lines|
  {
    seq(|lines|, i requires 0 <= i < |lines| => Center(lines[i], width))
  }

  /** The left padding `str.center` uses: `marg // 2 + (marg & width & 1)`. */
  function CenterLeft(line: string, width: int): int
  {
    var marg := width - |line|;
    if marg <= 0 then 0 else marg / 2 + (if marg % 2 == 1 && width % 2 == 1 then 1 else 0)
  }

  /** `line.center(width)` is `max(width, len(line))` long and holds `line`
      after `CenterLeft` spaces, with only spaces on either side; the two sides
      differ by at most one. */
  lemma CenterPlacement(line: string, width: int)
    ensures var c := Center(line, width);
            var left := CenterLeft(line, width);
            |c| == (if width > |line| then width else |line|) &&
            0 <= left && left + |line| <= |c| && c[left..left + |line|] == line &&
            (forall i :: 0 <= i < left ==> c[i] == ' ') &&
            (forall i :: left + |line| <= i < |c| ==> c[i] == ' ') &&
            -1 <= (|c| - left - |line|) - left <= 1
  {
    var marg := width - |line|;
    if marg > 0 {
      var left := CenterLeft(line, width);
      var a := Repeat(' ', left);
      var b := Repeat(' ', marg - left);
      assert Center(line, width) == a + line + b;
      assert (a + line + b)[left..left + |line|] == line;
    } else {
      assert Center(line, width)[0..|line|] == line;
    }
  }

  /** Stripping a centred stripped line gives the line back. */
  lemma CenterStrip(line: string, width: int)
    requires IsStripped(line)
    ensures Strip(Center(line, width)) == line
  {
    var marg := width - |line|;
    if marg > 0 {
      var left := CenterLeft(line, width);
      var a := Repeat(' ', left);
      var b := Repeat(' ', marg - left);
      assert Center(line, width) == a + line + b;
      RepeatAllSpaces(left);
      RepeatAllSpaces(marg - left);
      StripPadded(a, line, b);
    } else {
      StrippedFixed(line);
    }
  }

  /** Each line with a left and a right border character. */
  function Framed(lines: seq<string>, left: char, right: char): (r: seq<string>)
    ensures |r| == |lines|
  {
    seq(|lines|, i requires 0 <= i < |lines| => [left] + lines[i] + [right])
  }

  /** The content width of the bordered shapes: the longest wrapped line plus the
      padding on both sides. */
  function ContentWidth(textLines: seq<string>, padding: int): int
  {
    MaxLen(textLines) + padding * 2
  }

  // ---------------------------------------------------------------------------
  // Box, SoftBox and Cylinder.

  /** The Box: a `+---+` border above and below the centred lines, `|` at the
      sides, and no blank interior rows. */
  function BoxLines(text: string, padding: int, maxWidth: int): seq<string>
  {
    var textLines := Wrap(text, maxWidth);
    var cw := ContentWidth(textLines, padding);
    var border := "+" + Repeat('-', cw) + "+";
    [border] + Framed(CenterText(textLines, cw), '|', '|') + [border]
  }

  /** The SoftBox: like the Box with `.` corners on top and `'` corners below. */
  function SoftBoxLines(text: string, padding: int, maxWidth: int): seq<string>
  {
    var textLines := Wrap(text, maxWidth);
    var cw := ContentWidth(textLines, padding);
    [ "." + Repeat('-', cw) + "."] + Framed(CenterText(textLines, cw), '|', '|') + ["'" + Repeat('-', cw) + "'"]
  }

  /** The Cylinder: a `.===.` lid, the centred lines, and a `\___/` base. The
      shoulder row the source prepares is never part of the output. */
  function CylinderLines(text: string, padding: int, maxWidth: int): seq<string>
  {
    var textLines := Wrap(text, maxWidth);
    var cw := ContentWidth(textLines, padding);
    [" ." + Repeat('=', cw - 2) + ". "] + Framed(CenterText(textLines, cw), '|', '|') + ["\\" + Repeat('_', cw) + "/"]
  }

  /** The rows between the lid and the base of the three bordered shapes. */
  lemma FramedRows(textLines: seq<string>, cw: int)
    requires MaxLen(textLines) <= cw
    ensures var rows := Framed(CenterText(textLines, cw), '|', '|');
            forall i :: 0 <= i < |rows| ==>
              |rows[i]| == cw + 2 && rows[i][0] == '|' && rows[i][cw + 1] == '|' &&
              rows[i][1..cw + 1] == CenterText(textLines, cw)[i]
  {
    var rows := Framed(CenterText(textLines, cw), '|', '|');
    forall i | 0 <= i < |rows|
      ensures |rows[i]| == cw + 2 && rows[i][0] == '|' && rows[i][cw + 1] == '|' &&
              rows[i][1..cw + 1] == CenterText(textLines, cw)[i]
    {
      assert |textLines[i]| <= MaxLen(textLines);
      assert rows[i] == ['|'] + Center(textLines[i], cw) + ['|'];
      FramedRow(textLines[i], cw);
    }
  }

  lemma FramedRow(line: string, cw: int)
    requires |line| <= cw
    ensures var row := ['|'] + Center(line, cw) + ['|'];
            |row| == cw + 2 && row[0] == '|' && row[cw + 1] == '|' && row[1..cw + 1] == Center(line, cw)
  {
    CenterPlacement(line, cw);
    var row := ['|'] + Center(line, cw) + ['|'];
    assert row[1..cw + 1] == Center(line, cw);
  }

  /** The three bordered shapes share their shape: a top row, the framed
      centred lines and a bottom row, all `content_width + 2` wide. */
  lemma BorderedGeometry(tl: seq<string>, padding: int, top: string, bottom: string)
    requires padding >= 0
    requires |top| == ContentWidth(tl, padding) + 2 && |bottom| == ContentWidth(tl, padding) + 2
    ensures var cw := ContentWidth(tl, padding);
            var ls := [top] + Framed(CenterText(tl, cw), '|', '|') + [bottom];
            |ls| == |tl| + 2 &&
            (forall i :: 0 <= i < |ls| ==> |ls[i]| == cw + 2) &&
            ls[0] == top && ls[|ls| - 1] == bottom &&
            forall i :: 1 <= i < |ls| - 1 ==>
              ls[i][0] == '|' && ls[i][cw + 1] == '|' && ls[i][1..cw + 1] == Center(tl[i - 1], cw)
  {
    var cw := ContentWidth(tl, padding);
    var centred := CenterText(tl, cw);
    var rows := Framed(centred, '|', '|');
    FramedRows(tl, cw);
    Bracketed(top, rows, bottom, cw, centred);
  }

  /** Rows of width `w + 2` between `|` borders, with a top and a bottom line
      of the same width. */
  lemma Bracketed(top: string, rows: seq<string>, bottom: string, w: nat, inner: seq<string>)
    requires |inner| == |rows| && |top| == w + 2 && |bottom| == w + 2
    requires forall i :: 0 <= i < |rows| ==>
      |rows[i]| == w + 2 && rows[i][0] == '|' && rows[i][w + 1] == '|' && rows[i][1..w + 1] == inner[i]
    ensures var ls := [top] + rows + [bottom];
            |ls| == |rows| + 2 &&
            (forall i :: 0 <= i < |ls| ==> |ls[i]| == w + 2) &&
            ls[0] == top && ls[|ls| - 1] == bottom &&
            forall i :: 1 <= i < |ls| - 1 ==>
              ls[i][0] == '|' && ls[i][w + 1] == '|' && ls[i][1..w + 1] == inner[i - 1]
  {
    var ls := [top] + rows + [bottom];
    assert forall i :: 1 <= i < |ls| - 1 ==> ls[i] == rows[i - 1];
  }

  /** Box geometry: `len(wrapped) + 2` lines, all `content_width + 2` wide, the
      same `+---+` border first and last, and every middle line a centred
      wrapped line between two `|`. */
  lemma BoxGeometry(text: string, padding: int, maxWidth: int)
    requires padding >= 0
    ensures var tl := Wrap(text, maxWidth);
            var cw := ContentWidth(tl, padding);
            var ls := BoxLines(text, padding, maxWidth);
            |ls| == |tl| + 2 &&
            (forall i :: 0 <= i < |ls| ==> |ls[i]| == cw + 2) &&
            ls[0] == "+" + Repeat('-', cw) + "+" && ls[|ls| - 1] == ls[0] &&
            forall i :: 1 <= i < |ls| - 1 ==>
              ls[i][0] == '|' && ls[i][cw + 1] == '|' && ls[i][1..cw + 1] == Center(tl[i - 1], cw)
  {
    var tl := Wrap(text, maxWidth);
    var cw := ContentWidth(tl, padding);
    var border := "+" + Repeat('-', cw) + "+";
    BorderedGeometry(tl, padding, border, border);
  }

  /** SoftBox geometry: the Box's line count and width, with `.` corners on the
      first line and `'` corners on the last. */
  lemma SoftBoxGeometry(text: string, padding: int, maxWidth: int)
    requires padding >= 0
    ensures var tl := Wrap(text, maxWidth);
            var cw := ContentWidth(tl, padding);
            var ls := SoftBoxLines(text, padding, maxWidth);
            |ls| == |BoxLines(text, padding, maxWidth)| &&
            (forall i :: 0 <= i < |ls| ==> |ls[i]| == cw + 2) &&
            ls[0] == "." + Repeat('-', cw) + "." && ls[|ls| - 1] == "'" + Repeat('-', cw) + "'" &&
            forall i :: 1 <= i < |ls| - 1 ==>
              ls[i][0] == '|' && ls[i][cw + 1] == '|' && ls[i][1..cw + 1] == Center(tl[i - 1], cw)
  {
    var tl := Wrap(text, maxWidth);
    var cw := ContentWidth(tl, padding);
    BorderedGeometry(tl, padding, "." + Repeat('-', cw) + ".", "'" + Repeat('-', cw) + "'");
  }

  /** Cylinder geometry: the Box's line count, a ` .===. ` lid and a `\___/`
      base, every line `content_width + 2` wide once the content width is at
      least 2 (it is at least `2 * padding`). */
  lemma CylinderGeometry(text: string, padding: int, maxWidth: int)
    requires padding >= 1
    ensures var tl := Wrap(text, maxWidth);
            var cw := ContentWidth(tl, padding);
            var ls := CylinderLines(text, padding, maxWidth);
            |ls| == |BoxLines(text, padding, maxWidth)| &&
            (forall i :: 0 <= i < |ls| ==> |ls[i]| == cw + 2) &&
            ls[0] == " ." + Repeat('=', cw - 2) + ". " && ls[|ls| - 1] == "\\" + Repeat('_', cw) + "/" &&
            forall i :: 1 <= i < |ls| - 1 ==>
              ls[i][0] == '|' && ls[i][cw + 1] == '|' && ls[i][1..cw + 1] == Center(tl[i - 1], cw)
  {
    var tl := Wrap(text, maxWidth);
    var cw := ContentWidth(tl, padding);
    BorderedGeometry(tl, padding, " ." + Repeat('=', cw - 2) + ". ", "\\" + Repeat('_', cw) + "/");
  }

  /** Appends `"|" + line + "|"` for every centred line, as the render loops do. */
  method AppendFramed(result0: seq<string>, centered: seq<string>) returns (result: seq<string>)
    ensures result == result0 + Framed(centered, '|', '|')
  {
    result := result0;
    for k := 0 to |centered|
      invariant result == result0 + Framed(centered[..k], '|', '|')
    {
      assert Framed(centered[..k + 1], '|', '|') == Framed(centered[..k], '|', '|') + ["|" + centered[k] + "|"];
      result := result + ["|" + centered[k] + "|"];
    }
    assert centered[..|centered|] == centered;
  }

  /** `BoxRenderer.render`. */
  method BoxRender(text: string, padding: int, maxWidth: int) returns (art: string)
    ensures art == JoinLines(BoxLines(text, padding, maxWidth))
  {
    var textLines := WrapText(text, maxWidth);
    var contentWidth := MaxLen(textLines) + padding * 2;
    var border := "+" + Repeat('-', contentWidth) + "+";
    var result := [border];
    result := AppendFramed(result, CenterText(textLines, contentWidth));
    result := result + [border];
    art := JoinLines(result);
  }

  /** `SoftBoxRenderer.render`. */
  method SoftBoxRender(text: string, padding: int, maxWidth: int) returns (art: string)
    ensures art == JoinLines(SoftBoxLines(text, padding, maxWidth))
  {
    var textLines := WrapText(text, maxWidth);
    var contentWidth := MaxLen(textLines) + padding * 2;
    var top := "." + Repeat('-', contentWidth) + ".";
    var bottom := "'" + Repeat('-', contentWidth) + "'";
    var result := [top];
    result := AppendFramed(result, CenterText(textLines, contentWidth));
    result := result + [bottom];
    art := JoinLines(result);
  }

  /** `CylinderRenderer.render`. */
  method CylinderRender(text: string, padding: int, maxWidth: int) returns (art: string)
    ensures art == JoinLines(CylinderLines(text, padding, maxWidth))
  {
    var textLines := WrapText(text, maxWidth);
    var contentWidth := MaxLen(textLines) + padding * 2;
    var top := " ." + Repeat('=', contentWidth - 2) + ". ";
    var bodyBottom := "\\" + Repeat('_', contentWidth) + "/";
    var result := [top];
    result := AppendFramed(result, CenterText(textLines, contentWidth));
    result := result + [bodyBottom];
    art := JoinLines(result);
  }

  // ---------------------------------------------------------------------------
  // The "Saturn" Diamond.

  const CONE_HEIGHT: nat := 3

  /** The odd total width: `max(longest line, 7) + 2`, plus one when even. */
  function DiamondWidth(textLines: seq<string>): int
  {
    var w := (if MaxLen(textLines) > CONE_HEIGHT * 2 + 1 then MaxLen(textLines) else CONE_HEIGHT * 2 + 1) + 2;
    if w % 2 == 0 then w + 1 else w
  }

  /** A cone line: `i*2 + 1` spaces between two slope glyphs, indented so that
      the glyphs sit at `center - (i + 1)` and `center + (i + 1)`. */
  function ConeLine(center: int, i: int, left: char, right: char): string
  {
    Repeat(' ', center - (i + 1)) + [left] + Repeat(' ', i * 2 + 1) + [right]
  }

  /** The tip and the three up-slopes. */
  function TopCone(center: int): seq<string>
  {
    [Repeat(' ', center) + "^"] + seq(CONE_HEIGHT, i requires 0 <= i < CONE_HEIGHT => ConeLine(center, i, '/', '\\'))
  }

  /** The three down-slopes, widest first, and the bottom tip. */
  function BottomCone(center: int): seq<string>
  {
    seq(CONE_HEIGHT, k requires 0 <= k < CONE_HEIGHT => ConeLine(center, CONE_HEIGHT - 1 - k, '\\', '/')) +
    [Repeat(' ', center) + "v"]
  }

  /** The text ring: every wrapped line indented by `center - len(line) // 2`. */
  function DiamondBody(textLines: seq<string>, center: int): (r: seq<string>)
    ensures |r| == |textLines|
  {
    seq(|textLines|, i requires 0 <= i < |textLines| => Repeat(' ', center - |textLines[i]| / 2) + textLines[i])
  }

  function DiamondLines(text: string, maxWidth: int): seq<string>
  {
    var textLines := Wrap(text, maxWidth);
    var center := DiamondWidth(textLines) / 2;
    TopCone(center) + DiamondBody(textLines, center) + BottomCone(center)
  }

  /** A cone line is `center + i + 2` long, with its two glyphs at
      `center - (i + 1)` and `center + (i + 1)` and spaces everywhere else. */
  lemma ConeLineShape(center: int, i: nat, left: char, right: char)
    requires center >= i + 1
    ensures var l := ConeLine(center, i, left, right);
            |l| == center + i + 2 && l[center - (i + 1)] == left && l[center + i + 1] == right &&
            forall k :: 0 <= k < |l| && k != center - (i + 1) && k != center + i + 1 ==> l[k] == ' '
  {
    var l := ConeLine(center, i, left, right);
    var p := Repeat(' ', center - (i + 1));
    var m := Repeat(' ', i * 2 + 1);
    assert l == p + [left] + m + [right];
    forall k | 0 <= k < |l| && k != center - (i + 1) && k != center + i + 1 ensures l[k] == ' ' {
      if k < center - (i + 1) { assert l[k] == p[k]; } else { assert l[k] == m[k - center + i]; }
    }
  }

  /** The Diamond's total width is odd and at least `max(longest line, 7) + 2`,
      so its centre column is at least 4 and every left padding in the caps and
      the text ring is non-negative. */
  lemma DiamondWidthBounds(textLines: seq<string>)
    ensures var tw := DiamondWidth(textLines);
            tw % 2 == 1 && tw >= (if MaxLen(textLines) > 7 then MaxLen(textLines) else 7) + 2 &&
            tw / 2 >= CONE_HEIGHT + 1 &&
            forall i :: 0 <= i < |textLines| ==> tw / 2 - |textLines[i]| / 2 >= 1
  {
  }

  /** The top cap: the `^` tip at the centre column, then the up-slopes
      `/ \`, `/   \`, `/     \` opening one column further on each side. */
  lemma TopConeShape(center: int)
    requires center >= CONE_HEIGHT + 1
    ensures var top := TopCone(center);
            |top| == CONE_HEIGHT + 1 && |top[0]| == center + 1 && top[0][center] == '^' &&
            forall i :: 1 <= i < |top| ==>
              |top[i]| == center + i + 1 && top[i][center - i] == '/' && top[i][center + i] == '\\'
  {
    var top := TopCone(center);
    assert top[0] == Repeat(' ', center) + "^";
    forall i | 1 <= i < |top|
      ensures |top[i]| == center + i + 1 && top[i][center - i] == '/' && top[i][center + i] == '\\'
    {
      ConeLineShape(center, i - 1, '/', '\\');
    }
  }

  /** The bottom cap: the down-slopes from the widest in, then the `v` tip at
      the centre column, mirroring the top cap. */
  lemma BottomConeShape(center: int)
    requires center >= CONE_HEIGHT + 1
    ensures var bottom := BottomCone(center);
            |bottom| == CONE_HEIGHT + 1 &&
            |bottom[CONE_HEIGHT]| == center + 1 && bottom[CONE_HEIGHT][center] == 'v' &&
            forall i :: 0 <= i < CONE_HEIGHT ==>
              TopCone(center)[CONE_HEIGHT - i] == ConeLine(center, CONE_HEIGHT - 1 - i, '/', '\\') &&
              bottom[i] == ConeLine(center, CONE_HEIGHT - 1 - i, '\\', '/')
  {
  }

  /** The text ring: each wrapped line, unchanged, after
      `center - len(line) // 2` spaces. */
  lemma DiamondBodyShape(textLines: seq<string>, center: int)
    requires forall i :: 0 <= i < |textLines| ==> center - |textLines[i]| / 2 >= 0
    ensures var body := DiamondBody(textLines, center);
            forall i :: 0 <= i < |body| ==>
              var pad := center - |textLines[i]| / 2;
              |body[i]| == pad + |textLines[i]| && body[i][pad..] == textLines[i] &&
              forall k :: 0 <= k < pad ==> body[i][k] == ' '
  {
    var body := DiamondBody(textLines, center);
    forall i | 0 <= i < |body|
      ensures var pad := center - |textLines[i]| / 2;
              |body[i]| == pad + |textLines[i]| && body[i][pad..] == textLines[i] &&
              forall k :: 0 <= k < pad ==> body[i][k] == ' '
    {
      var pad := center - |textLines[i]| / 2;
      assert body[i] == Repeat(' ', pad) + textLines[i];
    }
  }

  /** The Diamond has `len(wrapped) + 8` lines: two caps of four around the text ring. */
  lemma DiamondLineCount(text: string, maxWidth: int)
    ensures |DiamondLines(text, maxWidth)| == |Wrap(text, maxWidth)| + 2 * (CONE_HEIGHT + 1)
  {
  }

  /** `DiamondRenderer.render`: the top cone, the bottom cone (from the widest
      slope down) and the body, then joined top, body, bottom. */
  method DiamondRender(text: string, maxWidth: int) returns (art: string)
    ensures art == JoinLines(DiamondLines(text, maxWidth))
  {
    var textLines := WrapText(text, maxWidth);
    var maxTextWidth := MaxLen(textLines);
    var coneHeight := CONE_HEIGHT;
    var coneBaseWidth := coneHeight * 2 + 1;
    var totalWidth := (if maxTextWidth > coneBaseWidth then maxTextWidth else coneBaseWidth) + 2;
    if totalWidth % 2 == 0 {
      totalWidth := totalWidth + 1;
    }
    var centerIdx := totalWidth / 2;
    var topCone := BuildTopCone(centerIdx);
    var bottomCone := BuildBottomCone(centerIdx);
    var body := BuildDiamondBody(textLines, centerIdx);
    art := JoinLines(topCone + body + bottomCone);
  }

  /** The top-cone loop of `DiamondRenderer.render`. */
  method BuildTopCone(centerIdx: int) returns (topCone: seq<string>)
    ensures topCone == TopCone(centerIdx)
  {
    topCone := [Repeat(' ', centerIdx) + "^"];
    for i := 0 to CONE_HEIGHT
      invariant topCone == [Repeat(' ', centerIdx) + "^"] + seq(i, k requires 0 <= k < i => ConeLine(centerIdx, k, '/', '\\'))
    {
      var line := "/" + Repeat(' ', i * 2 + 1) + "\\";
      var paddingLeft := centerIdx - (i + 1);
      assert Repeat(' ', paddingLeft) + line == ConeLine(centerIdx, i, '/', '\\');
      topCone := topCone + [Repeat(' ', paddingLeft) + line];
    }
  }

  /** The bottom-cone loop of `DiamondRenderer.render`, `i` running down from
      `cone_height - 1` to 0, then the bottom tip. */
  method BuildBottomCone(centerIdx: int) returns (bottomCone: seq<string>)
    ensures bottomCone == BottomCone(centerIdx)
  {
    bottomCone := [];
    var i: int := CONE_HEIGHT - 1;
    while i >= 0
      invariant -1 <= i <= CONE_HEIGHT - 1
      invariant bottomCone == seq(CONE_HEIGHT - 1 - i, k requires 0 <= k < CONE_HEIGHT - 1 - i =>
                                    ConeLine(centerIdx, CONE_HEIGHT - 1 - k, '\\', '/'))
    {
      var line := "\\" + Repeat(' ', i * 2 + 1) + "/";
      var paddingLeft := centerIdx - (i + 1);
      assert Repeat(' ', paddingLeft) + line == ConeLine(centerIdx, i, '\\', '/');
      bottomCone := bottomCone + [Repeat(' ', paddingLeft) + line];
      i := i - 1;
    }
    bottomCone := bottomCone + [Repeat(' ', centerIdx) + "v"];
  }

  /** The body loop of `DiamondRenderer.render`. */
  method BuildDiamondBody(textLines: seq<string>, centerIdx: int) returns (body: seq<string>)
    ensures body == DiamondBody(textLines, centerIdx)
  {
    body := [];
    for k := 0 to |textLines|
      invariant body == DiamondBody(textLines[..k], centerIdx)
    {
      var line := textLines[k];
      var paddingLeft := centerIdx - |line| / 2;
      body := body + [Repeat(' ', paddingLeft) + line];
    }
    assert textLines[..|textLines|] == textLines;
  }

  // ---------------------------------------------------------------------------
  // The art as lines.

  predicate NoNewline(lines: seq<string>)
  {
    forall i :: 0 <= i < |lines| ==> '\n' !in lines[i]
  }

  lemma CenterNoNewline(line: string, width: int)
    requires '\n' !in line
    ensures '\n' !in Center(line, width)
  {
    var marg := width - |line|;
    if marg > 0 {
      var left := CenterLeft(line, width);
      assert Center(line, width) == Repeat(' ', left) + line + Repeat(' ', marg - left);
    }
  }

  lemma FramedNoNewline(textLines: seq<string>, cw: int)
    requires NoNewline(textLines)
    ensures NoNewline(Framed(CenterText(textLines, cw), '|', '|'))
  {
    forall i | 0 <= i < |textLines| ensures '\n' !in ['|'] + Center(textLines[i], cw) + ['|'] {
      CenterNoNewline(textLines[i], cw);
    }
  }

  lemma BorderedNoNewline(top: string, textLines: seq<string>, cw: int, bottom: string)
    requires '\n' !in top && '\n' !in bottom && NoNewline(textLines)
    ensures NoNewline([top] + Framed(CenterText(textLines, cw), '|', '|') + [bottom])
  {
    FramedNoNewline(textLines, cw);
  }

  lemma RepeatNoNewline(c: char, n: int)
    requires c != '\n'
    ensures '\n' !in Repeat(c, n)
  {
  }

  lemma ConeNoNewline(center: int)
    ensures NoNewline(TopCone(center)) && NoNewline(BottomCone(center))
  {
    RepeatNoNewline(' ', center);
    forall i | 0 <= i < CONE_HEIGHT
      ensures '\n' !in ConeLine(center, i, '/', '\\') && '\n' !in ConeLine(center, i, '\\', '/')
    {
      RepeatNoNewline(' ', center - (i + 1));
      RepeatNoNewline(' ', i * 2 + 1);
    }
  }

  lemma BodyNoNewline(textLines: seq<string>, center: int)
    requires NoNewline(textLines)
    ensures NoNewline(DiamondBody(textLines, center))
  {
    forall i | 0 <= i < |textLines| ensures '\n' !in Repeat(' ', center - |textLines[i]| / 2) + textLines[i] {
      RepeatNoNewline(' ', center - |textLines[i]| / 2);
    }
  }

  lemma DiamondNoNewline(text: string, maxWidth: int)
    requires '\n' !in text || SplitWords(text) != []
    ensures NoNewline(DiamondLines(text, maxWidth))
  {
    var tl := Wrap(text, maxWidth);
    WrapNoNewline(text, maxWidth);
    var c := DiamondWidth(tl) / 2;
    BodyNoNewline(tl, c);
    ConeNoNewline(c);
    assert DiamondLines(text, maxWidth) == TopCone(c) + DiamondBody(tl, c) + BottomCone(c);
  }

  lemma BoxNoNewline(text: string, padding: int, maxWidth: int)
    requires '\n' !in text || SplitWords(text) != []
    ensures NoNewline(BoxLines(text, padding, maxWidth)) && |BoxLines(text, padding, maxWidth)| >= 3
  {
    var tl := Wrap(text, maxWidth);
    WrapNoNewline(text, maxWidth);
    WrapFallback(text, maxWidth);
    var cw := ContentWidth(tl, padding);
    RepeatNoNewline('-', cw);
    BorderedNoNewline("+" + Repeat('-', cw) + "+", tl, cw, "+" + Repeat('-', cw) + "+");
  }

  lemma SoftBoxNoNewline(text: string, padding: int, maxWidth: int)
    requires '\n' !in text || SplitWords(text) != []
    ensures NoNewline(SoftBoxLines(text, padding, maxWidth)) && |SoftBoxLines(text, padding, maxWidth)| >= 3
  {
    var tl := Wrap(text, maxWidth);
    WrapNoNewline(text, maxWidth);
    WrapFallback(text, maxWidth);
    var cw := ContentWidth(tl, padding);
    RepeatNoNewline('-', cw);
    BorderedNoNewline("." + Repeat('-', cw) + ".", tl, cw, "'" + Repeat('-', cw) + "'");
  }

  lemma CylinderNoNewline(text: string, padding: int, maxWidth: int)
    requires '\n' !in text || SplitWords(text) != []
    ensures NoNewline(CylinderLines(text, padding, maxWidth)) && |CylinderLines(text, padding, maxWidth)| >= 3
  {
    var tl := Wrap(text, maxWidth);
    WrapNoNewline(text, maxWidth);
    WrapFallback(text, maxWidth);
    var cw := ContentWidth(tl, padding);
    var lid := " ." + Repeat('=', cw - 2) + ". ";
    var base := "\\" + Repeat('_', cw) + "/";
    RepeatNoNewline('=', cw - 2);
    RepeatNoNewline('_', cw);
    assert '\n' !in lid && '\n' !in base;
    BorderedNoNewline(lid, tl, cw, base);
    assert CylinderLines(text, padding, maxWidth) == [lid] + Framed(CenterText(tl, cw), '|', '|') + [base];
  }

  lemma ShapeLinesClean(kind: ShapeKind, text: string)
    requires '\n' !in text || SplitWords(text) != []
    ensures NoNewline(ShapeLines(kind, text)) && |ShapeLines(kind, text)| >= 3
  {
    match kind {
      case Box => BoxNoNewline(text, 2, 20);
      case SoftBox => SoftBoxNoNewline(text, 2, 20);
      case Cylinder => CylinderNoNewline(text, 2, 20);
      case Diamond =>
        DiamondNoNewline(text, 15);
        WrapFallback(text, 15);
        DiamondLineCount(text, 15);
    }
  }

  /** A label with a word gives art in which no line holds a newline, with at
      least three lines: the art splits back into exactly these lines. */
  lemma ShapeLinesNoNewline(kind: ShapeKind, text: string)
    requires '\n' !in text || SplitWords(text) != []
    ensures NoNewline(ShapeLines(kind, text)) && |ShapeLines(kind, text)| >= 3
    ensures Lines(JoinLines(ShapeLines(kind, text))) == ShapeLines(kind, text)
  {
    ShapeLinesClean(kind, text);
    SplitJoinChar(ShapeLines(kind, text), '\n');
  }

  // ---------------------------------------------------------------------------
  // Dispatch.

  /** `get_renderer`: the renderer for a shape name, compared after upper-casing;
      any other name gets the Box renderer. */
  function GetRenderer(shapeType: string): (r: ShapeKind)
  {
    var u := Upper(shapeType);
    if u == "SOFTBOX" then SoftBox
    else if u == "CYLINDER" then Cylinder
    else if u == "DIAMOND" then Diamond
    else Box
  }

  /** The lookup ignores case, and every name that is not one of the four
      upper-cased shape names gets the Box renderer. */
  lemma GetRendererCaseInsensitive(shapeType: string)
    ensures GetRenderer(Upper(shapeType)) == GetRenderer(shapeType)
    ensures GetRenderer(shapeType) == Box <==> Upper(shapeType) !in {"SOFTBOX", "CYLINDER", "DIAMOND"}
  {
    UpperIdempotent(shapeType);
  }

  /** The art a renderer produces with its default parameters (`padding = 2`,
      `max_width = 20`; the Diamond's `max_width = 15`). */
  function ShapeLines(kind: ShapeKind, text: string): seq<string>
  {
    match kind
    case Box => BoxLines(text, 2, 20)
    case SoftBox => SoftBoxLines(text, 2, 20)
    case Cylinder => CylinderLines(text, 2, 20)
    case Diamond => DiamondLines(text, 15)
  }

  /** `renderer.render(text)` with the default parameters. */
  method RenderShape(kind: ShapeKind, text: string) returns (art: string)
    ensures art == JoinLines(ShapeLines(kind, text))
  {
    match kind {
      case Box => art := BoxRender(text, 2, 20);
      case SoftBox => art := SoftBoxRender(text, 2, 20);
      case Cylinder => art := CylinderRender(text, 2, 20);
      case Diamond => art := DiamondRender(text, 15);
    }
  }
}
