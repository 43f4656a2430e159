/** Text injection into a finished block of art: every anchor letter becomes a
    border glyph (`N`, `S` to `-`; `W`, `E` to `|`) and a label is centred on the
    middle line between its two border characters. There are two variants: the
    package's own (which hands back the art untouched for an empty label) and the
    script's (which always rebuilds the middle line, and truncates the label by
    reassigning it). Both read the same per-line transform. */
module Inject {
  import opened PyText

  /** One character of `replace("N","-").replace("S","-").replace("W","|").replace("E","|")`. */
  function CleanChar(c: char): char
  {
    if c == 'N' || c == 'S' then '-' else if c == 'W' || c == 'E' then '|' else c
  }

  /** The four chained replacements of one line. The glyphs written by an early
      replacement are never the target of a later one, so the chain acts
      character by character. */
  function CleanAnchors(line: string): (r: string)
    ensures |r| == |line|
    ensures forall i :: 0 <= i < |line| ==> r[i] == CleanChar(line[i])
    ensures forall i :: 0 <= i < |r| ==> r[i] !in {'N', 'S', 'W', 'E'}
  {
    ReplaceChar(ReplaceChar(ReplaceChar(ReplaceChar(line, 'N', '-'), 'S', '-'), 'W', '|'), 'E', '|')
  }

  /** The label between the borders: `total // 2` spaces, the label, then the
      rest of the `total = inner - len(label)` spaces (none when `total` is
      negative). */
  function Padded(t: string, inner: int): string
  {
    var total := inner - |t|;
    var padLeft := total / 2;
    Repeat(' ', padLeft) + t + Repeat(' ', total - padLeft)
  }

  /** The rebuilt middle line: the cleaned line's first character, the label cut
      to `len(line) - 2` (a negative bound counts from the end, as a Python slice
      does) and padded, then the cleaned line's last character. Indexing an
      empty line raises `IndexError`. */
  function CenterLine(clean: string, text: string): Outcome<string>
  {
    if clean == [] then Raised(IndexError)
    else Ok([clean[0]] + Padded(SliceTo(text, |clean| - 2), |clean| - 2) + [clean[|clean| - 1]])
  }

  /** The list `new_lines`: every line cleaned, the one at `len(lines) // 2`
      replaced by the rebuilt middle line. */
  function InjectedLines(lines: seq<string>, text: string): Outcome<seq<string>>
  {
    var cleaned := seq(|lines|, i requires 0 <= i < |lines| => CleanAnchors(lines[i]));
    var mid := |lines| / 2;
    if mid < |lines| then
      match CenterLine(cleaned[mid], text)
      case Ok(l) => Ok(cleaned[mid := l])
      case Raised(e) => Raised(e)
    else Ok(cleaned)
  }

  /** `"\n".join(new_lines)` of an outcome. */
  function Joined(r: Outcome<seq<string>>): Outcome<string>
  {
    match r
    case Ok(lines) => Ok(JoinLines(lines))
    case Raised(e) => Raised(e)
  }

  /** `inject_text` of the package: an empty label leaves the art as it is. */
  function InjectText(boxArt: string, text: string): Outcome<string>
  {
    if text == [] then Ok(boxArt) else Joined(InjectedLines(Lines(boxArt), text))
  }

  /** `inject_text` of the script: the middle line is rebuilt even for an empty label. */
  function InjectTextScript(boxArt: string, text: string): Outcome<string>
  {
    Joined(InjectedLines(Lines(boxArt), text))
  }

  // ---------------------------------------------------------------------------
  // What the injection promises.

  /** The padded label: the label after `total // 2` spaces, the remaining
      spaces (the same number or one more) after it, `inner` characters in all
      when the label fits. */
  lemma {:induction false} PaddedShape(t: string, inner: int)
    requires |t| <= inner
    ensures var p := Padded(t, inner);
            var left := (inner - |t|) / 2;
            |p| == inner && p[left .. left + |t|] == t &&
            (forall i :: 0 <= i < left ==> p[i] == ' ') &&
            (forall i :: left + |t| <= i < |p| ==> p[i] == ' ') &&
            left <= inner - |t| - left <= left + 1
  {
    var left := (inner - |t|) / 2;
    var p := Padded(t, inner);
    assert p[left .. left + |t|] == t;
  }

  /** The rebuilt middle line of a line with two border characters keeps its
      length and those two characters. The label it holds is the original cut
      to the inner width, and cut only when longer; it sits after `total // 2`
      spaces, and the right side gets the remaining spaces (the same number or
      one more). */
  lemma {:induction false} CenterLineShape(clean: string, text: string)
    requires |clean| >= 2
    ensures CenterLine(clean, text).Ok?
    ensures var r := CenterLine(clean, text).value;
            |r| == |clean| && r[0] == clean[0] && r[|r| - 1] == clean[|clean| - 1]
    ensures var inside := CenterLine(clean, text).value[1..|clean| - 1];
            var inner := |clean| - 2;
            var t := if |text| <= inner then text else text[..inner];
            var left := (inner - |t|) / 2;
            inside[left .. left + |t|] == t &&
            (forall i :: 0 <= i < left ==> inside[i] == ' ') &&
            (forall i :: left + |t| <= i < inner ==> inside[i] == ' ') &&
            left <= inner - |t| - left <= left + 1
  {
    var inner := |clean| - 2;
    var t := SliceTo(text, inner);
    assert t == if |text| <= inner then text else text[..inner];
    var p := Padded(t, inner);
    PaddedShape(t, inner);
    var r := [clean[0]] + p + [clean[|clean| - 1]];
    assert r[1..|clean| - 1] == p;
  }

  /** A one-character middle line: the inner width is `-1`, so the label loses its
      last character, no padding is added and the border character appears twice. */
  lemma {:induction false} CenterLineNarrow(c: char, text: string)
    ensures CenterLine([c], text) == Ok([c] + (if text == [] then [] else text[..|text| - 1]) + [c])
  {
    var t := SliceTo(text, -1);
    assert t == if text == [] then [] else text[..|text| - 1];
    var total := -1 - |t|;
    assert Repeat(' ', total / 2) == [] && Repeat(' ', total - total / 2) == [];
    assert Repeat(' ', total / 2) + t == t;
    assert Padded(t, -1) == t;
  }

  /** An empty middle line cannot be indexed: the injection raises `IndexError`. */
  lemma {:induction false} CenterLineEmptyRaises(text: string)
    ensures CenterLine([], text) == Raised(IndexError)
    ensures InjectTextScript("", text) == Raised(IndexError)
    ensures text != [] ==> InjectText("", text) == Raised(IndexError)
  {
    assert Lines("") == [""];
    assert CleanAnchors("") == "";
  }

  /** An empty label hands the art back untouched (package variant only). */
  lemma {:induction false} EmptyTextUnchanged(boxArt: string)
    ensures InjectText(boxArt, "") == Ok(boxArt)
  {
  }

  /** The script variant with an empty label still rewrites the middle line of
      a line with two border characters: border, spaces, border. */
  lemma {:induction false} ScriptEmptyText(clean: string)
    requires |clean| >= 2
    ensures CenterLine(clean, "") == Ok([clean[0]] + Repeat(' ', |clean| - 2) + [clean[|clean| - 1]])
  {
    var inner := |clean| - 2;
    var left := inner / 2;
    assert SliceTo("", inner) == "";
    assert Repeat(' ', left) + "" == Repeat(' ', left);
    RepeatAdd(' ', left, inner - left);
    assert Padded("", inner) == Repeat(' ', inner);
  }

  /** With a non-empty label the two variants agree. */
  lemma {:induction false} VariantsAgree(boxArt: string, text: string)
    requires text != []
    ensures InjectText(boxArt, text) == InjectTextScript(boxArt, text)
  {
  }

  /** Every line but the middle one is the original line cleaned; the list has
      one line per input line; the middle line is rebuilt from its cleaned form. */
  lemma {:induction false} InjectedLinesShape(lines: seq<string>, text: string)
    requires |lines| >= 1
    ensures var r := InjectedLines(lines, text);
            var mid := |lines| / 2;
            (r.Raised? <==> lines[mid] == []) &&
            (r.Ok? ==>
              |r.value| == |lines| &&
              (forall i :: 0 <= i < |lines| && i != mid ==> r.value[i] == CleanAnchors(lines[i])) &&
              Ok(r.value[mid]) == CenterLine(CleanAnchors(lines[mid]), text))
  {
  }

  lemma {:induction false} CenterLineNoNewline(clean: string, text: string)
    requires '\n' !in clean && '\n' !in text
    ensures CenterLine(clean, text).Ok? ==> '\n' !in CenterLine(clean, text).value
  {
    if clean != [] {
      var t := SliceTo(text, |clean| - 2);
      assert forall k :: 0 <= k < |t| ==> t[k] == text[k];
    }
  }

  lemma {:induction false} LinesFree(s: string)
    ensures forall i :: 0 <= i < |Lines(s)| ==> '\n' !in Lines(s)[i]
  {
    SplitPiecesFree(s, "\n");
    forall i | 0 <= i < |Lines(s)| ensures '\n' !in Lines(s)[i] {
      ContainsChar(Lines(s)[i], '\n');
    }
  }

  /** Lines without newlines, with a label without one, give injected lines
      that `"\n".join` and `split("\n")` give back. */
  lemma {:induction false} InjectedLinesSplitBack(src: seq<string>, text: string)
    requires |src| >= 1 && '\n' !in text
    requires forall i :: 0 <= i < |src| ==> '\n' !in src[i]
    requires InjectedLines(src, text).Ok?
    ensures var lines := InjectedLines(src, text).value;
            Lines(JoinLines(lines)) == lines && |lines| == |src|
  {
    var lines := InjectedLines(src, text).value;
    var mid := |src| / 2;
    InjectedLinesShape(src, text);
    forall i | 0 <= i < |lines| ensures '\n' !in lines[i] {
      CleanNoNewline(src[i]);
      if i == mid {
        CenterLineNoNewline(CleanAnchors(src[mid]), text);
      }
    }
    SplitJoinChar(lines, '\n');
  }

  lemma CleanNoNewline(line: string)
    requires '\n' !in line
    ensures '\n' !in CleanAnchors(line)
  {
    var r := CleanAnchors(line);
    forall i | 0 <= i < |r| ensures r[i] != '\n' {
      assert r[i] == CleanChar(line[i]);
    }
  }

  /** When the label holds no newline, the result splits back into exactly one
      line per line of the art. */
  lemma {:induction false} InjectKeepsLineCount(boxArt: string, text: string)
    requires '\n' !in text
    requires InjectTextScript(boxArt, text).Ok?
    ensures var lines := InjectedLines(Lines(boxArt), text).value;
            Lines(InjectTextScript(boxArt, text).value) == lines &&
            |lines| == |Lines(boxArt)|
  {
    var src := Lines(boxArt);
    LinesFree(boxArt);
    InjectedLinesSplitBack(src, text);
  }

  /** The package variant keeps the line count in the same way. */
  lemma {:induction false} InjectTextKeepsLineCount(boxArt: string, text: string)
    requires '\n' !in text && text != []
    requires InjectText(boxArt, text).Ok?
    ensures |Lines(InjectText(boxArt, text).value)| == |Lines(boxArt)|
  {
    InjectKeepsLineCount(boxArt, text);
  }

  /** The script's `inject_text`: one pass over the lines, appending each cleaned
      line, with the middle one rebuilt. */
  /** The first `n` entries of `a` and `b` agree, except perhaps at `skip`. */
  predicate AgreeExcept(a: seq<string>, b: seq<string>, n: nat, skip: nat)
  {
    n <= |a| && n <= |b| && forall k :: 0 <= k < n && k != skip ==> a[k] == b[k]
  }

  lemma AgreeExceptSnoc(a: seq<string>, b: seq<string>, n: nat, skip: nat, x: string)
    requires AgreeExcept(a, b, n, skip) && |a| == n && n < |b| && (n != skip ==> x == b[n])
    ensures AgreeExcept(a + [x], b, n + 1, skip)
  {
  }

  method InjectTextLoop(boxArt: string, text: string) returns (r: Outcome<string>)
    ensures r == InjectTextScript(boxArt, text)
  {
    var lines := Lines(boxArt);
    ghost var cleaned := seq(|lines|, k requires 0 <= k < |lines| => CleanAnchors(lines[k]));
    var newLines: seq<string> := [];
    var centerIdx := |lines| / 2;
    var i := 0;
    while i < |lines|
      invariant 0 <= i <= |lines|
      invariant |newLines| == i
      invariant AgreeExcept(newLines, cleaned, i, centerIdx)
      invariant centerIdx < i ==> CenterLine(cleaned[centerIdx], text) == Ok(newLines[centerIdx])
    {
      var cleanLine := CleanAnchors(lines[i]);
      assert cleanLine == cleaned[i];
      ghost var before := newLines;
      if i == centerIdx {
        var rebuilt := RebuildCenterLine(cleanLine, text);
        if rebuilt.Raised? {
          return Raised(rebuilt.error);
        }
        newLines := newLines + [rebuilt.value];
      } else {
        newLines := newLines + [cleanLine];
      }
      AgreeExceptSnoc(before, cleaned, i, centerIdx, newLines[i]);
      i := i + 1;
    }
    assert newLines == cleaned[centerIdx := newLines[centerIdx]];
    r := Ok(JoinLines(newLines));
  }

  /** The middle-line step of the script's loop: the label is cut (by
      reassigning it) only when it is longer than the inner width; the border
      characters are read last, and an empty line raises `IndexError` there. */
  method RebuildCenterLine(cleanLine: string, text: string) returns (r: Outcome<string>)
    ensures r == CenterLine(cleanLine, text)
  {
    var caption := text;
    var innerSpace := |cleanLine| - 2;
    if |caption| > innerSpace {
      caption := SliceTo(caption, innerSpace);
    }
    var paddingTotal := innerSpace - |caption|;
    var padLeft := paddingTotal / 2;
    var padRight := paddingTotal - padLeft;
    if cleanLine == [] {
      return Raised(IndexError);
    }
    assert caption == SliceTo(text, innerSpace);
    r := Ok([cleanLine[0]] + (Repeat(' ', padLeft) + caption + Repeat(' ', padRight)) + [cleanLine[|cleanLine| - 1]]);
  }
}
