/** The V18 text protocol between the dataset factories and the language model:
    every line of art travels as `<Lnn> [S:00] line`, a completion ends with
    ` [STOP]`, and the engine's cleaning pass (`_clean_v18`) turns the model's
    raw text back into art. */
module Decoder {
  import opened PyText

  const STOP: string := "[STOP]"
  /** The tag of the first line, where the art begins. */
  const FIRST_TAG: string := "<L01>"
  const LINE_OPEN: string := "<L"
  const SPACE_OPEN: string := "[S:"
  /** The spacing token the factories write on every line. */
  const S_TOKEN: string := "[S:00]"
  /** The transparency marker the model emits for a blank cell. */
  const MARKER: char := '░'
  /** U+FFFD, what a broken encoding leaves behind. */
  const REPLACEMENT: char := '\U{FFFD}'

  // ---------------------------------------------------------------------------
  // Encoding (`format_hybrid_v18` and the completion the factories write).

  /** `f"<L{idx+1:02d}>"`. */
  function LineTag(idx: nat): string
  {
    LINE_OPEN + ZeroPad2(idx + 1) + ">"
  }

  /** `format_hybrid_v18(line, idx)`: the line tag, the spacing token, the line. */
  function FormatHybrid(line: string, idx: nat): string
  {
    LineTag(idx) + " " + S_TOKEN + " " + line
  }

  /** `[format_hybrid_v18(l, i) for i, l in enumerate(lines)]`. */
  function Formatted(lines: seq<string>): (r: seq<string>)
    ensures |r| == |lines|
  {
    seq(|lines|, i requires 0 <= i < |lines| => FormatHybrid(lines[i], i))
  }

  /** `"\n".join(comp_lines) + " [STOP]"`. */
  function Completion(lines: seq<string>): string
  {
    JoinLines(Formatted(lines)) + " " + STOP
  }

  // ---------------------------------------------------------------------------
  // Decoding (`_clean_v18`), stage by stage.

  /** `raw_text.split("[STOP]")[0]`. */
  function Truncate(raw: string): string
  {
    SplitOn(raw, STOP)[0]
  }

  /** `content.replace(prompt, "")`; an empty prompt leaves the text as it is. */
  function DropPrompt(content: string, prompt: string): string
  {
    if prompt == [] then content else ReplaceAll(content, prompt, "")
  }

  /** From the first `<L01>` on when there is one, otherwise without the prompt. */
  function Extract(content: string, prompt: string): string
  {
    if Contains(content, FIRST_TAG) then FIRST_TAG + AfterFirst(content, FIRST_TAG)
    else DropPrompt(content, prompt)
  }

  /** The character rewrites: spaces dropped, the marker shown as a space,
      U+FFFD shown as `+`. */
  function ScrubChars(s: string): string
  {
    ReplaceChar(ReplaceChar(RemoveChar(s, ' '), MARKER, ' '), REPLACEMENT, '+')
  }

  /** The two `re.sub` passes: line tags, then spacing tokens. */
  function StripTags(s: string): string
  {
    RemoveTags(RemoveTags(s, LINE_OPEN, '>'), SPACE_OPEN, ']')
  }

  /** `_clean_v18(raw_text, prompt)`. */
  function CleanV18(raw: string, prompt: string): string
  {
    Strip(StripTags(ScrubChars(Extract(Truncate(raw), prompt))))
  }

  /** What a line of art looks like after the character rewrites. */
  function Shown(line: string): string
  {
    ReplaceChar(ReplaceChar(line, MARKER, ' '), REPLACEMENT, '+')
  }

  function ShownLines(lines: seq<string>): (r: seq<string>)
    ensures |r| == |lines|
  {
    seq(|lines|, i requires 0 <= i < |lines| => Shown(lines[i]))
  }

  // ---------------------------------------------------------------------------
  // Properties of each stage.

  /** The kept text is everything before the first `[STOP]`. */
  lemma {:induction false} TruncateShape(raw: string)
    ensures Truncate(raw) <= raw && !Contains(Truncate(raw), STOP)
    ensures |Truncate(raw)| < |raw| ==> STOP <= raw[|Truncate(raw)|..]
  {
    SplitFirstShape(raw, STOP);
  }

  lemma {:induction false} TruncateAtStop(a: string, b: string)
    requires !Contains(a, STOP)
    ensures Truncate(a + STOP + b) == a && Truncate(a) == a
  {
    SplitFirstAppend(a, STOP, b);
    SplitOnFree(a, STOP);
  }

  /** Whatever follows the first `[STOP]` has no effect on the result. */
  lemma {:induction false} CleanIgnoresAfterStop(a: string, b: string, prompt: string)
    requires !Contains(a, STOP)
    ensures CleanV18(a + STOP + b, prompt) == CleanV18(a, prompt)
  {
    TruncateAtStop(a, b);
  }

  /** Everything before the first `<L01>`, the echoed prompt included, is dropped. */
  lemma {:induction false} ExtractFromFirstTag(a: string, b: string, prompt: string)
    requires !Contains(a, FIRST_TAG)
    ensures Extract(a + FIRST_TAG + b, prompt) == FIRST_TAG + b
  {
    AfterFirstAppend(a, FIRST_TAG, b);
  }

  /** Once the text holds `<L01>` and no `[STOP]`, the prompt plays no part. */
  lemma {:induction false} CleanFromFirstTag(a: string, b: string, prompt: string, other: string)
    requires !Contains(a, FIRST_TAG) && !Contains(a + FIRST_TAG + b, STOP)
    ensures CleanV18(a + FIRST_TAG + b, prompt) == CleanV18(FIRST_TAG + b, other)
  {
    var s := a + FIRST_TAG + b;
    assert s[|a|..] == FIRST_TAG + b;
    if Contains(FIRST_TAG + b, STOP) {
      ContainsInSuffix(s, |a|, STOP);
    }
    TruncateAtStop(s, "");
    TruncateAtStop(FIRST_TAG + b, "");
    ExtractFromFirstTag(a, b, prompt);
    ExtractFromFirstTag([], b, other);
    assert [] + FIRST_TAG + b == FIRST_TAG + b;
  }

  /** Without a line tag, a leading copy of the prompt is removed... */
  lemma {:induction false} DropPromptLeading(prompt: string, content: string)
    requires prompt != []
    ensures DropPrompt(prompt + content, prompt) == DropPrompt(content, prompt)
  {
    var s := prompt + content;
    assert prompt <= s && s[|prompt|..] == content;
  }

  /** ...and a text that does not hold the prompt is left alone. */
  lemma {:induction false} DropPromptFree(content: string, prompt: string)
    requires !Contains(content, prompt)
    ensures DropPrompt(content, prompt) == content
  {
    if prompt != [] {
      ReplaceAllFree(content, prompt, "");
    }
  }

  /** Every character the extraction keeps, apart from the tag it adds, is from
      the text. */
  lemma {:induction false} ExtractChars(content: string, prompt: string)
    ensures forall x :: x in Extract(content, prompt) && x !in FIRST_TAG ==> x in content
  {
    if !Contains(content, FIRST_TAG) && prompt != [] {
      ReplaceAllEmptyChars(content, prompt);
    }
  }

  lemma {:induction false} ExtractKeepsMarker(content: string, prompt: string)
    ensures MARKER in Extract(content, prompt) ==> MARKER in content
  {
    ExtractChars(content, prompt);
    assert MARKER !in FIRST_TAG;
  }

  /** After the rewrites no marker and no U+FFFD is left, and every space stands
      for a marker. */
  lemma {:induction false} ScrubCharsShape(s: string)
    ensures MARKER !in ScrubChars(s) && REPLACEMENT !in ScrubChars(s)
    ensures ' ' in ScrubChars(s) ==> MARKER in s
  {
    var noSpaces := RemoveChar(s, ' ');
    var r := ScrubChars(s);
    assert forall i :: 0 <= i < |r| && r[i] == ' ' ==> noSpaces[i] == MARKER;
  }

  /** The result is stripped, never shows the marker or U+FFFD, and holds a space
      only where the model's text held the marker. */
  lemma {:induction false} CleanOutputShape(raw: string, prompt: string)
    ensures IsStripped(CleanV18(raw, prompt))
    ensures MARKER !in CleanV18(raw, prompt) && REPLACEMENT !in CleanV18(raw, prompt)
    ensures ' ' in CleanV18(raw, prompt) ==> MARKER in raw
  {
    var t := Truncate(raw);
    var e := Extract(t, prompt);
    var w := ScrubChars(e);
    ScrubCharsShape(e);
    var u := RemoveTags(w, LINE_OPEN, '>');
    var v := RemoveTags(u, SPACE_OPEN, ']');
    StripStripped(v);
    StripContains(v, "");
    RemoveTagsChars(w, LINE_OPEN, '>');
    RemoveTagsChars(u, SPACE_OPEN, ']');
    ExtractKeepsMarker(t, prompt);
    TruncateShape(raw);
    if ' ' in CleanV18(raw, prompt) {
      assert ' ' in w;
      assert MARKER in e;
    }
  }

  // ---------------------------------------------------------------------------
  // The round trip: the cleaning pass inverts the factories' format.

  /** `tags[i] + bodies[i]` for every line. */
  function Tagged(tags: seq<string>, bodies: seq<string>): (r: seq<string>)
    requires |tags| == |bodies|
    ensures |r| == |tags|
  {
    seq(|tags|, i requires 0 <= i < |tags| => tags[i] + bodies[i])
  }

  /** One character after the rewrites. */
  function ScrubChar(c: char): string
  {
    if c == ' ' then "" else if c == MARKER then " " else if c == REPLACEMENT then "+" else [c]
  }

  /** The rewrites one character at a time. */
  function Scrub(s: string): string
    decreases |s|
  {
    if s == [] then "" else ScrubChar(s[0]) + Scrub(s[1..])
  }

  /** The three rewrites in sequence act character by character. */
  lemma {:induction false} ScrubStages(s: string)
    ensures ScrubChars(s) == Scrub(s)
    decreases |s|
  {
    if s != [] {
      ScrubStages(s[1..]);
      var h := if s[0] == ' ' then "" else [s[0]];
      var t := RemoveChar(s[1..], ' ');
      assert RemoveChar(s, ' ') == h + t;
      ReplaceCharAppend(h, t, MARKER, ' ');
      ReplaceCharAppend(ReplaceChar(h, MARKER, ' '), ReplaceChar(t, MARKER, ' '), REPLACEMENT, '+');
      assert ReplaceChar(ReplaceChar(h, MARKER, ' '), REPLACEMENT, '+') == ScrubChar(s[0]);
    }
  }

  function Scrubbed(parts: seq<string>): (r: seq<string>)
    ensures |r| == |parts|
  {
    seq(|parts|, i requires 0 <= i < |parts| => Scrub(parts[i]))
  }

  lemma {:induction false} ScrubAppend(a: string, b: string)
    ensures Scrub(a + b) == Scrub(a) + Scrub(b)
    decreases |a|
  {
    if a == [] {
      assert a + b == b;
    } else {
      assert (a + b)[1..] == a[1..] + b;
      ScrubAppend(a[1..], b);
    }
  }

  /** Text made of none of the rewritten characters goes through unchanged. */
  lemma {:induction false} ScrubFree(s: string)
    requires ' ' !in s && MARKER !in s && REPLACEMENT !in s
    ensures Scrub(s) == s
    decreases |s|
  {
    if s != [] {
      ScrubFree(s[1..]);
    }
  }

  /** A line without spaces comes out as it is shown. */
  lemma {:induction false} ScrubShown(line: string)
    requires ' ' !in line
    ensures Scrub(line) == Shown(line)
  {
    ScrubStages(line);
    RemoveCharFree(line, ' ');
  }

  lemma {:induction false} ScrubJoin(parts: seq<string>)
    ensures Scrub(JoinLines(parts)) == JoinLines(Scrubbed(parts))
    decreases |parts|
  {
    if |parts| >= 2 {
      ScrubJoin(parts[1..]);
      assert Scrubbed(parts)[1..] == Scrubbed(parts[1..]);
      ScrubAppend(parts[0] + "\n", JoinLines(parts[1..]));
      ScrubAppend(parts[0], "\n");
    }
  }

  lemma {:induction false} LineTagShape(idx: nat)
    ensures IsTag(LineTag(idx), LINE_OPEN, '>')
    ensures forall x :: x in LineTag(idx) ==> x == '<' || x == 'L' || x == '>' || IsDigit(x)
  {
    var t := LineTag(idx);
    assert t[..|LINE_OPEN|] == LINE_OPEN;
    assert forall j :: |LINE_OPEN| <= j < |t| - 1 ==> t[j] == ZeroPad2(idx + 1)[j - |LINE_OPEN|];
  }

  lemma {:induction false} ScrubTokenFixed()
    ensures Scrub(S_TOKEN) == S_TOKEN
  {
  }

  lemma {:induction false} ScrubLeadingSpace(v: string)
    ensures Scrub(" " + v) == Scrub(v)
  {
    assert (" " + v)[1..] == v;
  }

  lemma {:induction false} ScrubLineTag(idx: nat)
    ensures Scrub(LineTag(idx)) == LineTag(idx)
  {
    LineTagShape(idx);
    ScrubFree(LineTag(idx));
  }

  lemma {:induction false} ScrubBody(line: string)
    requires ' ' !in line
    ensures Scrub(" " + S_TOKEN + " " + line) == S_TOKEN + Shown(line)
  {
    var w := " " + line;
    var v := S_TOKEN + w;
    ScrubLeadingSpace(v);
    ScrubLeadingSpace(line);
    ScrubAppend(S_TOKEN, w);
    ScrubTokenFixed();
    ScrubShown(line);
    AppendAssoc4(" ", S_TOKEN, " ", line);
  }

  lemma {:induction false} ScrubFormatted(line: string, idx: nat)
    requires ' ' !in line
    ensures Scrub(FormatHybrid(line, idx)) == LineTag(idx) + (S_TOKEN + Shown(line))
  {
    var t := LineTag(idx);
    var u := " " + S_TOKEN + " " + line;
    ScrubLineTag(idx);
    ScrubBody(line);
    ScrubAppend(t, u);
    assert FormatHybrid(line, idx) == t + u;
  }

  /** Deleting one kind of tag from lines that each start with one leaves the
      bodies, as long as no body holds the tag's opening. */
  lemma {:induction false} RemoveTagsJoin(tags: seq<string>, bodies: seq<string>, open: string, close: char)
    requires |tags| == |bodies| && |open| > 0 && '\n' !in open && !IsDigit(close)
    requires forall i :: 0 <= i < |tags| ==> IsTag(tags[i], open, close) && !Contains(bodies[i], open)
    ensures RemoveTags(JoinLines(Tagged(tags, bodies)), open, close) == JoinLines(bodies)
    decreases |tags|
  {
    var t := Tagged(tags, bodies);
    if |tags| == 1 {
      RemoveTagsLeading(tags[0], bodies[0], open, close);
      RemoveTagsFree(bodies[0], open, close);
    } else if |tags| >= 2 {
      var rest := JoinLines(t[1..]);
      assert t[1..] == Tagged(tags[1..], bodies[1..]);
      RemoveTagsJoin(tags[1..], bodies[1..], open, close);
      assert JoinLines(t) == tags[0] + (bodies[0] + ['\n'] + rest);
      RemoveTagsLeading(tags[0], bodies[0] + ['\n'] + rest, open, close);
      RemoveTagsAround(bodies[0], '\n', rest, open, close);
    }
  }

  /** A line without the text's tags keeps lacking them once its characters are
      rewritten. */
  lemma {:induction false} ShownLacks(line: string, pat: string)
    requires ' ' !in pat && '+' !in pat && !Contains(line, pat)
    ensures !Contains(Shown(line), pat)
  {
    if Contains(Shown(line), pat) {
      ContainsReplaceChar(ReplaceChar(line, MARKER, ' '), REPLACEMENT, '+', pat);
      ContainsReplaceChar(line, MARKER, ' ', pat);
    }
  }

  lemma {:induction false} TagsLackStop(idx: nat)
    ensures !Contains(LineTag(idx), STOP) && !Contains(S_TOKEN, STOP)
  {
    LineTagShape(idx);
    NotContainsForChar(LineTag(idx), STOP, '[');
    NotContainsForChar(S_TOKEN, STOP, 'T');
  }

  lemma {:induction false} FormatLacksStop(line: string, idx: nat)
    requires !Contains(line, STOP)
    ensures !Contains(FormatHybrid(line, idx), STOP)
  {
    TagsLackStop(idx);
    NotContainsAround(S_TOKEN, ' ', line, STOP);
    NotContainsAround(LineTag(idx), ' ', S_TOKEN + [' '] + line, STOP);
    assert FormatHybrid(line, idx) == LineTag(idx) + [' '] + (S_TOKEN + [' '] + line);
  }

  /** The completion does not hold `[STOP]` before its end. */
  lemma {:induction false} FormattedLacksStop(lines: seq<string>)
    requires forall i :: 0 <= i < |lines| ==> !Contains(lines[i], STOP)
    ensures !Contains(JoinLines(Formatted(lines)), STOP)
  {
    var f := Formatted(lines);
    forall i | 0 <= i < |f| ensures !Contains(f[i], STOP) {
      FormatLacksStop(lines[i], i);
    }
    NotContainsJoin(f, '\n', STOP);
  }

  /** The formatted lines start with the first line's tag. */
  lemma {:induction false} FormattedStart(lines: seq<string>)
    requires |lines| >= 1
    ensures JoinLines(Formatted(lines)) == FIRST_TAG + JoinLines(Formatted(lines))[|FIRST_TAG|..]
  {
    var f := Formatted(lines);
    var e := JoinLines(f);
    assert LineTag(0) == FIRST_TAG;
    assert f[0] == FIRST_TAG + (" " + S_TOKEN + " " + lines[0]);
    if |f| >= 2 {
      assert e == f[0] + ("\n" + JoinLines(f[1..]));
    }
  }

  /** `[STOP]` first occurs right after the space that ends the completion. */
  lemma {:induction false} StopOnlyAtEnd(prompt: string, e: string)
    requires !Contains(prompt, STOP) && !Contains(e, STOP) && e != [] && e[0] == '<'
    ensures !Contains(prompt + e + " ", STOP)
  {
    var tail := e[1..] + " ";
    assert !Contains(tail, STOP) by {
      NotContainsAround(e, ' ', "", STOP);
      assert e + [' '] + "" == ['<'] + tail;
      assert (['<'] + tail)[1..] == tail;
    }
    NotContainsAround(prompt, '<', tail, STOP);
    assert prompt + e + " " == prompt + ['<'] + tail;
  }

  /** Truncation and extraction of an echoed prompt followed by text that starts
      with `<L01>` and ends in ` [STOP]` leave that text and the space. */
  lemma {:induction false} EchoTruncate(prompt: string, e: string)
    requires !Contains(prompt, STOP) && !Contains(e, STOP) && e != [] && e[0] == '<'
    ensures Truncate(prompt + e + " " + STOP) == prompt + e + " "
  {
    StopOnlyAtEnd(prompt, e);
    var kept := prompt + e + " ";
    assert kept + STOP == kept + STOP + "";
    TruncateAtStop(kept, "");
  }

  lemma {:induction false} EchoExtract(prompt: string, e: string)
    requires !Contains(prompt, FIRST_TAG) && FIRST_TAG <= e
    ensures Extract(prompt + e + " ", prompt) == e + " "
  {
    var body := e[|FIRST_TAG|..] + " ";
    assert e + " " == FIRST_TAG + body;
    assert prompt + e + " " == prompt + FIRST_TAG + body;
    ExtractFromFirstTag(prompt, body, prompt);
  }

  lemma {:induction false} ExtractEchoed(prompt: string, e: string)
    requires !Contains(prompt, STOP) && !Contains(prompt, FIRST_TAG) && !Contains(e, STOP)
    requires FIRST_TAG <= e
    ensures Extract(Truncate(prompt + e + " " + STOP), prompt) == e + " "
  {
    assert e[0] == '<';
    EchoTruncate(prompt, e);
    EchoExtract(prompt, e);
  }

  lemma {:induction false} ExtractCompletion(prompt: string, lines: seq<string>)
    requires |lines| >= 1
    requires !Contains(prompt, STOP) && !Contains(prompt, FIRST_TAG)
    requires forall i :: 0 <= i < |lines| ==> !Contains(lines[i], STOP)
    ensures Extract(Truncate(prompt + Completion(lines)), prompt) == JoinLines(Formatted(lines)) + " "
  {
    var e := JoinLines(Formatted(lines));
    FormattedStart(lines);
    FormattedLacksStop(lines);
    assert FIRST_TAG <= e;
    ConcatAssoc(prompt, e, " ", STOP);
    ExtractEchoed(prompt, e);
  }

  lemma ConcatAssoc(a: string, b: string, c: string, d: string)
    ensures a + (b + c + d) == a + b + c + d
  {
  }

  function LineTags(n: nat): (r: seq<string>)
    ensures |r| == n
  {
    seq(n, i requires 0 <= i < n => LineTag(i))
  }

  function Tokens(n: nat): (r: seq<string>)
    ensures |r| == n
  {
    seq(n, i requires 0 <= i < n => S_TOKEN)
  }

  /** After the character rewrites every line is its tag, the spacing token and
      the line as shown. */
  lemma {:induction false} ScrubCompletion(lines: seq<string>)
    requires forall i :: 0 <= i < |lines| ==> ' ' !in lines[i]
    ensures ScrubChars(JoinLines(Formatted(lines)) + " ")
         == JoinLines(Tagged(LineTags(|lines|), Tagged(Tokens(|lines|), ShownLines(lines))))
  {
    var f := Formatted(lines);
    var e := JoinLines(f);
    ScrubStages(e + " ");
    ScrubAppend(e, " ");
    ScrubLeadingSpace("");
    ScrubJoin(f);
    var bodies := Tagged(Tokens(|lines|), ShownLines(lines));
    var t := Tagged(LineTags(|lines|), bodies);
    forall i | 0 <= i < |lines| ensures Scrubbed(f)[i] == t[i] {
      ScrubFormatted(lines[i], i);
    }
    assert Scrubbed(f) == t;
  }

  lemma {:induction false} BodyLacksLineOpen(line: string)
    requires !Contains(line, LINE_OPEN)
    ensures !Contains(S_TOKEN + Shown(line), LINE_OPEN)
  {
    ShownLacks(line, LINE_OPEN);
    NotContainsForChar("[S:00", LINE_OPEN, '<');
    NotContainsAround("[S:00", ']', Shown(line), LINE_OPEN);
    assert S_TOKEN + Shown(line) == "[S:00" + [']'] + Shown(line);
  }

  /** The line-tag pass leaves the spacing token and the shown line. */
  lemma {:induction false} DropLineTags(lines: seq<string>)
    requires forall i :: 0 <= i < |lines| ==> !Contains(lines[i], LINE_OPEN)
    ensures RemoveTags(JoinLines(Tagged(LineTags(|lines|), Tagged(Tokens(|lines|), ShownLines(lines)))), LINE_OPEN, '>')
         == JoinLines(Tagged(Tokens(|lines|), ShownLines(lines)))
  {
    var tags := LineTags(|lines|);
    var bodies := Tagged(Tokens(|lines|), ShownLines(lines));
    forall i | 0 <= i < |lines|
      ensures IsTag(tags[i], LINE_OPEN, '>') && !Contains(bodies[i], LINE_OPEN)
    {
      LineTagShape(i);
      BodyLacksLineOpen(lines[i]);
    }
    RemoveTagsJoin(tags, bodies, LINE_OPEN, '>');
  }

  /** The spacing-token pass leaves the shown line. */
  lemma {:induction false} DropTokens(lines: seq<string>)
    requires forall i :: 0 <= i < |lines| ==> !Contains(lines[i], SPACE_OPEN)
    ensures RemoveTags(JoinLines(Tagged(Tokens(|lines|), ShownLines(lines))), SPACE_OPEN, ']')
         == JoinLines(ShownLines(lines))
  {
    var tokens := Tokens(|lines|);
    var shown := ShownLines(lines);
    assert IsTag(S_TOKEN, SPACE_OPEN, ']');
    forall i | 0 <= i < |lines|
      ensures IsTag(tokens[i], SPACE_OPEN, ']') && !Contains(shown[i], SPACE_OPEN)
    {
      ShownLacks(lines[i], SPACE_OPEN);
    }
    RemoveTagsJoin(tokens, shown, SPACE_OPEN, ']');
  }

  /** What the factories write, echoed after a prompt and cleaned, gives back the
      art: the lines joined, with the marker shown as a space and U+FFFD as `+`,
      stripped. The lines must not hold spaces (the tokenizer's spaces are
      dropped), `<L`, `[S:` or `[STOP]`; the prompt must hold neither `[STOP]`
      nor `<L01>`. */
  lemma {:induction false} CleanInvertsFormat(prompt: string, lines: seq<string>)
    requires |lines| >= 1
    requires !Contains(prompt, STOP) && !Contains(prompt, FIRST_TAG)
    requires forall i :: 0 <= i < |lines| ==>
      ' ' !in lines[i] && !Contains(lines[i], STOP) &&
      !Contains(lines[i], LINE_OPEN) && !Contains(lines[i], SPACE_OPEN)
    ensures CleanV18(prompt + Completion(lines), prompt) == Strip(JoinLines(ShownLines(lines)))
  {
    ExtractCompletion(prompt, lines);
    ScrubCompletion(lines);
    DropLineTags(lines);
    DropTokens(lines);
  }
}
