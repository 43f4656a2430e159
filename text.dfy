/** Python string primitives the diagram pipeline relies on, written out over
    `string` (a `seq<char>` of Unicode scalar values). Each function follows the
    CPython behaviour for the arguments the pipeline passes. */
module PyText {

  /** An exception the source can raise, as a value. */
  datatype PyError = IndexError | ValueError

  /** A computation that either returns a value or raises. */
  datatype Outcome<T> = Ok(value: T) | Raised(error: PyError)

  /** `str.isspace()` for one character: the characters CPython treats as whitespace. */
  predicate IsSpace(c: char)
  {
    c == ' ' || ('\t' <= c <= '\r') || ('\U{1C}' <= c <= '\U{1F}') || c == '\U{85}' ||
    c == '\U{A0}' || c == '\U{1680}' || ('\U{2000}' <= c <= '\U{200A}') ||
    c == '\U{2028}' || c == '\U{2029}' || c == '\U{202F}' || c == '\U{205F}' || c == '\U{3000}'
  }

  predicate IsDigit(c: char) { '0' <= c <= '9' }

  /** `c * n`: `n` copies of `c`, nothing when `n <= 0`. */
  function Repeat(c: char, n: int): (r: string)
    ensures |r| == if n > 0 then n else 0
    ensures forall i :: 0 <= i < |r| ==> r[i] == c
    decreases n
  {
    if n <= 0 then [] else [c] + Repeat(c, n - 1)
  }

  /** `s.rstrip()`: the longest prefix of `s` that does not end in whitespace. */
  function RStrip(s: string): (r: string)
    ensures r <= s
    ensures r == [] || !IsSpace(r[|r| - 1])
    ensures forall i :: |r| <= i < |s| ==> IsSpace(s[i])
    decreases |s|
  {
    if s == [] then []
    else if IsSpace(s[|s| - 1]) then RStrip(s[..|s| - 1])
    else s
  }

  /** `s.lstrip()`: the longest suffix of `s` that does not start with whitespace. */
  function LStrip(s: string): (r: string)
    ensures |r| <= |s| && r == s[|s| - |r|..]
    ensures r == [] || !IsSpace(r[0])
    ensures forall i :: 0 <= i < |s| - |r| ==> IsSpace(s[i])
    decreases |s|
  {
    if s == [] then []
    else if IsSpace(s[0]) then LStrip(s[1..])
    else s
  }

  /** `s.strip()`. */
  function Strip(s: string): string
  {
    LStrip(RStrip(s))
  }

  /** A string that `strip()` leaves alone. */
  predicate IsStripped(s: string)
  {
    s == [] || (!IsSpace(s[0]) && !IsSpace(s[|s| - 1]))
  }

  /** `pat in s`. */
  predicate Contains(s: string, pat: string)
    decreases |s|
  {
    pat <= s || (s != [] && Contains(s[1..], pat))
  }

  /** `any(k in s for k in keys)`. */
  predicate ContainsAny(s: string, keys: seq<string>)
  {
    exists i :: 0 <= i < |keys| && Contains(s, keys[i])
  }

  /** `s.split(sep)` for a non-empty separator: left to right, non-overlapping. */
  function SplitOn(s: string, sep: string): (r: seq<string>)
    requires |sep| > 0
    ensures |r| >= 1 && r[0] <= s
    decreases |s|
  {
    if s == [] then [""]
    else if sep <= s then [""] + SplitOn(s[|sep|..], sep)
    else
      var rest := SplitOn(s[1..], sep);
      [[s[0]] + rest[0]] + rest[1..]
  }

  /** `sep.join(parts)`. */
  function Join(sep: string, parts: seq<string>): string
    decreases |parts|
  {
    if |parts| == 0 then ""
    else if |parts| == 1 then parts[0]
    else parts[0] + sep + Join(sep, parts[1..])
  }

  /** `"\n".join(lines)`. */
  function JoinLines(lines: seq<string>): string
  {
    Join("\n", lines)
  }

  /** `s.split("\n")`. */
  function Lines(s: string): seq<string>
  {
    SplitOn(s, "\n")
  }

  /** `s.replace(pat, rep)` for a non-empty `pat`. */
  function ReplaceAll(s: string, pat: string, rep: string): string
    requires |pat| > 0
    decreases |s|
  {
    if s == [] then []
    else if pat <= s then rep + ReplaceAll(s[|pat|..], pat, rep)
    else [s[0]] + ReplaceAll(s[1..], pat, rep)
  }

  /** `s.replace(a, b)` for single characters `a` and `b`. */
  function ReplaceChar(s: string, a: char, b: char): (r: string)
    ensures |r| == |s|
    ensures forall i :: 0 <= i < |s| ==> r[i] == (if s[i] == a then b else s[i])
    decreases |s|
  {
    if s == [] then [] else [if s[0] == a then b else s[0]] + ReplaceChar(s[1..], a, b)
  }

  /** `s.replace(c, "")`. */
  function RemoveChar(s: string, c: char): (r: string)
    ensures c !in r
    ensures forall x :: x in r ==> x in s
    decreases |s|
  {
    if s == [] then [] else (if s[0] == c then [] else [s[0]]) + RemoveChar(s[1..], c)
  }

  /** The number of leading characters of `s` that are not whitespace. */
  function WordLen(s: string): (n: nat)
    ensures n <= |s|
    ensures forall i :: 0 <= i < n ==> !IsSpace(s[i])
    ensures n < |s| ==> IsSpace(s[n])
    decreases |s|
  {
    if s == [] || IsSpace(s[0]) then 0 else 1 + WordLen(s[1..])
  }

  /** A word of `str.split()`: non-empty and free of whitespace. */
  predicate IsWord(w: string)
  {
    |w| > 0 && forall i :: 0 <= i < |w| ==> !IsSpace(w[i])
  }

  /** `s.split()`: the maximal runs of non-whitespace characters, in order. */
  function SplitWords(s: string): (r: seq<string>)
    ensures forall i :: 0 <= i < |r| ==> IsWord(r[i])
    decreases |s|
  {
    if s == [] then []
    else if IsSpace(s[0]) then SplitWords(s[1..])
    else
      var n := WordLen(s);
      [s[..n]] + SplitWords(s[n..])
  }

  /** `c.upper()` restricted to ASCII letters. */
  function UpperChar(c: char): char
  {
    if 'a' <= c <= 'z' then (c as int - 32) as char else c
  }

  /** `s.upper()` restricted to ASCII letters. */
  function Upper(s: string): (r: string)
    ensures |r| == |s|
    ensures forall i :: 0 <= i < |s| ==> r[i] == UpperChar(s[i])
    decreases |s|
  {
    if s == [] then [] else [UpperChar(s[0])] + Upper(s[1..])
  }

  lemma UpperIdempotent(s: string)
    ensures Upper(Upper(s)) == Upper(s)
  {
  }

  /** `s.center(width)` exactly as CPython computes it: with `marg = width - len(s)`,
      the left padding is `marg // 2 + (marg & width & 1)`; nothing is added when
      `len(s) >= width`. */
  function Center(s: string, width: int): string
  {
    var marg := width - |s|;
    if marg <= 0 then s
    else
      var left := marg / 2 + (if marg % 2 == 1 && width % 2 == 1 then 1 else 0);
      Repeat(' ', left) + s + Repeat(' ', marg - left)
  }

  /** `s[:k]`, where a negative `k` counts from the end. */
  function SliceTo(s: string, k: int): (r: string)
    ensures r <= s
    ensures |r| == if k >= 0 then (if k < |s| then k else |s|) else (if |s| + k > 0 then |s| + k else 0)
  {
    if k >= 0 then (if k < |s| then s[..k] else s)
    else if |s| + k > 0 then s[..|s| + k] else []
  }

  function DigitChar(d: nat): char
    requires d < 10
  {
    ('0' as int + d) as char
  }

  /** `str(n)` for a natural number. */
  function Decimal(n: nat): (r: string)
    ensures |r| >= 1 && forall i :: 0 <= i < |r| ==> IsDigit(r[i])
  {
    if n < 10 then [DigitChar(n)] else Decimal(n / 10) + [DigitChar(n % 10)]
  }

  /** `f"{n:02d}"` for a natural number: at least two digits, zero-padded. */
  function ZeroPad2(n: nat): (r: string)
    ensures |r| >= 2 && forall i :: 0 <= i < |r| ==> IsDigit(r[i])
  {
    if n < 10 then "0" + Decimal(n) else Decimal(n)
  }

  /** The number of leading ASCII digits of `s` (the greedy `\d+` of a regex). */
  function DigitRun(s: string): (n: nat)
    ensures n <= |s|
    ensures forall i :: 0 <= i < n ==> IsDigit(s[i])
    ensures n < |s| ==> !IsDigit(s[n])
    decreases |s|
  {
    if s == [] || !IsDigit(s[0]) then 0 else 1 + DigitRun(s[1..])
  }

  /** The length of the match of the regex `open \d+ close` at the start of `s`,
      or 0 when there is none. `close` is never a digit, so the greedy digit run
      is the only candidate. */
  function TagLength(s: string, open: string, close: char): (n: nat)
    ensures n == 0 || (open <= s && |open| + 1 < n <= |s| && s[n - 1] == close)
  {
    if open <= s then
      var d := DigitRun(s[|open|..]);
      if d > 0 && |open| + d < |s| && s[|open| + d] == close then |open| + d + 1 else 0
    else 0
  }

  /** `re.sub(open + r'\d+' + close, '', s)`: one left-to-right pass that deletes
      every match and keeps every other character. */
  function RemoveTags(s: string, open: string, close: char): string
    decreases |s|
  {
    if s == [] then []
    else
      var n := TagLength(s, open, close);
      if n > 0 then RemoveTags(s[n..], open, close) else [s[0]] + RemoveTags(s[1..], open, close)
  }

  // ---------------------------------------------------------------------------
  // Lemmas about the primitives.

  /** `(a + b) + c` and `a + (b + c)` are the same sequence. */
  lemma AppendAssoc<T>(a: seq<T>, b: seq<T>, c: seq<T>)
    ensures (a + b) + c == a + (b + c)
  {
  }

  lemma AppendAssoc4<T>(a: seq<T>, b: seq<T>, c: seq<T>, d: seq<T>)
    ensures a + b + c + d == a + (b + (c + d))
  {
  }

  lemma JoinCons(sep: string, a: string, parts: seq<string>)
    requires |parts| >= 1
    ensures Join(sep, [a] + parts) == a + sep + Join(sep, parts)
  {
    assert ([a] + parts)[1..] == parts;
  }

  lemma JoinHead(sep: string, a: string, parts: seq<string>)
    requires |parts| >= 1
    ensures Join(sep, [a + parts[0]] + parts[1..]) == a + Join(sep, parts)
  {
    if |parts| > 1 {
      assert ([a + parts[0]] + parts[1..])[1..] == parts[1..];
    }
  }

  lemma {:induction false} JoinAppend(sep: string, a: seq<string>, b: seq<string>)
    requires |a| >= 1 && |b| >= 1
    ensures Join(sep, a + b) == Join(sep, a) + sep + Join(sep, b)
    decreases |a|
  {
    if |a| == 1 {
      JoinCons(sep, a[0], b);
      assert [a[0]] + b == a + b;
    } else {
      assert (a + b)[1..] == a[1..] + b;
      JoinAppend(sep, a[1..], b);
    }
  }

  /** Joining the pieces of a split gives back the string. */
  lemma {:induction false} JoinSplit(s: string, sep: string)
    requires |sep| > 0
    ensures Join(sep, SplitOn(s, sep)) == s
    decreases |s|
  {
    if s == [] {
    } else if sep <= s {
      JoinSplit(s[|sep|..], sep);
      JoinSplitAtSep(s, sep);
    } else {
      JoinSplit(s[1..], sep);
      JoinSplitAtChar(s, sep);
    }
  }

  /** The step of `JoinSplit` where `s` starts with the separator. */
  lemma {:induction false} JoinSplitAtSep(s: string, sep: string)
    requires |sep| > 0 && sep <= s
    requires Join(sep, SplitOn(s[|sep|..], sep)) == s[|sep|..]
    ensures Join(sep, SplitOn(s, sep)) == s
  {
    var rest := SplitOn(s[|sep|..], sep);
    assert SplitOn(s, sep) == [""] + rest;
    JoinCons(sep, "", rest);
    assert s == sep + s[|sep|..];
  }

  /** The step of `JoinSplit` where `s` does not start with the separator. */
  lemma {:induction false} JoinSplitAtChar(s: string, sep: string)
    requires |sep| > 0 && s != [] && !(sep <= s)
    requires Join(sep, SplitOn(s[1..], sep)) == s[1..]
    ensures Join(sep, SplitOn(s, sep)) == s
  {
    var rest := SplitOn(s[1..], sep);
    calc {
      Join(sep, SplitOn(s, sep));
    == { assert SplitOn(s, sep) == [[s[0]] + rest[0]] + rest[1..]; }
      Join(sep, [[s[0]] + rest[0]] + rest[1..]);
    == { JoinHead(sep, [s[0]], rest); }
      [s[0]] + s[1..];
    == { assert s == [s[0]] + s[1..]; }
      s;
    }
  }

  /** A pattern found in a prefix is found in the whole string. */
  lemma {:induction false} ContainsInPrefix(a: string, b: string, pat: string)
    requires a <= b && Contains(a, pat)
    ensures Contains(b, pat)
    decreases |a|
  {
    if !(pat <= a) {
      assert a[1..] <= b[1..];
      ContainsInPrefix(a[1..], b[1..], pat);
    }
  }

  /** A pattern found in a suffix is found in the whole string. */
  lemma {:induction false} ContainsInSuffix(s: string, k: nat, pat: string)
    requires k <= |s| && Contains(s[k..], pat)
    ensures Contains(s, pat)
    decreases k
  {
    if k > 0 {
      assert s[1..][k - 1..] == s[k..];
      ContainsInSuffix(s[1..], k - 1, pat);
    }
  }

  /** `strip()` only removes characters, so whatever its result contains the
      original contains too. */
  lemma StripContains(s: string, pat: string)
    ensures Contains(Strip(s), pat) ==> Contains(s, pat)
    ensures forall c :: c in Strip(s) ==> c in s
  {
    var r := RStrip(s);
    var t := LStrip(r);
    if Contains(t, pat) {
      ContainsInSuffix(r, |r| - |t|, pat);
      ContainsInPrefix(r, s, pat);
    }
  }

  /** Every character of a piece of a split is a character of the string. */
  lemma {:induction false} SplitChars(s: string, sep: string)
    requires |sep| > 0
    ensures forall i, c :: 0 <= i < |SplitOn(s, sep)| && c in SplitOn(s, sep)[i] ==> c in s
    decreases |s|
  {
    if s == [] {
    } else if sep <= s {
      SplitChars(s[|sep|..], sep);
      var r := SplitOn(s, sep);
      forall i, c | 0 <= i < |r| && c in r[i] ensures c in s {
        if i > 0 {
          assert r[i] == SplitOn(s[|sep|..], sep)[i - 1];
          assert c in s[|sep|..];
        }
      }
    } else {
      SplitChars(s[1..], sep);
      var r := SplitOn(s, sep);
      var rest := SplitOn(s[1..], sep);
      forall i, c | 0 <= i < |r| && c in r[i] ensures c in s {
        if i > 0 {
          assert r[i] == rest[i];
          assert c in s[1..];
        } else if c != s[0] {
          assert r[0] == [s[0]] + rest[0];
          assert c in rest[0];
          assert c in s[1..];
        }
      }
    }
  }

  /** Containing a one-character pattern is containing that character. */
  lemma {:induction false} ContainsChar(s: string, c: char)
    ensures Contains(s, [c]) <==> c in s
    decreases |s|
  {
    if s != [] {
      ContainsChar(s[1..], c);
      assert s == [s[0]] + s[1..];
    }
  }

  /** No piece of a split contains the separator. */
  lemma {:induction false} SplitPiecesFree(s: string, sep: string)
    requires |sep| > 0
    ensures forall i :: 0 <= i < |SplitOn(s, sep)| ==> !Contains(SplitOn(s, sep)[i], sep)
    decreases |s|
  {
    if s == [] {
      assert !Contains("", sep);
    } else if sep <= s {
      SplitPiecesFree(s[|sep|..], sep);
      assert !Contains("", sep);
    } else {
      var rest := SplitOn(s[1..], sep);
      SplitPiecesFree(s[1..], sep);
      var p := [s[0]] + rest[0];
      assert p[1..] == rest[0];
      assert !Contains(p, sep);
      var r := SplitOn(s, sep);
      assert r == [p] + rest[1..];
      forall i | 0 <= i < |r| ensures !Contains(r[i], sep) {
        if i > 0 { assert r[i] == rest[i]; }
      }
    }
  }

  lemma {:induction false} SplitNoSepChar(p: string, c: char)
    requires c !in p
    ensures SplitOn(p, [c]) == [p]
    decreases |p|
  {
    if p != [] {
      assert p[0] in p;
      SplitNoSepChar(p[1..], c);
      assert [p[0]] + p[1..] == p;
    }
  }

  lemma {:induction false} SplitAtSepChar(p: string, c: char, rest: string)
    requires c !in p
    ensures SplitOn(p + [c] + rest, [c]) == [p] + SplitOn(rest, [c])
    decreases |p|
  {
    var s := p + [c] + rest;
    if p == [] {
      assert [c] <= s && s[1..] == rest;
    } else {
      assert s[0] == p[0] && p[0] != c;
      assert !([c] <= s);
      assert s[1..] == p[1..] + [c] + rest;
      SplitAtSepChar(p[1..], c, rest);
      assert [p[0]] + p[1..] == p;
    }
  }

  /** Splitting a join on a one-character separator that no part contains gives
      back the parts. */
  lemma {:induction false} SplitJoinChar(parts: seq<string>, c: char)
    requires |parts| >= 1
    requires forall i :: 0 <= i < |parts| ==> c !in parts[i]
    ensures SplitOn(Join([c], parts), [c]) == parts
    decreases |parts|
  {
    if |parts| == 1 {
      SplitNoSepChar(parts[0], c);
    } else {
      SplitJoinChar(parts[1..], c);
      SplitAtSepChar(parts[0], c, Join([c], parts[1..]));
      assert [parts[0]] + parts[1..] == parts;
    }
  }

  lemma RepeatAllSpaces(n: int)
    ensures forall i :: 0 <= i < |Repeat(' ', n)| ==> IsSpace(Repeat(' ', n)[i])
  {
  }

  /** `c * a + c * b == c * (a + b)` for non-negative counts. */
  lemma RepeatAdd(c: char, a: int, b: int)
    requires a >= 0 && b >= 0
    ensures Repeat(c, a) + Repeat(c, b) == Repeat(c, a + b)
  {
    var l := Repeat(c, a) + Repeat(c, b);
    var r := Repeat(c, a + b);
    assert |l| == |r|;
    forall i | 0 <= i < |l| ensures l[i] == r[i] {
      if i < a { assert l[i] == Repeat(c, a)[i]; } else { assert l[i] == Repeat(c, b)[i - a]; }
    }
  }

  /** Trailing whitespace added to a string is removed again by `rstrip`. */
  lemma {:induction false} RStripAppendSpaces(a: string, b: string)
    requires forall i :: 0 <= i < |b| ==> IsSpace(b[i])
    ensures RStrip(a + b) == RStrip(a)
    decreases |b|
  {
    if b != [] {
      var s := a + b;
      assert s[..|s| - 1] == a + b[..|b| - 1];
      RStripAppendSpaces(a, b[..|b| - 1]);
    } else {
      assert a + b == a;
    }
  }

  /** Leading whitespace added to a string is removed again by `lstrip`. */
  lemma {:induction false} LStripPrependSpaces(a: string, b: string)
    requires forall i :: 0 <= i < |a| ==> IsSpace(a[i])
    ensures LStrip(a + b) == LStrip(b)
    decreases |a|
  {
    if a != [] {
      assert (a + b)[1..] == a[1..] + b;
      LStripPrependSpaces(a[1..], b);
    } else {
      assert a + b == b;
    }
  }

  /** A stripped string between runs of whitespace is what `strip()` returns. */
  lemma {:induction false} StripPadded(a: string, s: string, b: string)
    requires forall i :: 0 <= i < |a| ==> IsSpace(a[i])
    requires forall i :: 0 <= i < |b| ==> IsSpace(b[i])
    requires IsStripped(s)
    ensures Strip(a + s + b) == s
  {
    RStripAppendSpaces(a + s, b);
    if s == [] {
      assert a + s == [] + a;
      RStripAppendSpaces([], a);
    } else {
      assert RStrip(a + s) == a + s;
      LStripPrependSpaces(a, s);
      assert LStrip(s) == s;
    }
  }

  lemma StrippedFixed(s: string)
    requires IsStripped(s)
    ensures RStrip(s) == s && LStrip(s) == s && Strip(s) == s
  {
  }

  /** `strip()` is idempotent and returns a stripped string. */
  lemma StripStripped(s: string)
    ensures IsStripped(Strip(s))
    ensures Strip(Strip(s)) == Strip(s)
  {
    var r := RStrip(s);
    var t := LStrip(r);
    if t != [] {
      assert t == r[|r| - |t|..];
      assert t[|t| - 1] == r[|r| - 1];
    }
    StrippedFixed(t);
  }

  // ---------------------------------------------------------------------------
  // Searching, splitting and rewriting around characters a pattern lacks.

  /** `s.split(pat, 1)[1]`: what follows the first occurrence of `pat`. */
  function AfterFirst(s: string, pat: string): (r: string)
    requires Contains(s, pat)
    ensures |r| + |pat| <= |s| && s[|s| - |r| - |pat|..] == pat + r
    decreases |s|
  {
    if pat <= s then s[|pat|..] else AfterFirst(s[1..], pat)
  }

  /** A match of `pat` cannot straddle a character that `pat` lacks. */
  lemma {:induction false} NotContainsAround(x: string, c: char, y: string, pat: string)
    requires |pat| > 0 && c !in pat
    requires !Contains(x, pat) && !Contains(y, pat)
    ensures !Contains(x + [c] + y, pat)
    decreases |x|
  {
    var s := x + [c] + y;
    if |pat| <= |x| {
      assert s[..|pat|] == x[..|pat|];
    } else {
      assert s[|x|] == c && pat[|x|] != c;
    }
    assert !(pat <= s);
    if x == [] {
      assert s[1..] == y;
    } else {
      assert s[1..] == x[1..] + [c] + y;
      NotContainsAround(x[1..], c, y, pat);
    }
  }

  /** Parts that lack `pat`, joined on a character `pat` lacks, still lack it. */
  lemma {:induction false} NotContainsJoin(parts: seq<string>, c: char, pat: string)
    requires |pat| > 0 && c !in pat
    requires forall i :: 0 <= i < |parts| ==> !Contains(parts[i], pat)
    ensures !Contains(Join([c], parts), pat)
    decreases |parts|
  {
    if |parts| == 0 {
      assert !(pat <= "");
    } else if |parts| >= 2 {
      NotContainsJoin(parts[1..], c, pat);
      assert Join([c], parts) == parts[0] + [c] + Join([c], parts[1..]);
      NotContainsAround(parts[0], c, Join([c], parts[1..]), pat);
    }
  }

  /** A string that lacks one of the characters of `pat` does not contain `pat`. */
  lemma {:induction false} NotContainsForChar(s: string, pat: string, c: char)
    requires c in pat && c !in s
    ensures !Contains(s, pat)
    decreases |s|
  {
    var k :| 0 <= k < |pat| && pat[k] == c;
    if k < |s| {
      assert s[k] != c;
    }
    assert !(pat <= s);
    if s != [] {
      NotContainsForChar(s[1..], pat, c);
    }
  }

  /** When the first character of `pat` does not recur in it, an occurrence of
      `pat` right after a text free of `pat` is the first one. */
  lemma {:induction false} NoEarlyMatch(a: string, pat: string, b: string)
    requires |a| > 0 && |pat| > 0 && pat[0] !in pat[1..] && !Contains(a, pat)
    ensures !(pat <= a + pat + b)
  {
    var s := a + pat + b;
    if |pat| <= |a| {
      assert s[..|pat|] == a[..|pat|];
    } else {
      assert s[|a|] == pat[0];
      assert pat[|a|] == pat[1..][|a| - 1];
    }
  }

  lemma {:induction false} SplitOnFree(s: string, sep: string)
    requires |sep| > 0 && !Contains(s, sep)
    ensures SplitOn(s, sep) == [s]
    decreases |s|
  {
    if s != [] {
      SplitOnFree(s[1..], sep);
      assert [s[0]] + s[1..] == s;
    }
  }

  /** A string holding the separator splits into at least two pieces. */
  lemma {:induction false} SplitOnContains(s: string, sep: string)
    requires |sep| > 0 && Contains(s, sep)
    ensures |SplitOn(s, sep)| >= 2
    decreases |s|
  {
    if !(sep <= s) {
      SplitOnContains(s[1..], sep);
    }
  }

  /** Splitting at a first occurrence that cannot start earlier. */
  lemma {:induction false} SplitOnAppend(a: string, pat: string, b: string)
    requires |pat| > 0 && pat[0] !in pat[1..] && !Contains(a, pat)
    ensures SplitOn(a + pat + b, pat) == [a] + SplitOn(b, pat)
    decreases |a|
  {
    var s := a + pat + b;
    if a == [] {
      assert s == pat + b && pat <= s;
      assert s[|pat|..] == b;
    } else {
      NoEarlyMatch(a, pat, b);
      assert s[1..] == a[1..] + pat + b;
      SplitOnAppend(a[1..], pat, b);
      assert [a[0]] + a[1..] == a;
    }
  }

  lemma {:induction false} SplitFirstAppend(a: string, pat: string, b: string)
    requires |pat| > 0 && pat[0] !in pat[1..] && !Contains(a, pat)
    ensures SplitOn(a + pat + b, pat)[0] == a
    decreases |a|
  {
    var s := a + pat + b;
    if a == [] {
      assert s == pat + b && pat <= s;
    } else {
      NoEarlyMatch(a, pat, b);
      assert s[1..] == a[1..] + pat + b;
      SplitFirstAppend(a[1..], pat, b);
    }
  }

  /** The first piece of `s.split(sep)` is everything before the first `sep`. */
  lemma {:induction false} SplitFirstShape(s: string, sep: string)
    requires |sep| > 0
    ensures !Contains(SplitOn(s, sep)[0], sep)
    ensures |SplitOn(s, sep)[0]| < |s| ==> sep <= s[|SplitOn(s, sep)[0]|..]
    decreases |s|
  {
    SplitPiecesFree(s, sep);
    if s != [] && !(sep <= s) {
      SplitFirstShape(s[1..], sep);
      assert s[1..][|SplitOn(s[1..], sep)[0]|..] == s[|SplitOn(s, sep)[0]|..];
    }
  }

  lemma {:induction false} AfterFirstAppend(a: string, pat: string, b: string)
    requires |pat| > 0 && pat[0] !in pat[1..] && !Contains(a, pat)
    ensures Contains(a + pat + b, pat) && AfterFirst(a + pat + b, pat) == b
    decreases |a|
  {
    var s := a + pat + b;
    assert s[|a|..] == pat + b;
    assert Contains(s[|a|..], pat);
    ContainsInSuffix(s, |a|, pat);
    if a == [] {
      assert s == pat + b && pat <= s;
    } else {
      NoEarlyMatch(a, pat, b);
      assert s[1..] == a[1..] + pat + b;
      AfterFirstAppend(a[1..], pat, b);
    }
  }

  lemma {:induction false} ReplaceAllFree(s: string, pat: string, rep: string)
    requires |pat| > 0 && !Contains(s, pat)
    ensures ReplaceAll(s, pat, rep) == s
    decreases |s|
  {
    if s != [] {
      ReplaceAllFree(s[1..], pat, rep);
    }
  }

  lemma {:induction false} ReplaceAllEmptyChars(s: string, pat: string)
    requires |pat| > 0
    ensures forall x :: x in ReplaceAll(s, pat, "") ==> x in s
    decreases |s|
  {
    if s != [] {
      if pat <= s {
        ReplaceAllEmptyChars(s[|pat|..], pat);
      } else {
        ReplaceAllEmptyChars(s[1..], pat);
      }
    }
  }

  lemma {:induction false} RemoveCharAppend(a: string, b: string, c: char)
    ensures RemoveChar(a + b, c) == RemoveChar(a, c) + RemoveChar(b, c)
    decreases |a|
  {
    if a != [] {
      assert (a + b)[1..] == a[1..] + b;
      RemoveCharAppend(a[1..], b, c);
    } else {
      assert a + b == b;
    }
  }

  lemma {:induction false} RemoveCharFree(s: string, c: char)
    requires c !in s
    ensures RemoveChar(s, c) == s
    decreases |s|
  {
    if s != [] {
      RemoveCharFree(s[1..], c);
    }
  }

  lemma {:induction false} ReplaceCharAppend(a: string, b: string, x: char, y: char)
    ensures ReplaceChar(a + b, x, y) == ReplaceChar(a, x, y) + ReplaceChar(b, x, y)
  {
    var l := ReplaceChar(a + b, x, y);
    var r := ReplaceChar(a, x, y) + ReplaceChar(b, x, y);
    forall i | 0 <= i < |l| ensures l[i] == r[i] {
      if i < |a| { assert (a + b)[i] == a[i]; } else { assert (a + b)[i] == b[i - |a|]; }
    }
  }

  lemma {:induction false} ReplaceCharFree(s: string, a: char, b: char)
    requires a !in s
    ensures ReplaceChar(s, a, b) == s
  {
    var r := ReplaceChar(s, a, b);
    forall i | 0 <= i < |s| ensures r[i] == s[i] {
      assert s[i] != a;
    }
  }

  /** Replacing characters by one that `pat` lacks creates no match of `pat`. */
  lemma {:induction false} ContainsReplaceChar(s: string, a: char, b: char, pat: string)
    requires b !in pat && Contains(ReplaceChar(s, a, b), pat)
    ensures Contains(s, pat)
    decreases |s|
  {
    var r := ReplaceChar(s, a, b);
    if pat <= r {
      forall k | 0 <= k < |pat| ensures s[k] == pat[k] {
        assert r[k] == pat[k];
      }
      assert pat <= s;
    } else {
      assert r[1..] == ReplaceChar(s[1..], a, b);
      ContainsReplaceChar(s[1..], a, b, pat);
    }
  }

  /** `re.sub` passes over text that cannot start a tag before a character the
      opening lacks. */
  /** Without a tag at its front, the first character is kept. */
  lemma {:induction false} RemoveTagsKeep(s: string, t: string, open: string, close: char)
    requires s != [] && TagLength(s, open, close) == 0 && s[1..] == t
    ensures RemoveTags(s, open, close) == [s[0]] + RemoveTags(t, open, close)
  {
  }

  /** No tag starts at the front of `x + [c] + y` when `x` lacks the tag's
      opening and `c` is not part of it. */
  lemma {:induction false} NoTagBefore(x: string, c: char, y: string, open: string, close: char)
    requires |open| > 0 && c !in open && !Contains(x, open)
    ensures TagLength(x + [c] + y, open, close) == 0
  {
    var s := x + [c] + y;
    if |open| <= |x| {
      assert s[..|open|] == x[..|open|];
    } else {
      assert s[|x|] == c && open[|x|] != c;
    }
  }

  /** One step of `RemoveTagsAround`: the first character of `x` is kept. */
  lemma {:induction false} RemoveTagsAroundStep(x: string, c: char, y: string, open: string, close: char)
    requires |open| > 0 && c !in open && !Contains(x, open) && x != []
    requires RemoveTags(x[1..] + [c] + y, open, close) == x[1..] + [c] + RemoveTags(y, open, close)
    ensures RemoveTags(x + [c] + y, open, close) == x + [c] + RemoveTags(y, open, close)
  {
    RemoveTagsFront(x, c, y, open, close);
    FrontAround(x, c, RemoveTags(y, open, close));
  }

  lemma {:induction false} RemoveTagsFront(x: string, c: char, y: string, open: string, close: char)
    requires |open| > 0 && c !in open && !Contains(x, open) && x != []
    ensures RemoveTags(x + [c] + y, open, close) == [x[0]] + RemoveTags(x[1..] + [c] + y, open, close)
  {
    var s := x + [c] + y;
    var t := x[1..] + [c] + y;
    NoTagBefore(x, c, y, open, close);
    assert s[0] == x[0] && s[1..] == t;
    RemoveTagsKeep(s, t, open, close);
  }

  lemma FrontAround(x: string, c: char, r: string)
    requires x != []
    ensures [x[0]] + (x[1..] + [c] + r) == x + [c] + r
  {
    assert x == [x[0]] + x[1..];
  }

  lemma {:induction false} RemoveTagsAround(x: string, c: char, y: string, open: string, close: char)
    requires |open| > 0 && c !in open && !Contains(x, open)
    ensures RemoveTags(x + [c] + y, open, close) == x + [c] + RemoveTags(y, open, close)
    decreases |x|
  {
    if x == [] {
      var s := x + [c] + y;
      NoTagBefore(x, c, y, open, close);
      assert s[0] == c && s[1..] == y;
      RemoveTagsKeep(s, y, open, close);
    } else {
      RemoveTagsAround(x[1..], c, y, open, close);
      RemoveTagsAroundStep(x, c, y, open, close);
    }
  }

  lemma {:induction false} RemoveTagsFree(s: string, open: string, close: char)
    requires |open| > 0 && !Contains(s, open)
    ensures RemoveTags(s, open, close) == s
    decreases |s|
  {
    if s != [] {
      assert TagLength(s, open, close) == 0;
      RemoveTagsFree(s[1..], open, close);
    }
  }

  lemma {:induction false} RemoveTagsChars(s: string, open: string, close: char)
    ensures forall x :: x in RemoveTags(s, open, close) ==> x in s
    decreases |s|
  {
    if s != [] {
      var n := TagLength(s, open, close);
      if n > 0 {
        RemoveTagsChars(s[n..], open, close);
      } else {
        RemoveTagsChars(s[1..], open, close);
      }
    }
  }

  lemma {:induction false} DigitRunPrefix(d: string, t: string)
    requires forall i :: 0 <= i < |d| ==> IsDigit(d[i])
    requires t == [] || !IsDigit(t[0])
    ensures DigitRun(d + t) == |d|
    decreases |d|
  {
    if d == [] {
      assert d + t == t;
    } else {
      assert (d + t)[1..] == d[1..] + t;
      DigitRunPrefix(d[1..], t);
    }
  }

  /** `t` matches `open \d+ close` in full. */
  predicate IsTag(t: string, open: string, close: char)
  {
    |t| >= |open| + 2 && t[..|open|] == open && t[|t| - 1] == close &&
    forall j :: |open| <= j < |t| - 1 ==> IsDigit(t[j])
  }

  /** A whole tag at the start of the text is deleted. */
  lemma {:induction false} RemoveTagsLeading(t: string, rest: string, open: string, close: char)
    requires IsTag(t, open, close) && !IsDigit(close)
    ensures RemoveTags(t + rest, open, close) == RemoveTags(rest, open, close)
  {
    var s := t + rest;
    assert s[..|open|] == open;
    var digits := t[|open|..|t| - 1];
    assert s[|open|..] == digits + ([close] + rest);
    DigitRunPrefix(digits, [close] + rest);
    assert s[|t| - 1] == close;
    assert TagLength(s, open, close) == |t|;
    assert s[|t|..] == rest;
  }

  // ---------------------------------------------------------------------------
  // Counting characters.

  /** `s.count(c)` for a single character. */
  function CountChar(s: string, c: char): nat
    decreases |s|
  {
    if s == [] then 0 else (if s[0] == c then 1 else 0) + CountChar(s[1..], c)
  }

  /** `sum(line.count(c) for line in lines)`. */
  function CountLines(lines: seq<string>, c: char): nat
    decreases |lines|
  {
    if lines == [] then 0 else CountChar(lines[0], c) + CountLines(lines[1..], c)
  }

  lemma {:induction false} CountCharAbsent(s: string, c: char)
    ensures CountChar(s, c) == 0 <==> c !in s
    decreases |s|
  {
    if s != [] {
      CountCharAbsent(s[1..], c);
      assert c in s <==> s[0] == c || c in s[1..];
    }
  }

  /** A character at exactly one position is counted once. */
  lemma {:induction false} CountCharOne(s: string, c: char, k: int)
    requires 0 <= k < |s| && s[k] == c
    requires forall j :: 0 <= j < |s| && j != k ==> s[j] != c
    ensures CountChar(s, c) == 1
    decreases |s|
  {
    if k == 0 {
      CountCharAbsent(s[1..], c);
    } else {
      CountCharOne(s[1..], c, k - 1);
    }
  }

  lemma {:induction false} CountLinesAbsent(lines: seq<string>, c: char)
    requires forall i :: 0 <= i < |lines| ==> c !in lines[i]
    ensures CountLines(lines, c) == 0
    decreases |lines|
  {
    if lines != [] {
      CountCharAbsent(lines[0], c);
      CountLinesAbsent(lines[1..], c);
    }
  }

  /** Lines of which exactly one holds `c`, once, hold it once in all. */
  lemma {:induction false} CountLinesOne(lines: seq<string>, c: char, k: int)
    requires 0 <= k < |lines| && CountChar(lines[k], c) == 1
    requires forall i :: 0 <= i < |lines| && i != k ==> c !in lines[i]
    ensures CountLines(lines, c) == 1
    decreases |lines|
  {
    if k == 0 {
      CountLinesAbsent(lines[1..], c);
    } else {
      CountCharAbsent(lines[0], c);
      CountLinesOne(lines[1..], c, k - 1);
    }
  }

  lemma {:induction false} CountCharAppend(a: string, b: string, c: char)
    ensures CountChar(a + b, c) == CountChar(a, c) + CountChar(b, c)
    decreases |a|
  {
    if a != [] {
      assert (a + b)[1..] == a[1..] + b;
      CountCharAppend(a[1..], b, c);
    } else {
      assert a + b == b;
    }
  }

  lemma {:induction false} CountLinesAppend(a: seq<string>, b: seq<string>, c: char)
    ensures CountLines(a + b, c) == CountLines(a, c) + CountLines(b, c)
    decreases |a|
  {
    if a != [] {
      assert (a + b)[1..] == a[1..] + b;
      CountLinesAppend(a[1..], b, c);
    } else {
      assert a + b == b;
    }
  }

  /** `(c * n).count(c)` is `n` for a non-negative `n`, and 0 otherwise. */
  lemma {:induction false} CountCharRepeat(c: char, n: int)
    ensures CountChar(Repeat(c, n), c) == if n > 0 then n else 0
    decreases n
  {
    if n > 0 {
      assert Repeat(c, n)[1..] == Repeat(c, n - 1);
      CountCharRepeat(c, n - 1);
    }
  }
}
