/** The arrow generator of the dataset factory (`generate_arrow_art`): a
    straight shaft of `-` or `|` ending in one of the heads `>`, `<`, `v`, `^`. */
module ArrowFactory {
  import opened PyText

  /** The directions the generator draws; any other gives no lines. */
  predicate IsDirection(direction: string)
  {
    direction == "RIGHT" || direction == "LEFT" || direction == "DOWN" || direction == "UP"
  }

  /** `range(n)` for the vertical shaft: `n` lines `|`, none when `n <= 0`. */
  function VerticalShaft(n: int): (r: seq<string>)
    ensures |r| == if n > 0 then n else 0
  {
    seq(if n > 0 then n else 0, _ => "|")
  }

  /** The lines `generate_arrow_art(length, direction)` returns. */
  function ArrowArt(length: int, direction: string): seq<string>
  {
    if direction == "RIGHT" then [Repeat('-', length - 1) + ">"]
    else if direction == "LEFT" then ["<" + Repeat('-', length - 1)]
    else if direction == "DOWN" then VerticalShaft(length - 1) + ["v"]
    else if direction == "UP" then ["^"] + VerticalShaft(length - 1)
    else []
  }

  function Head(direction: string): char
  {
    if direction == "RIGHT" then '>' else if direction == "LEFT" then '<'
    else if direction == "DOWN" then 'v' else '^'
  }

  function Shaft(direction: string): char
  {
    if direction == "RIGHT" || direction == "LEFT" then '-' else '|'
  }

  method GenerateArrowArt(length: int, direction: string) returns (art: seq<string>)
    ensures art == ArrowArt(length, direction)
  {
    art := [];
    if direction == "RIGHT" {
      var row := Repeat('-', length - 1) + ">";
      art := art + [row];
    } else if direction == "LEFT" {
      var row := "<" + Repeat('-', length - 1);
      art := art + [row];
    } else if direction == "DOWN" {
      var k := 0;
      while k < length - 1
        invariant 0 <= k <= (if length - 1 > 0 then length - 1 else 0)
        invariant art == VerticalShaft(k)
      {
        assert VerticalShaft(k) + ["|"] == VerticalShaft(k + 1);
        art := art + ["|"];
        k := k + 1;
      }
      assert art == VerticalShaft(length - 1);
      art := art + ["v"];
    } else if direction == "UP" {
      art := art + ["^"];
      var k := 0;
      while k < length - 1
        invariant 0 <= k <= (if length - 1 > 0 then length - 1 else 0)
        invariant art == ["^"] + VerticalShaft(k)
      {
        assert VerticalShaft(k) + ["|"] == VerticalShaft(k + 1);
        art := art + ["|"];
        k := k + 1;
      }
      assert VerticalShaft(k) == VerticalShaft(length - 1);
    }
  }

  // ---------------------------------------------------------------------------
  // Properties.

  /** An unknown direction draws nothing. */
  lemma {:induction false} ArrowUnknown(length: int, direction: string)
    requires !IsDirection(direction)
    ensures ArrowArt(length, direction) == []
  {
  }

  lemma {:induction false} CountShaft(n: int)
    ensures CountLines(VerticalShaft(n), '|') == if n > 0 then n else 0
    decreases n
  {
    if n > 0 {
      assert VerticalShaft(n)[1..] == VerticalShaft(n - 1);
      assert CountChar("|", '|') == 1;
      CountShaft(n - 1);
    }
  }

  lemma {:induction false} ShaftLacks(n: int, c: char)
    requires c != '|'
    ensures CountLines(VerticalShaft(n), c) == 0
  {
    forall i | 0 <= i < |VerticalShaft(n)| ensures c !in VerticalShaft(n)[i] {
    }
    CountLinesAbsent(VerticalShaft(n), c);
  }

  /** The horizontal arrows: one line, the head once, `length - 1` dashes. */
  lemma {:induction false} HorizontalCounts(length: int, direction: string)
    requires direction == "RIGHT" || direction == "LEFT"
    ensures var art := ArrowArt(length, direction); var n := if length > 1 then length else 1;
      |art| == 1 && |art[0]| == n &&
      CountLines(art, Head(direction)) == 1 && CountLines(art, '-') == n - 1
  {
    var art := ArrowArt(length, direction);
    var h := Head(direction);
    var bar := Repeat('-', length - 1);
    var head := [h];
    var line := if direction == "RIGHT" then bar + head else head + bar;
    assert art == [line];
    assert CountLines(art, h) == CountChar(line, h);
    assert CountLines(art, '-') == CountChar(line, '-');
    CountCharRepeat('-', length - 1);
    CountCharAbsent(bar, h);
    if direction == "RIGHT" {
      CountCharAppend(bar, head, h);
      CountCharAppend(bar, head, '-');
    } else {
      CountCharAppend(head, bar, h);
      CountCharAppend(head, bar, '-');
    }
  }

  /** The vertical arrows: `length` one-character lines, the head once,
      `length - 1` bars. */
  lemma {:induction false} VerticalCounts(length: int, direction: string)
    requires direction == "DOWN" || direction == "UP"
    ensures var art := ArrowArt(length, direction); var n := if length > 1 then length else 1;
      |art| == n && (forall i :: 0 <= i < n ==> |art[i]| == 1) &&
      CountLines(art, Head(direction)) == 1 && CountLines(art, '|') == n - 1
  {
    var h := Head(direction);
    var shaft := VerticalShaft(length - 1);
    var head := [[h]];
    CountShaft(length - 1);
    ShaftLacks(length - 1, h);
    CountCharOne([h], h, 0);
    CountLinesOne(head, h, 0);
    CountLinesAbsent(head, '|');
    if direction == "DOWN" {
      assert ArrowArt(length, direction) == shaft + head;
      CountLinesAppend(shaft, head, h);
      CountLinesAppend(shaft, head, '|');
    } else {
      assert ArrowArt(length, direction) == head + shaft;
      CountLinesAppend(head, shaft, h);
      CountLinesAppend(head, shaft, '|');
    }
  }

  /** In every direction, for a length of at least 1, the arrow has exactly one
      head and `length - 1` shaft characters, and nothing else: horizontal
      arrows are one line of `length` characters, vertical ones `length` lines
      of one character. A shorter length draws the head alone. */
  lemma {:induction false} ArrowCounts(length: int, direction: string)
    requires IsDirection(direction)
    ensures var art := ArrowArt(length, direction); var n := if length > 1 then length else 1;
      CountLines(art, Head(direction)) == 1 &&
      CountLines(art, Shaft(direction)) == n - 1 &&
      (direction == "RIGHT" || direction == "LEFT" ==> |art| == 1 && |art[0]| == n) &&
      (direction == "DOWN" || direction == "UP" ==> |art| == n && forall i :: 0 <= i < n ==> |art[i]| == 1)
  {
    if direction == "RIGHT" || direction == "LEFT" {
      HorizontalCounts(length, direction);
    } else {
      VerticalCounts(length, direction);
    }
  }

  /** `<` swapped with `>`. */
  function TurnHorizontal(c: char): char
  {
    if c == '>' then '<' else if c == '<' then '>' else c
  }

  /** The LEFT arrow is the RIGHT arrow read backwards with its head turned. */
  lemma {:induction false} ArrowLeftMirrorsRight(length: int)
    ensures var right := ArrowArt(length, "RIGHT")[0]; var left := ArrowArt(length, "LEFT")[0];
      |left| == |right| && forall i :: 0 <= i < |right| ==> left[i] == TurnHorizontal(right[|right| - 1 - i])
  {
    var bar := Repeat('-', length - 1);
    var right := ArrowArt(length, "RIGHT")[0];
    var left := ArrowArt(length, "LEFT")[0];
    forall i | 0 <= i < |right| ensures left[i] == TurnHorizontal(right[|right| - 1 - i]) {
      if i > 0 {
        assert left[i] == bar[i - 1];
        assert right[|right| - 1 - i] == bar[|bar| - i];
      }
    }
  }

  /** `^` swapped with `v`, on one-character lines. */
  function TurnVertical(line: string): string
  {
    if line == "v" then "^" else if line == "^" then "v" else line
  }

  /** The UP arrow is the DOWN arrow upside down with its head turned. */
  lemma {:induction false} ArrowUpMirrorsDown(length: int)
    ensures var down := ArrowArt(length, "DOWN"); var up := ArrowArt(length, "UP");
      |up| == |down| && forall i :: 0 <= i < |down| ==> up[i] == TurnVertical(down[|down| - 1 - i])
  {
  }

  /** The shaft and head turned a quarter turn clockwise. */
  function Downward(c: char): char
  {
    if c == '-' then '|' else if c == '>' then 'v' else c
  }

  /** The DOWN arrow, line by line, is the RIGHT arrow character by character
      turned downward. */
  lemma {:induction false} ArrowDownTransposesRight(length: int)
    ensures var right := ArrowArt(length, "RIGHT")[0]; var down := ArrowArt(length, "DOWN");
      |down| == |right| && forall i :: 0 <= i < |right| ==> down[i] == [Downward(right[i])]
  {
  }
}
