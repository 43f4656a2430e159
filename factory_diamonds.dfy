/** The diamond generator of the dataset factory (`generate_diamond_entry`): a
    square of side `2 * radius + 1` filled with the transparency marker, with
    the N and S anchors on its tips, W and E at the two ends of the equator and
    `/` and `\` walls between them. */
module DiamondFactory {
  import opened PyText

  const ALPHA: char := '░'

  function Abs(v: int): nat
  {
    if v < 0 then -v else v
  }

  /** Character at column `x` of row `y` in a diamond of radius `r`. */
  function DiamondCell(r: int, y: int, x: int): char
  {
    var dist := Abs(r - y);
    if dist == r then
      (if x == r then (if y == 0 then 'N' else 'S') else ALPHA)
    else if dist == 0 then
      (if x == 0 then 'W' else if x == 2 * r then 'E' else ALPHA)
    else if x == dist then
      (if y < r then '/' else '\\')
    else if x == 2 * r - dist then
      (if y < r then '\\' else '/')
    else ALPHA
  }

  function DiamondRow(r: int, y: int): (row: string)
    requires r >= 0
    ensures |row| == 2 * r + 1
  {
    seq(2 * r + 1, x requires 0 <= x < 2 * r + 1 => DiamondCell(r, y, x))
  }

  /** The lines `generate_diamond_entry(radius)` returns; `range(height)` is
      empty for a negative radius. */
  function DiamondArt(r: int): (art: seq<string>)
    ensures |art| == if r < 0 then 0 else 2 * r + 1
  {
    if r < 0 then [] else seq(2 * r + 1, y requires 0 <= y < 2 * r + 1 => DiamondRow(r, y))
  }

  /** One pass of the row loop of `generate_diamond_entry`: a row of markers
      with the tip, the two ends or the two walls written into it. */
  method DrawDiamondRow(radius: int, y: int) returns (row: string)
    requires 0 <= y <= 2 * radius
    ensures row == DiamondRow(radius, y)
  {
    var width := radius * 2 + 1;
    var centerIdx := radius;
    row := Repeat(ALPHA, width);
    var dist := Abs(centerIdx - y);
    var spread := radius - dist;
    var leftPos := centerIdx - spread;
    var rightPos := centerIdx + spread;
    if dist == radius {
      if y == 0 {
        row := row[centerIdx := 'N'];
      } else {
        row := row[centerIdx := 'S'];
      }
    } else if dist == 0 {
      row := row[0 := 'W'];
      row := row[|row| - 1 := 'E'];
    } else {
      if y < centerIdx {
        row := row[leftPos := '/'];
        row := row[rightPos := '\\'];
      } else {
        row := row[leftPos := '\\'];
        row := row[rightPos := '/'];
      }
    }
    forall x | 0 <= x < width ensures row[x] == DiamondCell(radius, y, x) {
    }
  }

  /** `generate_diamond_entry(radius)`: returns the lines, the width and the
      height. */
  method GenerateDiamondEntry(radius: int) returns (lines: seq<string>, width: int, height: int)
    ensures lines == DiamondArt(radius)
    ensures width == 2 * radius + 1 && height == width
  {
    width := radius * 2 + 1;
    height := width;
    lines := [];
    var y := 0;
    while y < height
      invariant 0 <= y && (height > 0 ==> y <= height)
      invariant |lines| == y && (y > 0 ==> radius >= 0)
      invariant forall j :: 0 <= j < y ==> lines[j] == DiamondRow(radius, j)
    {
      var row := DrawDiamondRow(radius, y);
      lines := lines + [row];
      y := y + 1;
    }
    if radius < 0 {
      assert lines == [];
    }
  }

  // ---------------------------------------------------------------------------
  // Properties.

  /** A negative radius gives no lines; radius 0 gives the single line `N`. */
  lemma {:induction false} DiamondDegenerate(r: int)
    ensures r < 0 ==> DiamondArt(r) == []
    ensures DiamondArt(0) == ["N"]
  {
    assert DiamondArt(0)[0] == DiamondRow(0, 0);
    assert DiamondRow(0, 0) == ['N'];
  }

  /** A square of `2r + 1` lines of `2r + 1` characters. */
  lemma {:induction false} DiamondShape(r: int)
    requires r >= 0
    ensures |DiamondArt(r)| == 2 * r + 1
    ensures forall y :: 0 <= y <= 2 * r ==> |DiamondArt(r)[y]| == 2 * r + 1
  {
  }

  /** The drawn cells are exactly those at Manhattan distance `r` from the
      centre `(r, r)`: the outline of the diamond. */
  lemma {:induction false} DiamondOutline(r: int, y: int, x: int)
    requires 0 <= y <= 2 * r && 0 <= x <= 2 * r
    ensures DiamondCell(r, y, x) != ALPHA <==> Abs(x - r) + Abs(y - r) == r
  {
  }

  /** `/` and `\` swapped, and N and S (tips) or W and E (ends) swapped. */
  function FlipVertical(c: char): char
  {
    if c == '/' then '\\' else if c == '\\' then '/' else if c == 'N' then 'S' else if c == 'S' then 'N' else c
  }

  function FlipHorizontal(c: char): char
  {
    if c == '/' then '\\' else if c == '\\' then '/' else if c == 'W' then 'E' else if c == 'E' then 'W' else c
  }

  /** Upside down, the diamond is itself with the slants and the tips swapped. */
  lemma {:induction false} DiamondMirrorVertical(r: int, y: int, x: int)
    requires r >= 1 && 0 <= y <= 2 * r && 0 <= x <= 2 * r
    ensures DiamondArt(r)[2 * r - y][x] == FlipVertical(DiamondArt(r)[y][x])
  {
    assert DiamondArt(r)[2 * r - y][x] == DiamondCell(r, 2 * r - y, x);
    assert DiamondArt(r)[y][x] == DiamondCell(r, y, x);
  }

  /** Left to right, the diamond is itself with the slants and the ends swapped. */
  lemma {:induction false} DiamondMirrorHorizontal(r: int, y: int, x: int)
    requires r >= 1 && 0 <= y <= 2 * r && 0 <= x <= 2 * r
    ensures DiamondArt(r)[y][2 * r - x] == FlipHorizontal(DiamondArt(r)[y][x])
  {
    assert DiamondArt(r)[y][2 * r - x] == DiamondCell(r, y, 2 * r - x);
    assert DiamondArt(r)[y][x] == DiamondCell(r, y, x);
  }

  /** Strictly between a tip and the equator, a row holds its two walls at
      columns `dist` and `2r - dist`: `/` then `\` above the equator, `\` then
      `/` below it. */
  lemma {:induction false} DiamondWalls(r: int, y: int)
    requires r >= 1 && 0 <= y <= 2 * r && 0 < Abs(r - y) < r
    ensures var d := Abs(r - y); var row := DiamondArt(r)[y];
      d < 2 * r - d &&
      row[d] == (if y < r then '/' else '\\') &&
      row[2 * r - d] == (if y < r then '\\' else '/') &&
      forall x :: 0 <= x <= 2 * r && x != d && x != 2 * r - d ==> row[x] == ALPHA
  {
    assert DiamondArt(r)[y] == DiamondRow(r, y);
  }

  /** For a radius of 1 or more, each anchor letter appears exactly once: N at
      the top tip, S at the bottom tip, W and E at the ends of the equator. */
  lemma {:induction false} DiamondTipsOnce(r: int)
    requires r >= 1
    ensures CountLines(DiamondArt(r), 'N') == 1 && DiamondArt(r)[0][r] == 'N'
    ensures CountLines(DiamondArt(r), 'S') == 1 && DiamondArt(r)[2 * r][r] == 'S'
  {
    var art := DiamondArt(r);
    assert art[0] == DiamondRow(r, 0);
    assert art[2 * r] == DiamondRow(r, 2 * r);
    CountCharOne(art[0], 'N', r);
    CountCharOne(art[2 * r], 'S', r);
    forall y | 0 <= y <= 2 * r
      ensures y != 0 ==> 'N' !in art[y]
      ensures y != 2 * r ==> 'S' !in art[y]
    {
      assert art[y] == DiamondRow(r, y);
    }
    CountLinesOne(art, 'N', 0);
    CountLinesOne(art, 'S', 2 * r);
  }

  lemma {:induction false} DiamondSidesOnce(r: int)
    requires r >= 1
    ensures CountLines(DiamondArt(r), 'W') == 1 && DiamondArt(r)[r][0] == 'W'
    ensures CountLines(DiamondArt(r), 'E') == 1 && DiamondArt(r)[r][2 * r] == 'E'
  {
    var art := DiamondArt(r);
    assert art[r] == DiamondRow(r, r);
    CountCharOne(art[r], 'W', 0);
    CountCharOne(art[r], 'E', 2 * r);
    forall y | 0 <= y <= 2 * r && y != r ensures 'W' !in art[y] && 'E' !in art[y] {
      assert art[y] == DiamondRow(r, y);
    }
    CountLinesOne(art, 'W', r);
    CountLinesOne(art, 'E', r);
  }
}
