/** The character canvas: a `height x width` grid of cells with bounds-checked
    writes, a block overlay that can treat `'░'` as transparent, and a render step
    that trims every row on the right. The pure functions state what each
    operation does to the grid; the class `Canvas` holds the grid and its methods
    are proved to do exactly that. */
module AsciiCanvas {
  import opened PyText

  /** The transparency marker: a stamped `'░'` leaves the cell below untouched. */
  const ALPHA: char := '░'

  /** Rows of cells, indexed `grid[y][x]`. */
  type Rows = seq<seq<char>>

  predicate IsRect(g: Rows, width: int, height: int)
  {
    |g| == height && forall y :: 0 <= y < |g| ==> |g[y]| == width
  }

  predicate SameShape(g: Rows, h: Rows)
  {
    |g| == |h| && forall y :: 0 <= y < |g| ==> |g[y]| == |h[y]|
  }

  predicate InBounds(g: Rows, x: int, y: int)
  {
    0 <= y < |g| && 0 <= x < |g[y]|
  }

  /** A fresh canvas: `height` rows of `width` spaces. */
  function Blank(width: nat, height: nat): (g: Rows)
    ensures IsRect(g, width, height)
    ensures forall y, x :: 0 <= y < height && 0 <= x < width ==> g[y][x] == ' '
  {
    seq(height, _ => Repeat(' ', width))
  }

  /** Writing one character: the cell at `(x, y)` changes when it exists, and no
      other cell ever changes. */
  function Put(g: Rows, x: int, y: int, ch: char): (r: Rows)
    ensures SameShape(r, g)
    ensures forall cy, cx :: InBounds(g, cx, cy) ==>
              r[cy][cx] == if cy == y && cx == x then ch else g[cy][cx]
  {
    if InBounds(g, x, y) then g[y := g[y][x := ch]] else g
  }

  /** One character of a stamp: skipped when it is the marker and the stamp is transparent. */
  function StampChar(g: Rows, x: int, y: int, ch: char, transparent: bool): (r: Rows)
    ensures SameShape(r, g)
  {
    if transparent && ch == ALPHA then g else Put(g, x, y, ch)
  }

  /** Stamping one line of a block, left to right from column `x` of row `y`. */
  function StampLine(g: Rows, x: int, y: int, line: string, transparent: bool): (r: Rows)
    ensures SameShape(r, g)
    decreases |line|
  {
    if line == [] then g
    else StampLine(StampChar(g, x, y, line[0], transparent), x + 1, y, line[1..], transparent)
  }

  /** Stamping the lines of a block, top to bottom from row `y`. */
  function StampLines(g: Rows, x: int, y: int, lines: seq<string>, transparent: bool): (r: Rows)
    ensures SameShape(r, g)
    decreases |lines|
  {
    if lines == [] then g
    else StampLines(StampLine(g, x, y, lines[0], transparent), x, y + 1, lines[1..], transparent)
  }

  /** The lines from index `i` on: line `i` first, then the rest. */
  lemma StampLinesStep(g: Rows, x: int, y: int, lines: seq<string>, i: nat, transparent: bool)
    requires i < |lines|
    ensures StampLines(g, x, y, lines[i..], transparent) ==
            StampLines(StampLine(g, x, y, lines[i], transparent), x, y + 1, lines[i + 1..], transparent)
  {
    assert lines[i..][1..] == lines[i + 1..];
  }

  /** The characters from index `j` on: character `j` first, then the rest. */
  lemma StampLineStep(g: Rows, x: int, y: int, line: string, j: nat, transparent: bool)
    requires j < |line|
    ensures StampLine(g, x, y, line[j..], transparent) ==
            StampLine(StampChar(g, x, y, line[j], transparent), x + 1, y, line[j + 1..], transparent)
  {
    assert line[j..][1..] == line[j + 1..];
  }

  /** Stamping a multi-line block with its top-left corner at `(x, y)`. */
  function StampBlock(g: Rows, x: int, y: int, block: string, transparent: bool): (r: Rows)
    ensures SameShape(r, g)
  {
    StampLines(g, x, y, Lines(block), transparent)
  }

  /** Whether stamping `lines` at `(x, y)` writes the cell `(cx, cy)`. */
  predicate Covers(x: int, y: int, lines: seq<string>, transparent: bool, cx: int, cy: int)
  {
    0 <= cy - y < |lines| && 0 <= cx - x < |lines[cy - y]| &&
    !(transparent && lines[cy - y][cx - x] == ALPHA)
  }

  /** The rendered rows: each row with its trailing whitespace removed. */
  function RenderedLines(g: Rows): (r: seq<string>)
    ensures |r| == |g|
  {
    seq(|g|, i requires 0 <= i < |g| => RStrip(g[i]))
  }

  /** `render()`: the trimmed rows joined by newlines. */
  function RenderRows(g: Rows): string
  {
    JoinLines(RenderedLines(g))
  }

  // ---------------------------------------------------------------------------
  // What a stamp does, cell by cell.

  lemma {:induction false} StampLineCells(g: Rows, x: int, y: int, line: string, transparent: bool)
    ensures forall cy, cx :: InBounds(g, cx, cy) ==>
              StampLine(g, x, y, line, transparent)[cy][cx] ==
                if cy == y && x <= cx < x + |line| && !(transparent && line[cx - x] == ALPHA)
                then line[cx - x] else g[cy][cx]
    decreases |line|
  {
    if line != [] {
      var g1 := StampChar(g, x, y, line[0], transparent);
      StampLineCells(g1, x + 1, y, line[1..], transparent);
    }
  }

  /** Stamping writes `lines[i][j]` at `(x + j, y + i)` for every cell the block
      covers (all of them, or all but the `'░'` ones when transparent) and leaves
      every other cell of the canvas as it was; off-canvas cells are dropped. */
  lemma {:induction false} StampLinesCells(g: Rows, x: int, y: int, lines: seq<string>, transparent: bool)
    ensures forall cy, cx :: InBounds(g, cx, cy) ==>
              StampLines(g, x, y, lines, transparent)[cy][cx] ==
                if Covers(x, y, lines, transparent, cx, cy) then lines[cy - y][cx - x] else g[cy][cx]
    decreases |lines|
  {
    if lines != [] {
      var g1 := StampLine(g, x, y, lines[0], transparent);
      StampLineCells(g, x, y, lines[0], transparent);
      StampLinesCells(g1, x, y + 1, lines[1..], transparent);
      forall cy, cx | InBounds(g, cx, cy)
        ensures StampLines(g, x, y, lines, transparent)[cy][cx] ==
                if Covers(x, y, lines, transparent, cx, cy) then lines[cy - y][cx - x] else g[cy][cx]
      {
        if cy != y {
          assert Covers(x, y, lines, transparent, cx, cy) == Covers(x, y + 1, lines[1..], transparent, cx, cy);
        }
      }
    }
  }

  /** A transparent stamp never writes the marker, so a canvas without `'░'`
      stays without it. */
  lemma TransparentStampKeepsMarkerOut(g: Rows, x: int, y: int, block: string)
    requires forall cy, cx :: InBounds(g, cx, cy) ==> g[cy][cx] != ALPHA
    ensures var r := StampBlock(g, x, y, block, true);
            forall cy, cx :: InBounds(r, cx, cy) ==> r[cy][cx] != ALPHA
  {
    StampLinesCells(g, x, y, Lines(block), true);
  }

  /** A space in the block is an ordinary character: it overwrites the cell below.
      Without transparency `'░'` is written like any other character. */
  lemma StampOverwritesWithSpaceAndOpaqueMarker(g: Rows, x: int, y: int, block: string, transparent: bool, i: nat, j: nat)
    requires i < |Lines(block)| && j < |Lines(block)[i]|
    requires Lines(block)[i][j] == ' ' || (!transparent && Lines(block)[i][j] == ALPHA)
    requires InBounds(g, x + j, y + i)
    ensures StampBlock(g, x, y, block, transparent)[y + i][x + j] == Lines(block)[i][j]
  {
    StampLinesCells(g, x, y, Lines(block), transparent);
    assert Covers(x, y, Lines(block), transparent, x + j, y + i);
  }

  /** The render has one line per row once it is split at newlines, each the row
      with its trailing whitespace removed: a prefix of the row, no longer than
      the width, and not ending in whitespace. */
  lemma RenderLines(g: Rows, width: nat, height: nat)
    requires IsRect(g, width, height) && height >= 1
    requires forall y, x :: 0 <= y < height && 0 <= x < width ==> g[y][x] != '\n'
    ensures Lines(RenderRows(g)) == RenderedLines(g)
    ensures |Lines(RenderRows(g))| == height
    ensures forall y :: 0 <= y < height ==>
              var l := RenderedLines(g)[y];
              l <= g[y] && |l| <= width && (l == [] || !IsSpace(l[|l| - 1]))
  {
    var ls := RenderedLines(g);
    forall y | 0 <= y < height ensures '\n' !in ls[y] {
      assert '\n' !in g[y] by {
        forall x | 0 <= x < |g[y]| ensures g[y][x] != '\n' {
        }
      }
      PrefixLacks(ls[y], g[y], '\n');
    }
    SplitJoinChar(ls, '\n');
  }

  lemma PrefixLacks(l: string, s: string, c: char)
    requires l <= s && c !in s
    ensures c !in l
  {
    assert forall i :: 0 <= i < |l| ==> l[i] == s[i];
  }

  /** The canvas: a grid of `height` rows of `width` cells, owned by this object. */
  class Canvas {
    var width: nat
    var height: nat
    var grid: Rows

    ghost predicate Valid()
      reads this
    {
      IsRect(grid, width, height)
    }

    /** A new canvas of the given size, every cell a space. */
    constructor (width: nat, height: nat)
      ensures Valid()
      ensures this.width == width && this.height == height
      ensures grid == Blank(width, height)
    {
      this.width := width;
      this.height := height;
      grid := Blank(width, height);
    }

    /** `put_char`: writes `ch` at `(x, y)` when it lies on the canvas and does
        nothing (and never fails) otherwise. */
    method PutChar(x: int, y: int, ch: char)
      requires Valid()
      modifies this
      ensures Valid() && width == old(width) && height == old(height)
      ensures grid == Put(old(grid), x, y, ch)
    {
      if 0 <= x < width && 0 <= y < height {
        grid := grid[y := grid[y][x := ch]];
      }
    }

    /** `stamp`: overlays the lines of `block` with their top-left corner at
        `(startX, startY)`, one `put_char` per character, skipping `'░'` when
        `transparent`. */
    method Stamp(startX: int, startY: int, block: string, transparent: bool)
      requires Valid()
      modifies this
      ensures Valid() && width == old(width) && height == old(height)
      ensures grid == StampBlock(old(grid), startX, startY, block, transparent)
    {
      var lines := Lines(block);
      ghost var target := StampBlock(grid, startX, startY, block, transparent);
      var i := 0;
      while i < |lines|
        invariant 0 <= i <= |lines|
        invariant Valid() && width == old(width) && height == old(height)
        invariant StampLines(grid, startX, startY + i, lines[i..], transparent) == target
      {
        var currentY := startY + i;
        ghost var before := grid;
        StampLinesStep(before, startX, currentY, lines, i, transparent);
        StampRow(startX, currentY, lines[i], transparent);
        assert grid == StampLine(before, startX, currentY, lines[i], transparent);
        i := i + 1;
      }
    }

    /** The inner loop of `stamp`: one line of the block, left to right. */
    method StampRow(startX: int, currentY: int, line: string, transparent: bool)
      requires Valid()
      modifies this
      ensures Valid() && width == old(width) && height == old(height)
      ensures grid == StampLine(old(grid), startX, currentY, line, transparent)
    {
      ghost var target := StampLine(grid, startX, currentY, line, transparent);
      var j := 0;
      while j < |line|
        invariant 0 <= j <= |line|
        invariant Valid() && width == old(width) && height == old(height)
        invariant StampLine(grid, startX + j, currentY, line[j..], transparent) == target
      {
        var ch := line[j];
        var currentX := startX + j;
        StampLineStep(grid, startX + j, currentY, line, j, transparent);
        if !(transparent && ch == ALPHA) {
          PutChar(currentX, currentY, ch);
        }
        j := j + 1;
      }
    }

    /** `render`: the rows, each trimmed on the right, joined by newlines. */
    method Render() returns (s: string)
      ensures s == RenderRows(grid)
    {
      var output: seq<string> := [];
      var k := 0;
      while k < |grid|
        invariant 0 <= k <= |grid|
        invariant |output| == k && forall i :: 0 <= i < k ==> output[i] == RStrip(grid[i])
      {
        output := output + [RStrip(grid[k])];
        k := k + 1;
      }
      assert output == RenderedLines(grid);
      s := JoinLines(output);
    }

    /** `clear`: every cell back to a space; the size is kept. */
    method Clear()
      requires Valid()
      modifies this
      ensures Valid() && width == old(width) && height == old(height)
      ensures grid == Blank(width, height)
    {
      grid := Blank(width, height);
    }
  }
}
