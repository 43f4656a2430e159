/** The grid router: `"A -> B ; C -> D"` becomes a ragged grid of labels
    (rows split at `;`, columns at `->`). Each label is classified by keyword,
    rendered and measured. Columns get the width of their widest node and rows
    the height of their tallest one; origins follow with fixed gaps. Every node
    is stamped, centred vertically in its row, and neighbours are joined by a
    horizontal connector (same row) or an elbowed vertical connector (next row,
    same column). The pure functions give the layout and the final grid; the
    class `Router` computes them with the source's loops. */
module GridRouter {
  import opened PyText
  import opened AsciiCanvas
  import opened Renderers

  const GAP_X: nat := 6
  const GAP_Y: nat := 4
  /** The first column and the first row start at 2. */
  const ORIGIN: nat := 2
  /** The canvas extends 5 cells past the last gap. */
  const MARGIN: nat := 5

  datatype Point = Point(x: int, y: int)

  /** The connection points of a node: north, south, east and west. */
  datatype Anchors = Anchors(n: Point, s: Point, e: Point, w: Point)

  /** A rendered node: its art, its measured width and height, and its shape. */
  datatype Node = Node(art: string, w: nat, h: nat, kind: ShapeKind)

  // ---------------------------------------------------------------------------
  // Parsing and classification.

  /** The non-empty strings of `xs`, in order. */
  function NonEmpty(xs: seq<string>): (r: seq<string>)
    ensures forall i :: 0 <= i < |r| ==> r[i] != [] && r[i] in xs
    decreases |xs|
  {
    if xs == [] then []
    else
      var rest := NonEmpty(xs[1..]);
      assert forall i :: 0 <= i < |rest| ==> rest[i] in xs by {
        forall i | 0 <= i < |rest| ensures rest[i] in xs {
          var j :| 0 <= j < |xs[1..]| && xs[1..][j] == rest[i];
          assert xs[j + 1] == rest[i];
        }
      }
      (if xs[0] != [] then [xs[0]] else []) + rest
  }

  /** `[node.strip() for node in pieces if node.strip()]`. */
  function KeepLabels(pieces: seq<string>): (r: seq<string>)
    ensures forall i :: 0 <= i < |r| ==>
              r[i] != [] && exists j :: 0 <= j < |pieces| && r[i] == Strip(pieces[j])
  {
    var stripped := seq(|pieces|, j requires 0 <= j < |pieces| => Strip(pieces[j]));
    var r := NonEmpty(stripped);
    assert forall i :: 0 <= i < |r| ==> exists j :: 0 <= j < |pieces| && r[i] == Strip(pieces[j]) by {
      forall i | 0 <= i < |r| ensures exists j :: 0 <= j < |pieces| && r[i] == Strip(pieces[j]) {
        var j :| 0 <= j < |stripped| && stripped[j] == r[i];
      }
    }
    r
  }

  /** The ragged grid: one row per `;`-separated piece (empty pieces give empty
      rows), the stripped non-empty `->`-separated labels of each. */
  function ParseGrid(layout: string): (g: seq<seq<string>>)
    ensures |g| == |SplitOn(layout, ";")| && |g| >= 1
  {
    var rows := SplitOn(layout, ";");
    seq(|rows|, r requires 0 <= r < |rows| => KeepLabels(SplitOn(rows[r], "->")))
  }

  /** The label taken from piece `pieces[j]` of a row without `;`. */
  lemma PieceLabelOk(row: string, j: int)
    requires ';' !in row && 0 <= j < |SplitOn(row, "->")|
    ensures var name := Strip(SplitOn(row, "->")[j]);
            IsStripped(name) && ';' !in name && !Contains(name, "->")
  {
    var piece := SplitOn(row, "->")[j];
    SplitPiecesFree(row, "->");
    StripContains(piece, "->");
    StripStripped(piece);
    SplitChars(row, "->");
    assert ';' !in piece;
  }

  /** The labels of one row without `;`. */
  lemma RowLabelsOk(row: string)
    ensures ';' !in row ==>
      forall i :: 0 <= i < |KeepLabels(SplitOn(row, "->"))| ==>
        var name := KeepLabels(SplitOn(row, "->"))[i];
        name != [] && IsStripped(name) && ';' !in name && !Contains(name, "->")
  {
    if ';' !in row {
      var pieces := SplitOn(row, "->");
      var labels := KeepLabels(pieces);
      forall i | 0 <= i < |labels|
        ensures labels[i] != [] && IsStripped(labels[i]) && ';' !in labels[i] && !Contains(labels[i], "->")
      {
        var j :| 0 <= j < |pieces| && labels[i] == Strip(pieces[j]);
        PieceLabelOk(row, j);
      }
    }
  }

  /** Every label of the grid is non-empty and stripped, and holds neither a
      `;` nor a `->`. */
  lemma ParseGridLabels(layout: string)
    ensures forall r, i :: 0 <= r < |ParseGrid(layout)| && 0 <= i < |ParseGrid(layout)[r]| ==>
              var name := ParseGrid(layout)[r][i];
              name != [] && IsStripped(name) && ';' !in name && !Contains(name, "->")
  {
    var rows := SplitOn(layout, ";");
    var g := ParseGrid(layout);
    SplitPiecesFree(layout, ";");
    forall r | 0 <= r < |g|
      ensures forall i :: 0 <= i < |g[r]| ==>
        g[r][i] != [] && IsStripped(g[r][i]) && ';' !in g[r][i] && !Contains(g[r][i], "->")
    {
      ContainsChar(rows[r], ';');
      RowLabelsOk(rows[r]);
    }
  }

  const DataKeys: seq<string> := ["DB", "SQL", "DATA"]
  const DecisionKeys: seq<string> := ["?", "IF", "DECISION"]
  const TerminalKeys: seq<string> := ["START", "END", "USER", "[DIR]"]

  /** The shape of a label, from keywords in its upper-cased text. */
  function Classify(name: string): ShapeKind
  {
    var u := Upper(name);
    if ContainsAny(u, DataKeys) then Cylinder
    else if ContainsAny(u, DecisionKeys) then Diamond
    else if ContainsAny(u, TerminalKeys) then SoftBox
    else Box
  }

  /** Classification is by strict keyword priority: data keywords, then
      decision keywords, then terminal keywords, else a Box; and it ignores
      case. */
  lemma ClassifyPriority(name: string)
    ensures var u := Upper(name);
            (Classify(name) == Cylinder <==> ContainsAny(u, DataKeys)) &&
            (Classify(name) == Diamond <==> !ContainsAny(u, DataKeys) && ContainsAny(u, DecisionKeys)) &&
            (Classify(name) == SoftBox <==>
               !ContainsAny(u, DataKeys) && !ContainsAny(u, DecisionKeys) && ContainsAny(u, TerminalKeys)) &&
            (Classify(name) == Box <==>
               !ContainsAny(u, DataKeys) && !ContainsAny(u, DecisionKeys) && !ContainsAny(u, TerminalKeys))
    ensures Classify(Upper(name)) == Classify(name)
  {
    UpperIdempotent(name);
  }

  // ---------------------------------------------------------------------------
  // Nodes and their measurements.

  /** `_get_node_shape` on the template path: the art the renderer of `kind`
      draws for the stripped label, with the width of its longest line and its
      line count. */
  function NodeShape(nodeText: string, kind: ShapeKind): Node
  {
    var lines := ShapeLines(kind, Strip(nodeText));
    Node(JoinLines(lines), MaxLen(lines), |lines|, kind)
  }

  /** A stripped string without words is empty. */
  lemma NoWordsEmpty(s: string)
    requires IsStripped(s) && SplitWords(s) == []
    ensures s == []
  {
  }

  /** The measurement is the one `_get_node_shape` takes of the art: splitting
      the art at newlines gives back exactly the renderer's lines, at least 3 of
      them, so the height is their count and the width the longest of them. */
  lemma NodeShapeMeasures(nodeText: string, kind: ShapeKind)
    ensures var n := NodeShape(nodeText, kind);
            var lines := Lines(n.art);
            lines == ShapeLines(kind, Strip(nodeText)) &&
            n.h == |lines| && n.h >= 3 && n.w == MaxLen(lines) && n.kind == kind
  {
    var text := Strip(nodeText);
    StripStripped(nodeText);
    if SplitWords(text) == [] {
      NoWordsEmpty(text);
    }
    ShapeLinesNoNewline(kind, text);
  }

  /** The node of one label: classified, then rendered. */
  function NodeOf(name: string): Node
  {
    NodeShape(name, Classify(name))
  }

  /** `f` applied to every label, in order. */
  function MapLabels(labels: seq<string>, f: string -> Node): (r: seq<Node>)
    ensures |r| == |labels|
  {
    seq(|labels|, c requires 0 <= c < |labels| => f(labels[c]))
  }

  /** The nodes of one row, classified and rendered, in column order. */
  function RowNodes(labels: seq<string>): (r: seq<Node>)
    ensures |r| == |labels|
  {
    MapLabels(labels, NodeOf)
  }

  /** The nodes of every row, in row order. */
  function GridNodes(grid: seq<seq<string>>): (r: seq<seq<Node>>)
    ensures |r| == |grid| && forall i :: 0 <= i < |r| ==> |r[i]| == |grid[i]|
  {
    seq(|grid|, i requires 0 <= i < |grid| => RowNodes(grid[i]))
  }

  function Widths(row: seq<Node>): (r: seq<nat>)
    ensures |r| == |row|
  {
    seq(|row|, c requires 0 <= c < |row| => row[c].w)
  }

  /** `d.get(k, 0)` on a list of consecutive keys. */
  function At(s: seq<nat>, k: int): nat
  {
    if 0 <= k < |s| then s[k] else 0
  }

  function Max(a: int, b: int): int
  {
    if a >= b then a else b
  }

  /** Folding one row's widths into the column maxima. */
  function MergeMax(a: seq<nat>, b: seq<nat>): (r: seq<nat>)
    ensures |r| == Max(|a|, |b|)
    ensures forall k :: 0 <= k < |r| ==> r[k] == Max(At(a, k), At(b, k))
  {
    seq(Max(|a|, |b|), k requires 0 <= k < Max(|a|, |b|) => Max(At(a, k), At(b, k)))
  }

  /** `col_widths`: the widest node of each column, rows taken in order. */
  function ColWidths(nodes: seq<seq<Node>>): seq<nat>
    decreases |nodes|
  {
    if nodes == [] then [] else MergeMax(ColWidths(nodes[..|nodes| - 1]), Widths(nodes[|nodes| - 1]))
  }

  /** Every column width is at least the width of every node in the column, and
      is the width of one of them: the column's maximum. There is one width for
      each column index some row reaches. */
  lemma {:induction false} ColWidthsAreMaxima(nodes: seq<seq<Node>>)
    ensures forall r :: 0 <= r < |nodes| ==> |nodes[r]| <= |ColWidths(nodes)|
    ensures forall r, c :: 0 <= r < |nodes| && 0 <= c < |nodes[r]| ==> nodes[r][c].w <= ColWidths(nodes)[c]
    ensures forall c :: 0 <= c < |ColWidths(nodes)| ==>
              exists r :: 0 <= r < |nodes| && c < |nodes[r]| && nodes[r][c].w == ColWidths(nodes)[c]
    decreases |nodes|
  {
    if nodes != [] {
      var n := |nodes| - 1;
      var prev := nodes[..n];
      ColWidthsAreMaxima(prev);
      var cw := ColWidths(nodes);
      var pw := ColWidths(prev);
      var last := Widths(nodes[n]);
      assert cw == MergeMax(pw, last);
      forall c | 0 <= c < |cw|
        ensures exists r :: 0 <= r < |nodes| && c < |nodes[r]| && nodes[r][c].w == cw[c]
      {
        assert cw[c] == Max(At(pw, c), At(last, c));
        if c < |pw| && (c >= |nodes[n]| || pw[c] >= nodes[n][c].w) {
          var r :| 0 <= r < |prev| && c < |prev[r]| && prev[r][c].w == pw[c];
          assert nodes[r] == prev[r];
        } else {
          assert last[c] == nodes[n][c].w;
          assert nodes[n][c].w == cw[c];
        }
      }
      forall r | 0 <= r < |nodes| ensures |nodes[r]| <= |cw| {
        if r < n { assert prev[r] == nodes[r]; }
      }
      forall r, c | 0 <= r < |nodes| && 0 <= c < |nodes[r]|
        ensures nodes[r][c].w <= cw[c]
      {
        assert cw[c] == Max(At(pw, c), At(last, c));
        if r < n {
          assert prev[r] == nodes[r];
          assert prev[r][c].w <= pw[c];
        } else {
          assert last[c] == nodes[n][c].w;
        }
      }
    } else {
      assert ColWidths(nodes) == [];
    }
  }

  /** The tallest node of a row; 0 for an empty row. */
  function MaxH(row: seq<Node>): (m: nat)
    ensures forall c :: 0 <= c < |row| ==> row[c].h <= m
    ensures row != [] ==> exists c :: 0 <= c < |row| && row[c].h == m
    ensures row == [] ==> m == 0
    decreases |row|
  {
    if row == [] then 0
    else
      var prev := MaxH(row[..|row| - 1]);
      assert forall c :: 0 <= c < |row| - 1 ==> row[c] == row[..|row| - 1][c];
      Max(prev, row[|row| - 1].h)
  }

  /** `row_heights`. */
  function RowHeights(nodes: seq<seq<Node>>): (r: seq<nat>)
    ensures |r| == |nodes|
  {
    seq(|nodes|, i requires 0 <= i < |nodes| => MaxH(nodes[i]))
  }

  /** The band origins: `start`, then each next origin is the previous one plus
      the band's size plus the gap. The last entry is where a further band would
      start (`curr_x` or `curr_y` after the loop). */
  function Offsets(sizes: seq<nat>, gap: nat, start: int): (o: seq<int>)
    ensures |o| == |sizes| + 1 && o[0] == start
    ensures forall k {:trigger sizes[k]} :: 0 <= k < |sizes| ==> o[k + 1] == o[k] + sizes[k] + gap
    decreases |sizes|
  {
    if sizes == [] then [start]
    else
      var n := |sizes| - 1;
      var p := Offsets(sizes[..n], gap, start);
      assert forall k :: 0 <= k < n ==> sizes[..n][k] == sizes[k];
      p + [p[n] + sizes[n] + gap]
  }

  /** Origins only grow: band `i` ends before band `j` starts, for `i < j`. */
  lemma {:induction false} OffsetsIncrease(sizes: seq<nat>, gap: nat, start: int, i: nat, j: nat)
    requires i < j <= |sizes|
    ensures Offsets(sizes, gap, start)[i] + sizes[i] + gap <= Offsets(sizes, gap, start)[j]
    decreases j - i
  {
    if i + 1 < j {
      OffsetsIncrease(sizes, gap, start, i + 1, j);
    }
  }

  // ---------------------------------------------------------------------------
  // The layout.

  datatype Layout = Layout(nodes: seq<seq<Node>>, colWidths: seq<nat>, rowHeights: seq<nat>,
                           xs: seq<int>, ys: seq<int>)

  predicate WellFormed(L: Layout)
  {
    |L.rowHeights| == |L.nodes| && |L.ys| == |L.nodes| + 1 && |L.xs| == |L.colWidths| + 1 &&
    forall r :: 0 <= r < |L.nodes| ==> |L.nodes[r]| <= |L.colWidths|
  }

  /** A layout whose widths, heights and origins are the ones its nodes give. */
  predicate Consistent(L: Layout)
  {
    WellFormed(L) &&
    L.colWidths == ColWidths(L.nodes) && L.rowHeights == RowHeights(L.nodes) &&
    L.xs == Offsets(L.colWidths, GAP_X, ORIGIN) && L.ys == Offsets(L.rowHeights, GAP_Y, ORIGIN)
  }

  /** The layout `process` computes for a layout string. */
  function MakeLayout(layout: string): (L: Layout)
    ensures Consistent(L)
    ensures L.nodes == GridNodes(ParseGrid(layout))
  {
    var nodes := GridNodes(ParseGrid(layout));
    var cw := ColWidths(nodes);
    var rh := RowHeights(nodes);
    ColWidthsAreMaxima(nodes);
    Layout(nodes, cw, rh, Offsets(cw, GAP_X, ORIGIN), Offsets(rh, GAP_Y, ORIGIN))
  }

  function CanvasWidth(L: Layout): nat
    requires WellFormed(L)
  {
    var w := L.xs[|L.xs| - 1] + MARGIN;
    if w >= 0 then w else 0
  }

  function CanvasHeight(L: Layout): nat
    requires WellFormed(L)
  {
    var h := L.ys[|L.ys| - 1] + MARGIN;
    if h >= 0 then h else 0
  }

  /** Where node `(r, c)` is stamped: its column's origin, and its row's origin
      plus half the spare height. */
  function NodeX(L: Layout, r: nat, c: nat): int
    requires WellFormed(L) && r < |L.nodes| && c < |L.nodes[r]|
  {
    L.xs[c]
  }

  function NodeY(L: Layout, r: nat, c: nat): int
    requires WellFormed(L) && r < |L.nodes| && c < |L.nodes[r]|
  {
    L.ys[r] + (L.rowHeights[r] - L.nodes[r][c].h) / 2
  }

  /** `_get_anchors`: the centre column and row are `x + w // 2` and `y + h // 2`. */
  function GetAnchors(x: int, y: int, w: int, h: int): (a: Anchors)
  {
    var cx := x + w / 2;
    var cy := y + h / 2;
    Anchors(Point(cx, y), Point(cx, y + h - 1), Point(x + w - 1, cy), Point(x, cy))
  }

  predicate InRect(p: Point, x: int, y: int, w: int, h: int)
  {
    x <= p.x < x + w && y <= p.y < y + h
  }

  /** For a node at least one cell wide and tall, all four anchors lie in it:
      north on its top row, south on its bottom row, east on its last column,
      west on its first column, the last two on its middle row. */
  lemma AnchorsInside(x: int, y: int, w: int, h: int)
    requires w >= 1 && h >= 1
    ensures var a := GetAnchors(x, y, w, h);
            InRect(a.n, x, y, w, h) && InRect(a.s, x, y, w, h) &&
            InRect(a.e, x, y, w, h) && InRect(a.w, x, y, w, h) &&
            a.n.y == y && a.s.y == y + h - 1 && a.e.x == x + w - 1 && a.w.x == x &&
            a.n.x == a.s.x && a.e.y == a.w.y
  {
  }

  function NodeAnchors(L: Layout, r: nat, c: nat): Anchors
    requires WellFormed(L) && r < |L.nodes| && c < |L.nodes[r]|
  {
    GetAnchors(NodeX(L, r, c), NodeY(L, r, c), L.nodes[r][c].w, L.nodes[r][c].h)
  }

  function AnchorGrid(L: Layout): (a: seq<seq<Anchors>>)
    requires WellFormed(L)
    ensures |a| == |L.nodes| && forall r :: 0 <= r < |a| ==> |a[r]| == |L.nodes[r]|
  {
    seq(|L.nodes|, r requires 0 <= r < |L.nodes| =>
      seq(|L.nodes[r]|, c requires 0 <= c < |L.nodes[r]| => NodeAnchors(L, r, c)))
  }

  /** Every node lies inside its column band `[x[c], x[c] + col_widths[c])` and
      its row band `[y[r], y[r] + row_heights[r])`, and so wholly on the canvas
      with room to spare; bands are separated by the gaps. */
  lemma NodeInBand(L: Layout, r: nat, c: nat)
    requires Consistent(L) && r < |L.nodes| && c < |L.nodes[r]|
    ensures var n := L.nodes[r][c];
            L.xs[c] == NodeX(L, r, c) && NodeX(L, r, c) + n.w <= L.xs[c] + L.colWidths[c] &&
            L.ys[r] <= NodeY(L, r, c) && NodeY(L, r, c) + n.h <= L.ys[r] + L.rowHeights[r] &&
            L.xs[c + 1] == L.xs[c] + L.colWidths[c] + GAP_X &&
            L.ys[r + 1] == L.ys[r] + L.rowHeights[r] + GAP_Y &&
            ORIGIN <= NodeX(L, r, c) && NodeX(L, r, c) + n.w + GAP_X + MARGIN <= CanvasWidth(L) &&
            ORIGIN <= NodeY(L, r, c) && NodeY(L, r, c) + n.h + GAP_Y + MARGIN <= CanvasHeight(L)
  {
    var n := L.nodes[r][c];
    ColWidthsAreMaxima(L.nodes);
    assert n.w <= L.colWidths[c];
    assert n.h <= MaxH(L.nodes[r]) == L.rowHeights[r];
    BandInside(L.colWidths, GAP_X, ORIGIN, c);
    BandInside(L.rowHeights, GAP_Y, ORIGIN, r);
  }

  /** Band `k` starts at or after the first origin and ends, gap included, at
      or before the last one. */
  lemma BandInside(sizes: seq<nat>, gap: nat, start: int, k: nat)
    requires k < |sizes|
    ensures var o := Offsets(sizes, gap, start);
            start <= o[k] && o[k] + sizes[k] + gap <= o[|sizes|]
  {
    if k > 0 {
      OffsetsIncrease(sizes, gap, start, 0, k);
    }
    if k + 1 < |sizes| {
      OffsetsIncrease(sizes, gap, start, k + 1, |sizes|);
    }
  }

  // ---------------------------------------------------------------------------
  // Connectors.

  /** Writes `ch` along row `y` at columns `x, x + 1, ..., bound - 1`. */
  function HRun(g: Rows, x: int, bound: int, y: int, ch: char): (r: Rows)
    ensures SameShape(r, g)
    decreases bound - x
  {
    if x >= bound then g else HRun(Put(g, x, y, ch), x + 1, bound, y, ch)
  }

  /** Writes `ch` along row `y` at columns `x, x - 1, ..., bound + 1`. */
  function HRunDown(g: Rows, x: int, bound: int, y: int, ch: char): (r: Rows)
    ensures SameShape(r, g)
    decreases x - bound
  {
    if x <= bound then g else HRunDown(Put(g, x, y, ch), x - 1, bound, y, ch)
  }

  /** Writes `ch` down column `x` at rows `y, y + 1, ..., bound - 1`. */
  function VRun(g: Rows, x: int, y: int, bound: int, ch: char): (r: Rows)
    ensures SameShape(r, g)
    decreases bound - y
  {
    if y >= bound then g else VRun(Put(g, x, y, ch), x, y + 1, bound, ch)
  }

  lemma {:induction false} HRunCells(g: Rows, x: int, bound: int, y: int, ch: char)
    ensures forall cy, cx :: InBounds(g, cx, cy) ==>
              HRun(g, x, bound, y, ch)[cy][cx] == (if cy == y && x <= cx < bound then ch else g[cy][cx])
    decreases bound - x
  {
    if x < bound {
      HRunCells(Put(g, x, y, ch), x + 1, bound, y, ch);
    }
  }

  lemma {:induction false} HRunDownCells(g: Rows, x: int, bound: int, y: int, ch: char)
    ensures forall cy, cx :: InBounds(g, cx, cy) ==>
              HRunDown(g, x, bound, y, ch)[cy][cx] == (if cy == y && bound < cx <= x then ch else g[cy][cx])
    decreases x - bound
  {
    if x > bound {
      HRunDownCells(Put(g, x, y, ch), x - 1, bound, y, ch);
    }
  }

  lemma {:induction false} VRunCells(g: Rows, x: int, y: int, bound: int, ch: char)
    ensures forall cy, cx :: InBounds(g, cx, cy) ==>
              VRun(g, x, y, bound, ch)[cy][cx] == (if cx == x && y <= cy < bound then ch else g[cy][cx])
    decreases bound - y
  {
    if y < bound {
      VRunCells(Put(g, x, y, ch), x, y + 1, bound, ch);
    }
  }

  /** `_draw_h_arrow`: `-` from `start.x + 1` up to `end.x - 1` on the start's
      row, then `>` at `end.x - 1`. */
  function HArrow(g: Rows, start: Point, end: Point): (r: Rows)
    ensures SameShape(r, g)
  {
    Put(HRun(g, start.x + 1, end.x, start.y, '-'), end.x - 1, start.y, '>')
  }

  /** `mid_y = sy + (ey - sy) // 2`. */
  function MidY(start: Point, end: Point): int
  {
    start.y + (end.y - start.y) / 2
  }

  /** The sideways leg of `_draw_v_arrow`: `-` strictly between the two columns
      on row `mid_y` and a `+` at the end column, only when the columns differ. */
  function Jog(g: Rows, sx: int, ex: int, midY: int): (r: Rows)
    ensures SameShape(r, g)
  {
    if sx == ex then g
    else if ex > sx then Put(HRun(g, sx + 1, ex, midY, '-'), ex, midY, '+')
    else Put(HRunDown(g, sx - 1, ex, midY, '-'), ex, midY, '+')
  }

  /** `_draw_v_arrow`: down from the start to `mid_y`, a `+` there, over to the
      end column, down to the end, and a `v` at the end. */
  function VArrow(g: Rows, start: Point, end: Point): (r: Rows)
    ensures SameShape(r, g)
  {
    var mid := MidY(start, end);
    var g1 := VRun(g, start.x, start.y + 1, mid, '|');
    var g2 := Put(g1, start.x, mid, '+');
    var g3 := Jog(g2, start.x, end.x, mid);
    var g4 := VRun(g3, end.x, mid + 1, end.y, '|');
    Put(g4, end.x, end.y, 'v')
  }

  /** What a connector leaves in one cell: the glyph written last, or nothing. */
  datatype Mark = Untouched | Drawn(glyph: char)

  function Apply(m: Mark, below: char): char
  {
    match m
    case Untouched => below
    case Drawn(ch) => ch
  }

  /** The horizontal connector, cell by cell. */
  function HArrowMark(start: Point, end: Point, cx: int, cy: int): Mark
  {
    if cy == start.y && cx == end.x - 1 then Drawn('>')
    else if cy == start.y && start.x < cx < end.x then Drawn('-')
    else Untouched
  }

  /** The vertical connector, cell by cell, the later strokes winning: `v` at
      the end; `|` below `mid_y` in the end column; when the columns differ a `+`
      at the end column and `-` strictly between the columns on row `mid_y`; a
      `+` at the start column on row `mid_y`, even when the columns match; and
      `|` strictly between the start and `mid_y` in the start column. */
  function VArrowMark(start: Point, end: Point, cx: int, cy: int): Mark
  {
    var mid := MidY(start, end);
    var between := if end.x > start.x then start.x < cx < end.x else end.x < cx < start.x;
    if cx == end.x && cy == end.y then Drawn('v')
    else if cx == end.x && mid < cy < end.y then Drawn('|')
    else if start.x != end.x && cy == mid && cx == end.x then Drawn('+')
    else if start.x != end.x && cy == mid && between then Drawn('-')
    else if cx == start.x && cy == mid then Drawn('+')
    else if cx == start.x && start.y < cy < mid then Drawn('|')
    else Untouched
  }

  lemma HArrowCells(g: Rows, start: Point, end: Point)
    ensures forall cy, cx :: InBounds(g, cx, cy) ==>
              HArrow(g, start, end)[cy][cx] == Apply(HArrowMark(start, end, cx, cy), g[cy][cx])
  {
    HRunCells(g, start.x + 1, end.x, start.y, '-');
  }

  lemma JogCells(g: Rows, sx: int, ex: int, midY: int)
    ensures forall cy, cx :: InBounds(g, cx, cy) ==>
              Jog(g, sx, ex, midY)[cy][cx] ==
                if sx != ex && cy == midY && cx == ex then '+'
                else if sx != ex && cy == midY && (if ex > sx then sx < cx < ex else ex < cx < sx) then '-'
                else g[cy][cx]
  {
    if ex > sx {
      HRunCells(g, sx + 1, ex, midY, '-');
    } else if ex < sx {
      HRunDownCells(g, sx - 1, ex, midY, '-');
    }
  }

  /** The vertical connector writes exactly the cells `VArrowMark` names. */
  lemma VArrowCells(g: Rows, start: Point, end: Point)
    ensures forall cy, cx :: InBounds(g, cx, cy) ==>
              VArrow(g, start, end)[cy][cx] == Apply(VArrowMark(start, end, cx, cy), g[cy][cx])
  {
    var mid := MidY(start, end);
    var g1 := VRun(g, start.x, start.y + 1, mid, '|');
    var g2 := Put(g1, start.x, mid, '+');
    var g3 := Jog(g2, start.x, end.x, mid);
    VRunCells(g, start.x, start.y + 1, mid, '|');
    JogCells(g2, start.x, end.x, mid);
    VRunCells(g3, end.x, mid + 1, end.y, '|');
  }

  // ---------------------------------------------------------------------------
  // Stamping and routing, row by row in the order the nodes were created.

  /** Stamps the nodes of row `r` from column `c` on. */
  function StampRowFrom(g: Rows, L: Layout, r: nat, c: nat): (res: Rows)
    requires WellFormed(L) && r < |L.nodes| && c <= |L.nodes[r]|
    ensures SameShape(res, g)
    decreases |L.nodes[r]| - c
  {
    if c == |L.nodes[r]| then g
    else StampRowFrom(StampBlock(g, NodeX(L, r, c), NodeY(L, r, c), L.nodes[r][c].art, true), L, r, c + 1)
  }

  lemma StampRowFromStep(g: Rows, L: Layout, r: nat, c: nat, x: int, y: int)
    requires WellFormed(L) && r < |L.nodes| && c < |L.nodes[r]|
    requires x == L.xs[c] && y == L.ys[r] + (L.rowHeights[r] - L.nodes[r][c].h) / 2
    ensures StampRowFrom(g, L, r, c) == StampRowFrom(StampBlock(g, x, y, L.nodes[r][c].art, true), L, r, c + 1)
    ensures NodeAnchors(L, r, c) == GetAnchors(x, y, L.nodes[r][c].w, L.nodes[r][c].h)
  {
  }

  /** Stamps every node of rows `r` onwards. */
  function StampRowsFrom(g: Rows, L: Layout, r: nat): (res: Rows)
    requires WellFormed(L) && r <= |L.nodes|
    ensures SameShape(res, g)
    decreases |L.nodes| - r
  {
    if r == |L.nodes| then g else StampRowsFrom(StampRowFrom(g, L, r, 0), L, r + 1)
  }

  /** The connectors leaving node `(r, c)`: to its right neighbour, then to the
      node below it. */
  function ArrowStep(g: Rows, L: Layout, r: nat, c: nat): (res: Rows)
    requires WellFormed(L) && r < |L.nodes| && c < |L.nodes[r]|
    ensures SameShape(res, g)
  {
    var g1 := if c + 1 < |L.nodes[r]| then HArrow(g, NodeAnchors(L, r, c).e, NodeAnchors(L, r, c + 1).w) else g;
    if r + 1 < |L.nodes| && c < |L.nodes[r + 1]| then VArrow(g1, NodeAnchors(L, r, c).s, NodeAnchors(L, r + 1, c).n)
    else g1
  }

  function ArrowRowFrom(g: Rows, L: Layout, r: nat, c: nat): (res: Rows)
    requires WellFormed(L) && r < |L.nodes| && c <= |L.nodes[r]|
    ensures SameShape(res, g)
    decreases |L.nodes[r]| - c
  {
    if c == |L.nodes[r]| then g else ArrowRowFrom(ArrowStep(g, L, r, c), L, r, c + 1)
  }

  function ArrowRowsFrom(g: Rows, L: Layout, r: nat): (res: Rows)
    requires WellFormed(L) && r <= |L.nodes|
    ensures SameShape(res, g)
    decreases |L.nodes| - r
  {
    if r == |L.nodes| then g else ArrowRowsFrom(ArrowRowFrom(g, L, r, 0), L, r + 1)
  }

  /** The paper after `process`: a blank canvas of the layout's size, every
      node stamped, then every connector drawn. */
  function LayoutGrid(layout: string): (g: Rows)
    ensures IsRect(g, CanvasWidth(MakeLayout(layout)), CanvasHeight(MakeLayout(layout)))
  {
    var L := MakeLayout(layout);
    var blank := Blank(CanvasWidth(L), CanvasHeight(L));
    ArrowRowsFrom(StampRowsFrom(blank, L, 0), L, 0)
  }

  lemma {:induction false} JoinEmptyLines(n: nat)
    ensures JoinLines(seq(n + 1, _ => "")) == Repeat('\n', n)
  {
    if n > 0 {
      var ls := seq(n + 1, _ => "");
      assert ls[1..] == seq(n, _ => "");
      JoinEmptyLines(n - 1);
    }
  }

  lemma KeepLabelsBlank()
    ensures KeepLabels([""]) == []
  {
    var pieces: seq<string> := [""];
    assert Strip(pieces[0]) == [];
    assert seq(|pieces|, j requires 0 <= j < |pieces| => Strip(pieces[j])) == pieces;
    assert NonEmpty(pieces) == [];
  }

  lemma EmptyParse()
    ensures ParseGrid("") == [[]]
  {
    assert SplitOn("", ";") == [""];
    assert SplitOn("", "->") == [""];
    KeepLabelsBlank();
  }

  /** The single empty row has no column and height 0. */
  lemma EmptySizes()
    ensures GridNodes([[]]) == [[]]
    ensures ColWidths([[]]) == [] && RowHeights([[]]) == [0]
  {
    var nodes: seq<seq<Node>> := [[]];
    assert GridNodes([[]]) == nodes;
    assert ColWidths(nodes) == MergeMax(ColWidths([]), Widths([]));
    assert RowHeights(nodes) == [0];
  }

  lemma OffsetsSmall(gap: nat, start: int)
    ensures Offsets([], gap, start) == [start]
    ensures Offsets([0], gap, start) == [start, start + gap]
  {
    var o := Offsets([0], gap, start);
    assert o[1] == o[0] + [0][0] + gap;
  }

  lemma EmptyMakeLayout()
    ensures MakeLayout("") == Layout([[]], [], [0], [2], [2, 6])
  {
    EmptyParse();
    EmptySizes();
    OffsetsSmall(GAP_X, ORIGIN);
    OffsetsSmall(GAP_Y, ORIGIN);
  }

  /** A blank canvas renders as its row separators alone. */
  lemma BlankRender(width: nat, height: nat)
    requires height >= 1
    ensures RenderRows(Blank(width, height)) == Repeat('\n', height - 1)
  {
    var g := Blank(width, height);
    RepeatAllSpaces(width);
    RStripAppendSpaces([], Repeat(' ', width));
    assert [] + Repeat(' ', width) == Repeat(' ', width);
    assert RenderedLines(g) == seq(height, _ => "");
    JoinEmptyLines(height - 1);
  }

  /** An empty layout draws nothing on its 7 x 11 paper. */
  lemma EmptyGrid()
    ensures CanvasWidth(MakeLayout("")) == 7 && CanvasHeight(MakeLayout("")) == 11
    ensures LayoutGrid("") == Blank(7, 11)
  {
    EmptyMakeLayout();
    var L := MakeLayout("");
    var blank := Blank(7, 11);
    assert StampRowFrom(blank, L, 0, 0) == blank;
    assert StampRowsFrom(blank, L, 0) == blank;
    assert ArrowRowFrom(blank, L, 0, 0) == blank;
    assert ArrowRowsFrom(blank, L, 0) == blank;
  }

  /** Empty input still draws: it parses to one empty row, so the paper is a
      blank 7 x 11 canvas and the render is ten newlines. */
  lemma EmptyLayout()
    ensures ParseGrid("") == [[]]
    ensures CanvasWidth(MakeLayout("")) == 7 && CanvasHeight(MakeLayout("")) == 11
    ensures LayoutGrid("") == Blank(7, 11)
    ensures RenderRows(LayoutGrid("")) == Repeat('\n', 10)
  {
    EmptyParse();
    EmptyGrid();
    BlankRender(7, 11);
  }

  /** Growing one row of widths by a node: the column maxima change only at the
      node's column, which takes the larger value, or gain that column. */
  lemma MergeMaxSnoc(a: seq<nat>, row: seq<Node>, n: Node)
    ensures var m := MergeMax(a, Widths(row));
            MergeMax(a, Widths(row + [n])) ==
              if |row| < |m| then m[|row| := Max(m[|row|], n.w)] else m + [n.w]
  {
    var m := MergeMax(a, Widths(row));
    var m2 := MergeMax(a, Widths(row + [n]));
    var e := if |row| < |m| then m[|row| := Max(m[|row|], n.w)] else m + [n.w];
    assert |m2| == |e|;
    forall k | 0 <= k < |m2| ensures m2[k] == e[k] {
      assert At(Widths(row + [n]), k) == if k < |row| then At(Widths(row), k) else if k == |row| then n.w else 0;
    }
  }

  lemma MaxHSnoc(row: seq<Node>, n: Node)
    ensures MaxH(row + [n]) == Max(MaxH(row), n.h)
  {
    assert (row + [n])[..|row|] == row;
  }

  lemma {:induction false} MapLabelsSnoc(labels: seq<string>, c: nat, f: string -> Node)
    requires c < |labels|
    ensures MapLabels(labels[..c + 1], f) == MapLabels(labels[..c], f) + [f(labels[c])]
  {
    var a := MapLabels(labels[..c + 1], f);
    var b := MapLabels(labels[..c], f) + [f(labels[c])];
    forall k | 0 <= k <= c ensures a[k] == b[k] {
      assert labels[..c + 1][k] == labels[k];
      if k < c {
        assert labels[..c][k] == labels[k];
      }
    }
  }

  lemma RowNodesStep(labels: seq<string>, c: nat, node: Node)
    requires c < |labels| && node == NodeShape(labels[c], Classify(labels[c]))
    ensures RowNodes(labels[..c + 1]) == RowNodes(labels[..c]) + [node]
  {
    MapLabelsSnoc(labels, c, NodeOf);
  }

  /** Measuring one more row extends the nodes of the rows before it. */
  lemma GridNodesStep(grid: seq<seq<string>>, r: nat, nodes: seq<seq<Node>>)
    requires r < |grid| && nodes == GridNodes(grid[..r])
    ensures GridNodes(grid[..r + 1]) == nodes + [RowNodes(grid[r])]
  {
    assert grid[..r + 1][..r] == grid[..r];
  }

  /** ... and their column maxima and row heights. */
  lemma BandsSnoc(nodes: seq<seq<Node>>, row: seq<Node>)
    ensures ColWidths(nodes + [row]) == MergeMax(ColWidths(nodes), Widths(row))
    ensures RowHeights(nodes + [row]) == RowHeights(nodes) + [MaxH(row)]
  {
    assert (nodes + [row])[..|nodes|] == nodes;
  }

  /** `Router`: holds the paper the last `process` drew on. */
  class Router {
    var paper: Canvas

    /** A new router starts with a 1 x 1 blank paper. */
    constructor ()
      ensures fresh(paper) && paper.Valid()
      ensures paper.width == 1 && paper.height == 1 && paper.grid == Blank(1, 1)
    {
      paper := new Canvas(1, 1);
    }

    /** `_get_node_shape` on the template path: render the stripped label with
        the renderer of its kind, then measure the art. */
    method GetNodeShape(nodeText: string, kind: ShapeKind) returns (node: Node)
      ensures node == NodeShape(nodeText, kind)
    {
      var cleanText := Strip(nodeText);
      var art := RenderShape(kind, cleanText);
      var lines := Lines(art);
      NodeShapeMeasures(nodeText, kind);
      node := Node(art, MaxLen(lines), |lines|, kind);
    }

    /** The measuring pass of `process`: every node classified and rendered,
        row by row, keeping the running column maxima and each row's height. */
    method MeasureGrid(grid: seq<seq<string>>) returns (nodes: seq<seq<Node>>, colWidths: seq<nat>, rowHeights: seq<nat>)
      ensures nodes == GridNodes(grid)
      ensures colWidths == ColWidths(nodes) && rowHeights == RowHeights(nodes)
    {
      nodes, colWidths, rowHeights := [], [], [];
      var r := 0;
      while r < |grid|
        invariant 0 <= r <= |grid|
        invariant nodes == GridNodes(grid[..r])
        invariant colWidths == ColWidths(nodes) && rowHeights == RowHeights(nodes)
      {
        var row, currentRowH;
        row, colWidths, currentRowH := MeasureRow(grid[r], colWidths);
        GridNodesStep(grid, r, nodes);
        BandsSnoc(nodes, row);
        rowHeights := rowHeights + [currentRowH];
        nodes := nodes + [row];
        r := r + 1;
      }
      assert grid[..r] == grid;
    }

    /** One row of the measuring pass: `col_widths[c] = max(col_widths.get(c, 0), w)`
        for each node, and `current_row_h` the tallest node. */
    method MeasureRow(labels: seq<string>, colWidths0: seq<nat>) returns (row: seq<Node>, colWidths: seq<nat>, currentRowH: nat)
      ensures row == RowNodes(labels)
      ensures colWidths == MergeMax(colWidths0, Widths(row)) && currentRowH == MaxH(row)
    {
      row, colWidths, currentRowH := [], colWidths0, 0;
      var c := 0;
      while c < |labels|
        invariant 0 <= c <= |labels|
        invariant row == RowNodes(labels[..c])
        invariant colWidths == MergeMax(colWidths0, Widths(row))
        invariant currentRowH == MaxH(row)
      {
        var nodeText := labels[c];
        var stype := Classify(nodeText);
        var node := GetNodeShape(nodeText, stype);
        RowNodesStep(labels, c, node);
        colWidths, currentRowH := Tally(colWidths0, row, c, colWidths, currentRowH, node);
        row := row + [node];
        c := c + 1;
      }
      assert labels[..c] == labels;
    }

    /** The bookkeeping for one node: `col_widths[c] = max(col_widths.get(c, 0), w)`
        and `current_row_h = max(current_row_h, h)`, where `c` is the node's
        column; the maxima then cover the row with the node appended. */
    method Tally(ghost colWidths0: seq<nat>, ghost row: seq<Node>, c: nat, colWidths: seq<nat>, currentRowH: nat, node: Node)
      returns (colWidths': seq<nat>, currentRowH': nat)
      requires c == |row| && colWidths == MergeMax(colWidths0, Widths(row)) && currentRowH == MaxH(row)
      ensures colWidths' == MergeMax(colWidths0, Widths(row + [node])) && currentRowH' == MaxH(row + [node])
    {
      MergeMaxSnoc(colWidths0, row, node);
      MaxHSnoc(row, node);
      if c < |colWidths| {
        colWidths' := colWidths[c := Max(colWidths[c], node.w)];
      } else {
        colWidths' := colWidths + [node.w];
      }
      currentRowH' := Max(currentRowH, node.h);
    }

    /** The position loops of `process`: each band's origin in turn, and the
        running `curr` that ends one gap past the last band. */
    method Positions(sizes: seq<nat>, gap: nat) returns (positions: seq<int>, curr: int)
      ensures positions + [curr] == Offsets(sizes, gap, ORIGIN)
      ensures curr >= ORIGIN
    {
      positions := [];
      curr := ORIGIN;
      var k := 0;
      while k < |sizes|
        invariant 0 <= k <= |sizes|
        invariant positions + [curr] == Offsets(sizes[..k], gap, ORIGIN)
        invariant curr >= ORIGIN
      {
        assert sizes[..k + 1][..k] == sizes[..k];
        positions := positions + [curr];
        curr := curr + sizes[k] + gap;
        k := k + 1;
      }
      assert sizes[..|sizes|] == sizes;
    }

    /** `_draw_h_arrow`. */
    method DrawHArrow(start: Point, end: Point)
      requires paper.Valid()
      modifies paper
      ensures paper.Valid() && paper.width == old(paper.width) && paper.height == old(paper.height)
      ensures paper.grid == HArrow(old(paper.grid), start, end)
    {
      var y := start.y;
      var x := start.x + 1;
      while x < end.x
        invariant paper.Valid() && paper.width == old(paper.width) && paper.height == old(paper.height)
        invariant HRun(paper.grid, x, end.x, y, '-') == HRun(old(paper.grid), start.x + 1, end.x, y, '-')
        decreases end.x - x
      {
        paper.PutChar(x, y, '-');
        x := x + 1;
      }
      paper.PutChar(end.x - 1, y, '>');
    }

    /** `_draw_v_arrow`: down, a `+` at `mid_y`, across, down again, `v`. */
    method DrawVArrow(start: Point, end: Point)
      requires paper.Valid()
      modifies paper
      ensures paper.Valid() && paper.width == old(paper.width) && paper.height == old(paper.height)
      ensures paper.grid == VArrow(old(paper.grid), start, end)
    {
      var sx, sy := start.x, start.y;
      var ex, ey := end.x, end.y;
      var midY := sy + (ey - sy) / 2;
      DrawDown(sx, sy + 1, midY);
      paper.PutChar(sx, midY, '+');
      DrawJog(sx, ex, midY);
      DrawDown(ex, midY + 1, ey);
      paper.PutChar(ex, ey, 'v');
    }

    /** `for y in range(y0, bound): put_char(x, y, "|")`. */
    method DrawDown(x: int, y0: int, bound: int)
      requires paper.Valid()
      modifies paper
      ensures paper.Valid() && paper.width == old(paper.width) && paper.height == old(paper.height)
      ensures paper.grid == VRun(old(paper.grid), x, y0, bound, '|')
    {
      var y := y0;
      while y < bound
        invariant paper.Valid() && paper.width == old(paper.width) && paper.height == old(paper.height)
        invariant VRun(paper.grid, x, y, bound, '|') == VRun(old(paper.grid), x, y0, bound, '|')
        decreases bound - y
      {
        paper.PutChar(x, y, '|');
        y := y + 1;
      }
    }

    /** The sideways leg of `_draw_v_arrow`, stepping towards the end column. */
    method DrawJog(sx: int, ex: int, midY: int)
      requires paper.Valid()
      modifies paper
      ensures paper.Valid() && paper.width == old(paper.width) && paper.height == old(paper.height)
      ensures paper.grid == Jog(old(paper.grid), sx, ex, midY)
    {
      var step := if ex > sx then 1 else -1;
      if sx != ex {
        var x := sx + step;
        while x != ex
          invariant paper.Valid() && paper.width == old(paper.width) && paper.height == old(paper.height)
          invariant if step == 1 then sx < x <= ex else ex <= x < sx
          invariant step == 1 ==> HRun(paper.grid, x, ex, midY, '-') == HRun(old(paper.grid), sx + 1, ex, midY, '-')
          invariant step == -1 ==> HRunDown(paper.grid, x, ex, midY, '-') == HRunDown(old(paper.grid), sx - 1, ex, midY, '-')
          decreases if step == 1 then ex - x else x - ex
        {
          paper.PutChar(x, midY, '-');
          x := x + step;
        }
        paper.PutChar(ex, midY, '+');
      }
    }

    /** The stamping pass of `process`, in the order the nodes were created. */
    method StampNodes(L: Layout) returns (anchors: seq<seq<Anchors>>)
      requires WellFormed(L) && paper.Valid()
      modifies paper
      ensures paper.Valid() && paper.width == old(paper.width) && paper.height == old(paper.height)
      ensures paper.grid == StampRowsFrom(old(paper.grid), L, 0)
      ensures anchors == AnchorGrid(L)
    {
      ghost var target := StampRowsFrom(paper.grid, L, 0);
      anchors := [];
      var r := 0;
      while r < |L.nodes|
        invariant 0 <= r <= |L.nodes|
        invariant paper.Valid() && paper.width == old(paper.width) && paper.height == old(paper.height)
        invariant StampRowsFrom(paper.grid, L, r) == target
        invariant anchors == AnchorGrid(L)[..r]
      {
        var rowAnchors := StampRow(L, r);
        assert AnchorGrid(L)[..r + 1] == anchors + [rowAnchors];
        anchors := anchors + [rowAnchors];
        r := r + 1;
      }
      assert AnchorGrid(L)[..|L.nodes|] == AnchorGrid(L);
    }

    /** One row of the stamping pass: each node at its column's origin,
        centred vertically in its row, with `'░'` transparent; its anchors are
        recorded as it goes. */
    method StampRow(L: Layout, r: nat) returns (rowAnchors: seq<Anchors>)
      requires WellFormed(L) && r < |L.nodes| && paper.Valid()
      modifies paper
      ensures paper.Valid() && paper.width == old(paper.width) && paper.height == old(paper.height)
      ensures paper.grid == StampRowFrom(old(paper.grid), L, r, 0)
      ensures rowAnchors == AnchorGrid(L)[r]
    {
      ghost var target := StampRowFrom(paper.grid, L, r, 0);
      rowAnchors := [];
      var c := 0;
      while c < |L.nodes[r]|
        invariant 0 <= c <= |L.nodes[r]|
        invariant paper.Valid() && paper.width == old(paper.width) && paper.height == old(paper.height)
        invariant StampRowFrom(paper.grid, L, r, c) == target
        invariant |rowAnchors| == c
        invariant forall k :: 0 <= k < c ==> rowAnchors[k] == NodeAnchors(L, r, k)
      {
        var node := L.nodes[r][c];
        var finalX := L.xs[c];
        var rowH := L.rowHeights[r];
        var finalY := L.ys[r] + (rowH - node.h) / 2;
        StampRowFromStep(paper.grid, L, r, c, finalX, finalY);
        paper.Stamp(finalX, finalY, node.art, true);
        rowAnchors := rowAnchors + [GetAnchors(finalX, finalY, node.w, node.h)];
        c := c + 1;
      }
    }

    /** The routing pass of `process`, in the same order. */
    method DrawArrows(L: Layout, anchors: seq<seq<Anchors>>)
      requires WellFormed(L) && paper.Valid() && anchors == AnchorGrid(L)
      modifies paper
      ensures paper.Valid() && paper.width == old(paper.width) && paper.height == old(paper.height)
      ensures paper.grid == ArrowRowsFrom(old(paper.grid), L, 0)
    {
      ghost var target := ArrowRowsFrom(paper.grid, L, 0);
      var r := 0;
      while r < |anchors|
        invariant 0 <= r <= |anchors|
        invariant paper.Valid() && paper.width == old(paper.width) && paper.height == old(paper.height)
        invariant ArrowRowsFrom(paper.grid, L, r) == target
      {
        DrawArrowsRow(L, anchors, r);
        r := r + 1;
      }
    }

    /** One row of the routing pass: from each node a connector to its right
        neighbour if it has one, then one to the node below it if there is one. */
    method DrawArrowsRow(L: Layout, anchors: seq<seq<Anchors>>, r: nat)
      requires WellFormed(L) && paper.Valid() && anchors == AnchorGrid(L) && r < |L.nodes|
      modifies paper
      ensures paper.Valid() && paper.width == old(paper.width) && paper.height == old(paper.height)
      ensures paper.grid == ArrowRowFrom(old(paper.grid), L, r, 0)
    {
      ghost var target := ArrowRowFrom(paper.grid, L, r, 0);
      var c := 0;
      while c < |anchors[r]|
        invariant 0 <= c <= |anchors[r]|
        invariant paper.Valid() && paper.width == old(paper.width) && paper.height == old(paper.height)
        invariant ArrowRowFrom(paper.grid, L, r, c) == target
      {
        DrawArrowsAt(L, anchors, r, c);
        c := c + 1;
      }
    }

    /** The connectors leaving one node. */
    method DrawArrowsAt(L: Layout, anchors: seq<seq<Anchors>>, r: nat, c: nat)
      requires WellFormed(L) && paper.Valid() && anchors == AnchorGrid(L) && r < |L.nodes| && c < |L.nodes[r]|
      modifies paper
      ensures paper.Valid() && paper.width == old(paper.width) && paper.height == old(paper.height)
      ensures paper.grid == ArrowStep(old(paper.grid), L, r, c)
    {
      if c + 1 < |anchors[r]| {
        DrawHArrow(anchors[r][c].e, anchors[r][c + 1].w);
      }
      if r + 1 < |anchors| && c < |anchors[r + 1]| {
        DrawVArrow(anchors[r][c].s, anchors[r + 1][c].n);
      }
    }

    /** `process`: the layout, a fresh paper of the layout's size
        (`Canvas(curr_x + 5, curr_y + 5)`), every node stamped, every connector
        drawn; the result is the paper's render. */
    method Process(layoutStr: string) returns (out: string)
      modifies this
      ensures fresh(paper) && paper.Valid()
      ensures paper.width == CanvasWidth(MakeLayout(layoutStr)) && paper.height == CanvasHeight(MakeLayout(layoutStr))
      ensures paper.grid == LayoutGrid(layoutStr)
      ensures out == RenderRows(paper.grid)
    {
      var L, currX, currY := ComputeLayout(layoutStr);
      paper := new Canvas(currX + MARGIN, currY + MARGIN);
      var anchors := StampNodes(L);
      DrawArrows(L, anchors);
      out := paper.Render();
    }

    /** The first half of `process`: parse the layout string, measure the
        nodes, and place the columns and rows. `currX` and `currY` are where a
        further column or row would start. */
    method ComputeLayout(layoutStr: string) returns (L: Layout, currX: nat, currY: nat)
      ensures L == MakeLayout(layoutStr)
      ensures CanvasWidth(L) == currX + MARGIN && CanvasHeight(L) == currY + MARGIN
    {
      var grid := ParseGrid(layoutStr);
      var nodes, colWidths, rowHeights := MeasureGrid(grid);
      var xs, cx := Positions(colWidths, GAP_X);
      var ys, cy := Positions(rowHeights, GAP_Y);
      L := Layout(nodes, colWidths, rowHeights, xs + [cx], ys + [cy]);
      currX, currY := cx, cy;
    }
  }
}
