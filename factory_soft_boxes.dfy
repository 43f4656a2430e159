/** The soft-box generator of the dataset factory (`generate_soft_box_art`): a
    box with rounded corners (`.` on top, `'` below), the N and S anchors on its
    edges and the W and E anchors on its middle body row. */
module SoftBoxFactory {
  import opened PyText

  const ALPHA: char := '░'

  function AtLeast(v: int, lo: int): int
  {
    if v < lo then lo else v
  }

  /** The lid (`.` corners, N) or the base (`'` corners, S). */
  function Edge(inner: nat, corner: char, anchor: char): string
    requires inner >= 1
  {
    [corner] + Repeat('-', inner)[inner / 2 := anchor] + [corner]
  }

  /** Body row `r` of `bodyH`; the middle one has W and E as its ends. */
  function BodyRow(inner: nat, bodyH: nat, r: nat): string
  {
    if r == bodyH / 2 then "W" + Repeat(ALPHA, inner) + "E" else "|" + Repeat(ALPHA, inner) + "|"
  }

  /** The art `generate_soft_box_art(width, height)` returns. */
  function SoftBoxArt(width: int, height: int): (r: seq<string>)
    ensures |r| == AtLeast(height, 3)
  {
    var w := AtLeast(width, 5);
    var h := AtLeast(height, 3);
    [Edge(w - 2, '.', 'N')]
      + seq(h - 2, r requires 0 <= r < h - 2 => BodyRow(w - 2, h - 2, r))
      + [Edge(w - 2, '\'', 'S')]
  }

  method GenerateSoftBoxArt(width: int, height: int) returns (art: seq<string>)
    ensures art == SoftBoxArt(width, height)
  {
    var w := width;
    var h := height;
    if w < 5 { w := 5; }
    if h < 3 { h := 3; }
    var innerW := w - 2;
    var midIdx := innerW / 2;
    var lid := Repeat('-', innerW);
    lid := lid[midIdx := 'N'];
    art := [['.'] + lid + ['.']];
    var bodyH := h - 2;
    var filler := Repeat(ALPHA, innerW);
    var r := 0;
    while r < bodyH
      invariant 0 <= r <= bodyH
      invariant |art| == r + 1 && art[0] == Edge(innerW, '.', 'N')
      invariant forall j :: 0 <= j < r ==> art[j + 1] == BodyRow(innerW, bodyH, j)
    {
      var row := "|" + filler + "|";
      if r == bodyH / 2 {
        row := row[0 := 'W'];
        row := row[|row| - 1 := 'E'];
        assert row == "W" + filler + "E";
      }
      art := art + [row];
      r := r + 1;
    }
    var base := Repeat('-', innerW);
    base := base[midIdx := 'S'];
    art := art + [['\''] + base + ['\'']];
    assert w == AtLeast(width, 5) && h == AtLeast(height, 3);
    SoftBoxRows(width, height);
  }

  // ---------------------------------------------------------------------------
  // Properties.

  lemma {:induction false} EdgeShape(inner: nat, corner: char, anchor: char)
    requires inner >= 1
    ensures |Edge(inner, corner, anchor)| == inner + 2
    ensures Edge(inner, corner, anchor)[0] == corner && Edge(inner, corner, anchor)[inner + 1] == corner
    ensures Edge(inner, corner, anchor)[inner / 2 + 1] == anchor
    ensures forall j :: 0 < j <= inner && j != inner / 2 + 1 ==> Edge(inner, corner, anchor)[j] == '-'
  {
    var e := Edge(inner, corner, anchor);
    var mid := Repeat('-', inner)[inner / 2 := anchor];
    forall j | 0 < j <= inner ensures e[j] == mid[j - 1] {
    }
  }

  /** The art line by line: the lid, body row `i - 1` at line `i`, the base. */
  lemma {:induction false} SoftBoxRows(width: int, height: int)
    ensures var w := AtLeast(width, 5); var h := AtLeast(height, 3);
      var art := SoftBoxArt(width, height);
      art[0] == Edge(w - 2, '.', 'N') && art[h - 1] == Edge(w - 2, '\'', 'S') &&
      forall i :: 0 < i < h - 1 ==> art[i] == BodyRow(w - 2, h - 2, i - 1)
  {
  }

  /** `max(height, 3)` lines of `max(width, 5)` characters: the N edge, plain `|`
      rows except the W/E row at body row `(h - 2) / 2`, the S edge. */
  lemma {:induction false} SoftBoxShape(width: int, height: int)
    ensures var w := AtLeast(width, 5); var h := AtLeast(height, 3);
      var art := SoftBoxArt(width, height);
      |art| == h && (forall i :: 0 <= i < h ==> |art[i]| == w) &&
      art[0] == Edge(w - 2, '.', 'N') && art[h - 1] == Edge(w - 2, '\'', 'S') &&
      art[(h - 2) / 2 + 1] == "W" + Repeat(ALPHA, w - 2) + "E" &&
      forall i :: 0 < i < h - 1 && i != (h - 2) / 2 + 1 ==> art[i] == "|" + Repeat(ALPHA, w - 2) + "|"
  {
    var w := AtLeast(width, 5);
    var h := AtLeast(height, 3);
    var art := SoftBoxArt(width, height);
    EdgeShape(w - 2, '.', 'N');
    EdgeShape(w - 2, '\'', 'S');
    SoftBoxRows(width, height);
  }

  /** An edge holds its anchor once, and no letter other than its own. */
  lemma {:induction false} EdgeAnchor(inner: nat, corner: char, anchor: char, c: char)
    requires inner >= 1 && anchor != '-' && anchor != corner && c != '-' && c != corner
    ensures CountChar(Edge(inner, corner, anchor), anchor) == 1
    ensures c != anchor ==> c !in Edge(inner, corner, anchor)
  {
    EdgeShape(inner, corner, anchor);
    CountCharOne(Edge(inner, corner, anchor), anchor, inner / 2 + 1);
  }

  /** A body row holds W and E only as the ends of the middle one, once each. */
  lemma {:induction false} BodyRowLetters(inner: nat, bodyH: nat, r: nat, c: char)
    requires c != ALPHA && c != '|'
    ensures (r != bodyH / 2 || (c != 'W' && c != 'E')) ==> c !in BodyRow(inner, bodyH, r)
    ensures r == bodyH / 2 ==> CountChar(BodyRow(inner, bodyH, r), 'W') == 1
    ensures r == bodyH / 2 ==> CountChar(BodyRow(inner, bodyH, r), 'E') == 1
  {
    if r == bodyH / 2 {
      var row := BodyRow(inner, bodyH, r);
      CountCharOne(row, 'W', 0);
      CountCharOne(row, 'E', |row| - 1);
    }
  }

  /** N and S appear exactly once: on the lid and on the base. */
  lemma {:induction false} SoftBoxCapsOnce(width: int, height: int)
    ensures CountLines(SoftBoxArt(width, height), 'N') == 1
    ensures CountLines(SoftBoxArt(width, height), 'S') == 1
  {
    var w := AtLeast(width, 5);
    var h := AtLeast(height, 3);
    var art := SoftBoxArt(width, height);
    EdgeAnchor(w - 2, '.', 'N', 'S');
    EdgeAnchor(w - 2, '\'', 'S', 'N');
    assert art[0] == Edge(w - 2, '.', 'N') && art[h - 1] == Edge(w - 2, '\'', 'S');
    forall i | 0 < i < h - 1 ensures 'N' !in art[i] && 'S' !in art[i] {
      assert art[i] == BodyRow(w - 2, h - 2, i - 1);
      BodyRowLetters(w - 2, h - 2, i - 1, 'N');
      BodyRowLetters(w - 2, h - 2, i - 1, 'S');
    }
    CountLinesOne(art, 'N', 0);
    CountLinesOne(art, 'S', h - 1);
  }

  /** W and E appear exactly once: at the two ends of the middle body row. */
  lemma {:induction false} SoftBoxSidesOnce(width: int, height: int)
    ensures CountLines(SoftBoxArt(width, height), 'W') == 1
    ensures CountLines(SoftBoxArt(width, height), 'E') == 1
  {
    var w := AtLeast(width, 5);
    var h := AtLeast(height, 3);
    var art := SoftBoxArt(width, height);
    var k := (h - 2) / 2 + 1;
    EdgeAnchor(w - 2, '.', 'N', 'W');
    EdgeAnchor(w - 2, '.', 'N', 'E');
    EdgeAnchor(w - 2, '\'', 'S', 'W');
    EdgeAnchor(w - 2, '\'', 'S', 'E');
    assert art[0] == Edge(w - 2, '.', 'N') && art[h - 1] == Edge(w - 2, '\'', 'S');
    assert art[k] == BodyRow(w - 2, h - 2, k - 1);
    BodyRowLetters(w - 2, h - 2, k - 1, 'W');
    forall i | 0 < i < h - 1 && i != k ensures 'W' !in art[i] && 'E' !in art[i] {
      assert art[i] == BodyRow(w - 2, h - 2, i - 1);
      BodyRowLetters(w - 2, h - 2, i - 1, 'W');
      BodyRowLetters(w - 2, h - 2, i - 1, 'E');
    }
    CountLinesOne(art, 'W', k);
    CountLinesOne(art, 'E', k);
  }
}
