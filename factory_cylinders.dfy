/** The database-tower generator of the dataset factory
    (`generate_db_tower_art`): a `=` lid and base with the N and S anchors, a
    header of one or two rows closed by a `+---+` separator, and a body whose
    middle row carries the W and E anchors. */
module CylinderFactory {
  import opened PyText

  const ALPHA: char := '░'

  /** `if v < lo: v = lo`. */
  function AtLeast(v: int, lo: int): int
  {
    if v < lo then lo else v
  }

  /** The lid (`.` corners, N) or the base (`'` corners, S). */
  function Cap(inner: nat, corner: char, anchor: char): string
    requires inner >= 1
  {
    [corner] + Repeat('=', inner)[inner / 2 := anchor] + [corner]
  }

  /** `1 if height < 7 else 2`. */
  function HeaderHeight(height: int): nat
  {
    if height < 7 then 1 else 2
  }

  /** The interior row `r` that carries W and E: the middle of the rows below
      the separator. */
  function AnchorRow(height: int): int
  {
    var header := HeaderHeight(height);
    var bodyStart := header + 1;
    bodyStart + (height - 2 - bodyStart) / 2
  }

  function InteriorRow(inner: nat, height: int, r: nat): string
  {
    if r == HeaderHeight(height) then "+" + Repeat('-', inner) + "+"
    else if r == AnchorRow(height) then "W" + Repeat(ALPHA, inner) + "E"
    else "|" + Repeat(ALPHA, inner) + "|"
  }

  /** The art `generate_db_tower_art(width, height)` returns. */
  function TowerArt(width: int, height: int): (r: seq<string>)
    ensures |r| == AtLeast(height, 5)
  {
    var w := AtLeast(width, 5);
    var h := AtLeast(height, 5);
    [Cap(w - 2, '.', 'N')]
      + seq(h - 2, r requires 0 <= r < h - 2 => InteriorRow(w - 2, h, r))
      + [Cap(w - 2, '\'', 'S')]
  }

  method GenerateDbTowerArt(width: int, height: int) returns (art: seq<string>)
    ensures art == TowerArt(width, height)
  {
    var w := width;
    var h := height;
    if w < 5 { w := 5; }
    if h < 5 { h := 5; }
    var innerW := w - 2;
    var midX := innerW / 2;
    var headerH := if h < 7 then 1 else 2;
    var lid := Repeat('=', innerW);
    lid := lid[midX := 'N'];
    art := [['.'] + lid + ['.']];
    var innerH := h - 2;
    var r := 0;
    while r < innerH
      invariant 0 <= r <= innerH
      invariant |art| == r + 1 && art[0] == Cap(innerW, '.', 'N')
      invariant forall j :: 0 <= j < r ==> art[j + 1] == InteriorRow(innerW, h, j)
    {
      if r == headerH {
        art := art + ["+" + Repeat('-', innerW) + "+"];
        r := r + 1;
        continue;
      }
      var rowContent := Repeat(ALPHA, innerW);
      var leftChar := '|';
      var rightChar := '|';
      var bodyStart := headerH + 1;
      var bodyRows := innerH - bodyStart;
      var relativeMid := bodyStart + bodyRows / 2;
      if r == relativeMid {
        leftChar := 'W';
        rightChar := 'E';
      }
      art := art + [[leftChar] + rowContent + [rightChar]];
      r := r + 1;
    }
    var base := Repeat('=', innerW);
    base := base[midX := 'S'];
    art := art + [['\''] + base + ['\'']];
    assert w == AtLeast(width, 5) && h == AtLeast(height, 5);
    TowerLines(width, height);
  }

  // ---------------------------------------------------------------------------
  // Properties.

  lemma {:induction false} CapShape(inner: nat, corner: char, anchor: char)
    requires inner >= 1
    ensures |Cap(inner, corner, anchor)| == inner + 2
    ensures Cap(inner, corner, anchor)[0] == corner && Cap(inner, corner, anchor)[inner + 1] == corner
    ensures Cap(inner, corner, anchor)[inner / 2 + 1] == anchor
    ensures forall j :: 0 < j <= inner && j != inner / 2 + 1 ==> Cap(inner, corner, anchor)[j] == '='
  {
    var c := Cap(inner, corner, anchor);
    var mid := Repeat('=', inner)[inner / 2 := anchor];
    forall j | 0 < j <= inner ensures c[j] == mid[j - 1] {
    }
  }

  /** The art line by line: the lid, interior row `i - 1` at line `i`, the base. */
  lemma {:induction false} TowerLines(width: int, height: int)
    ensures var w := AtLeast(width, 5); var h := AtLeast(height, 5);
      var art := TowerArt(width, height);
      art[0] == Cap(w - 2, '.', 'N') && art[h - 1] == Cap(w - 2, '\'', 'S') &&
      forall i :: 0 < i < h - 1 ==> art[i] == InteriorRow(w - 2, h, i - 1)
  {
  }

  /** `max(height, 5)` lines of `max(width, 5)` characters; the lid and the base
      carry N and S at index `(w - 2) / 2 + 1`. */
  lemma {:induction false} TowerShape(width: int, height: int)
    ensures |TowerArt(width, height)| == AtLeast(height, 5)
    ensures forall i :: 0 <= i < |TowerArt(width, height)| ==> |TowerArt(width, height)[i]| == AtLeast(width, 5)
    ensures TowerArt(width, height)[0] == Cap(AtLeast(width, 5) - 2, '.', 'N')
    ensures TowerArt(width, height)[AtLeast(height, 5) - 1] == Cap(AtLeast(width, 5) - 2, '\'', 'S')
  {
    var w := AtLeast(width, 5);
    var art := TowerArt(width, height);
    CapShape(w - 2, '.', 'N');
    CapShape(w - 2, '\'', 'S');
    forall i | 0 < i < |art| - 1 ensures |art[i]| == w {
      assert art[i] == InteriorRow(w - 2, AtLeast(height, 5), i - 1);
    }
  }

  /** The separator is line `header + 1`, the anchored row lies strictly between
      it and the base, and every other interior line is a plain `|` row. */
  lemma {:induction false} TowerRows(width: int, height: int)
    ensures var h := AtLeast(height, 5); var inner := AtLeast(width, 5) - 2;
      var art := TowerArt(width, height);
      art[HeaderHeight(h) + 1] == "+" + Repeat('-', inner) + "+" &&
      HeaderHeight(h) + 1 < AnchorRow(h) + 1 < h - 1 &&
      art[AnchorRow(h) + 1] == "W" + Repeat(ALPHA, inner) + "E" &&
      forall i :: 0 < i < h - 1 && i != HeaderHeight(h) + 1 && i != AnchorRow(h) + 1 ==>
        art[i] == "|" + Repeat(ALPHA, inner) + "|"
  {
    var h := AtLeast(height, 5);
    var inner := AtLeast(width, 5) - 2;
    var art := TowerArt(width, height);
    forall i | 0 < i < h - 1 ensures art[i] == InteriorRow(inner, h, i - 1) {
    }
  }

  /** N and S appear exactly once: on the lid and on the base. */
  lemma {:induction false} TowerCapsOnce(width: int, height: int)
    ensures CountLines(TowerArt(width, height), 'N') == 1
    ensures CountLines(TowerArt(width, height), 'S') == 1
  {
    var h := AtLeast(height, 5);
    var inner := AtLeast(width, 5) - 2;
    var art := TowerArt(width, height);
    CapShape(inner, '.', 'N');
    CapShape(inner, '\'', 'S');
    TowerShape(width, height);
    CountCharOne(art[0], 'N', inner / 2 + 1);
    CountCharOne(art[h - 1], 'S', inner / 2 + 1);
    forall i | 0 <= i < h
      ensures i != 0 ==> 'N' !in art[i]
      ensures i != h - 1 ==> 'S' !in art[i]
    {
      if 0 < i < h - 1 {
        assert art[i] == InteriorRow(inner, h, i - 1);
      }
    }
    CountLinesOne(art, 'N', 0);
    CountLinesOne(art, 'S', h - 1);
  }

  /** W and E appear exactly once: on the anchored body row. */
  lemma {:induction false} TowerSidesOnce(width: int, height: int)
    ensures CountLines(TowerArt(width, height), 'W') == 1
    ensures CountLines(TowerArt(width, height), 'E') == 1
  {
    var h := AtLeast(height, 5);
    var inner := AtLeast(width, 5) - 2;
    var art := TowerArt(width, height);
    var k := AnchorRow(h) + 1;
    CapShape(inner, '.', 'N');
    CapShape(inner, '\'', 'S');
    TowerRows(width, height);
    CountCharOne(art[k], 'W', 0);
    CountCharOne(art[k], 'E', inner + 1);
    forall i | 0 <= i < h && i != k ensures 'W' !in art[i] && 'E' !in art[i] {
      if 0 < i < h - 1 {
        assert art[i] == InteriorRow(inner, h, i - 1);
      }
    }
    CountLinesOne(art, 'W', k);
    CountLinesOne(art, 'E', k);
  }
}
