/** The box generator of the dataset factory (`generate_box_art`): a box with
    `+` corners, `-` and `|` borders, the anchor letters N, S, W and E at the
    middle of its sides, and the transparency marker inside. */
module BoxFactory {
  import opened PyText

  /** The transparency marker. */
  const ALPHA: char := '░'

  /** The top line (`anchor` is N) or the bottom line (`anchor` is S). */
  function BoxEdge(width: int, anchor: char): string
  {
    "+" + Repeat('-', width / 2 - 1) + [anchor] + Repeat('-', width - width / 2 - 2) + "+"
  }

  function BoxRow(width: int, left: char, right: char): string
  {
    [left] + Repeat(ALPHA, width - 2) + [right]
  }

  /** Body line `i`; the one that ends up at line `(height - 1) / 2` of the art
      carries the W and E anchors. */
  function BoxBodyRow(width: int, height: int, i: int): string
  {
    if i + 1 == (height - 1) / 2 then BoxRow(width, 'W', 'E') else BoxRow(width, '|', '|')
  }

  function BodyHeight(height: int): nat
  {
    if height > 2 then height - 2 else 0
  }

  /** The art `generate_box_art(width, height)` returns. */
  function BoxArt(width: int, height: int): (r: seq<string>)
    ensures |r| == BodyHeight(height) + 2
  {
    [BoxEdge(width, 'N')]
      + seq(BodyHeight(height), i requires 0 <= i < BodyHeight(height) => BoxBodyRow(width, height, i))
      + [BoxEdge(width, 'S')]
  }

  /** `generate_box_art(width, height, style)`: the top, `height - 2` plain body
      rows, the middle one overwritten with the W/E row, the bottom. `style` is
      not used. */
  method GenerateBoxArt(width: int, height: int, style: string) returns (art: seq<string>)
    ensures art == BoxArt(width, height)
  {
    var mid := width / 2;
    var top := "+" + Repeat('-', mid - 1) + "N" + Repeat('-', width - mid - 2) + "+";
    art := [top];
    var filler := Repeat(ALPHA, width - 2);
    var k := 0;
    while k < height - 2
      invariant 0 <= k <= BodyHeight(height)
      invariant |art| == k + 1 && art[0] == top
      invariant forall j :: 1 <= j <= k ==> art[j] == "|" + filler + "|"
    {
      art := art + ["|" + filler + "|"];
      k := k + 1;
    }
    if |art| > 1 {
      var center := |art| / 2;
      art := art[center := "W" + filler + "E"];
    }
    var bottom := "+" + Repeat('-', mid - 1) + "S" + Repeat('-', width - mid - 2) + "+";
    art := art + [bottom];
    var spec := BoxArt(width, height);
    forall j | 0 <= j < |art| ensures art[j] == spec[j] {
      if 0 < j < |art| - 1 {
        assert spec[j] == BoxBodyRow(width, height, j - 1);
      }
    }
  }

  // ---------------------------------------------------------------------------
  // Properties.

  lemma {:induction false} BoxEdgeShape(width: int, anchor: char)
    requires width >= 3
    ensures |BoxEdge(width, anchor)| == width
    ensures BoxEdge(width, anchor)[0] == '+' && BoxEdge(width, anchor)[width - 1] == '+'
    ensures BoxEdge(width, anchor)[width / 2] == anchor
    ensures forall j :: 0 < j < width - 1 && j != width / 2 ==> BoxEdge(width, anchor)[j] == '-'
  {
    var e := BoxEdge(width, anchor);
    var left := Repeat('-', width / 2 - 1);
    assert e == "+" + left + [anchor] + Repeat('-', width - width / 2 - 2) + "+";
    forall j | 0 < j < width - 1 && j != width / 2 ensures e[j] == '-' {
      if j < width / 2 {
        assert e[j] == left[j - 1];
      }
    }
  }

  /** For a box of at least 3×3: `height` lines of `width` characters, the N
      edge on top, the S edge at the bottom, the W/E row at line
      `(height - 1) / 2` and plain `|` rows everywhere else. */
  lemma {:induction false} BoxArtShape(width: int, height: int)
    requires width >= 3 && height >= 3
    ensures |BoxArt(width, height)| == height
    ensures forall i :: 0 <= i < height ==> |BoxArt(width, height)[i]| == width
    ensures BoxArt(width, height)[0] == BoxEdge(width, 'N')
    ensures BoxArt(width, height)[height - 1] == BoxEdge(width, 'S')
    ensures BoxArt(width, height)[(height - 1) / 2] == "W" + Repeat(ALPHA, width - 2) + "E"
    ensures forall i :: 0 < i < height - 1 && i != (height - 1) / 2 ==>
      BoxArt(width, height)[i] == "|" + Repeat(ALPHA, width - 2) + "|"
  {
    var art := BoxArt(width, height);
    BoxEdgeShape(width, 'N');
    BoxEdgeShape(width, 'S');
    forall i | 0 < i < height - 1 ensures art[i] == BoxBodyRow(width, height, i - 1) {
    }
  }

  /** Lower than three lines, the box is only its two edges. */
  lemma {:induction false} BoxArtFlat(width: int, height: int)
    requires height < 3
    ensures BoxArt(width, height) == [BoxEdge(width, 'N'), BoxEdge(width, 'S')]
  {
  }

  /** An edge holds its anchor once, and no letter other than its own. */
  lemma {:induction false} BoxEdgeAnchor(width: int, anchor: char, c: char)
    requires width >= 3 && anchor != '+' && anchor != '-' && c != '+' && c != '-'
    ensures CountChar(BoxEdge(width, anchor), anchor) == 1
    ensures c != anchor ==> c !in BoxEdge(width, anchor)
  {
    BoxEdgeShape(width, anchor);
    CountCharOne(BoxEdge(width, anchor), anchor, width / 2);
  }

  /** A body row holds no character but its two ends and the marker. */
  lemma {:induction false} BoxRowLacks(width: int, left: char, right: char, c: char)
    requires c != left && c != right && c != ALPHA
    ensures c !in BoxRow(width, left, right)
  {
  }

  /** N and S appear exactly once in a box of at least 3×3: on the top and on
      the bottom edge. */
  lemma {:induction false} BoxCapsOnce(width: int, height: int)
    requires width >= 3 && height >= 3
    ensures CountLines(BoxArt(width, height), 'N') == 1
    ensures CountLines(BoxArt(width, height), 'S') == 1
  {
    var art := BoxArt(width, height);
    BoxEdgeAnchor(width, 'N', 'S');
    BoxEdgeAnchor(width, 'S', 'N');
    assert art[0] == BoxEdge(width, 'N') && art[height - 1] == BoxEdge(width, 'S');
    forall i | 0 < i < height - 1 ensures 'N' !in art[i] && 'S' !in art[i] {
      assert art[i] == BoxBodyRow(width, height, i - 1);
      BoxRowLacks(width, 'W', 'E', 'N');
      BoxRowLacks(width, 'W', 'E', 'S');
      BoxRowLacks(width, '|', '|', 'N');
      BoxRowLacks(width, '|', '|', 'S');
    }
    CountLinesOne(art, 'N', 0);
    CountLinesOne(art, 'S', height - 1);
  }

  /** W and E appear exactly once in a box of at least 3×3: at the two ends of
      line `(height - 1) / 2`. */
  lemma {:induction false} BoxSidesOnce(width: int, height: int)
    requires width >= 3 && height >= 3
    ensures CountLines(BoxArt(width, height), 'W') == 1
    ensures CountLines(BoxArt(width, height), 'E') == 1
  {
    var art := BoxArt(width, height);
    var mid := (height - 1) / 2;
    BoxArtShape(width, height);
    BoxEdgeShape(width, 'N');
    BoxEdgeShape(width, 'S');
    CountCharOne(art[mid], 'W', 0);
    CountCharOne(art[mid], 'E', width - 1);
    forall i | 0 <= i < height && i != mid ensures 'W' !in art[i] && 'E' !in art[i] {
    }
    CountLinesOne(art, 'W', mid);
    CountLinesOne(art, 'E', mid);
  }

  /** Each anchor letter appears exactly once in a box of at least 3×3. */
  lemma {:induction false} BoxAnchorsOnce(width: int, height: int)
    requires width >= 3 && height >= 3
    ensures CountLines(BoxArt(width, height), 'N') == 1
    ensures CountLines(BoxArt(width, height), 'S') == 1
    ensures CountLines(BoxArt(width, height), 'W') == 1
    ensures CountLines(BoxArt(width, height), 'E') == 1
  {
    BoxCapsOnce(width, height);
    BoxSidesOnce(width, height);
  }
}
