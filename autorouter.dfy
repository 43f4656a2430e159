/** The linear flow router: a cursor that walks left to right over a 120 x 20
    paper, stamping one generated box per `->`-separated label and a generated
    arrow between consecutive boxes. The engine that generates the art is a
    parameter: a function from (expert, tags, metadata) to art. The paper and
    the cursor belong to the router and persist from one call to the next. */
module AutoRouting {
  import opened PyText
  import opened AsciiCanvas
  import opened Inject

  /** `brain.generate(expert_type, tags, metadata)`. */
  type Brain = (string, string, string) -> string

  const PAPER_WIDTH: nat := 120
  const PAPER_HEIGHT: nat := 20
  const START_X: int := 2
  const START_Y: int := 5
  const ARROW_LEN: int := 6
  /** `f"[LEN:{arrow_len}]"` for the fixed arrow length. */
  const ARROW_META: string := "[LEN:6]"

  /** `[n.strip() for n in flow_string.split("->")]`: empty pieces are kept. */
  function FlowNodes(flow: string): (r: seq<string>)
    ensures |r| == |SplitOn(flow, "->")| >= 1
    ensures forall i :: 0 <= i < |r| ==> r[i] == Strip(SplitOn(flow, "->")[i])
  {
    var parts := SplitOn(flow, "->");
    seq(|parts|, i requires 0 <= i < |parts| => Strip(parts[i]))
  }

  /** `max(12, len(node_text) + 4)`. */
  function BoxWidth(nodeText: string): (w: nat)
    ensures w >= 12 && w >= |nodeText| + 4
    ensures w == 12 || w == |nodeText| + 4
  {
    if |nodeText| + 4 > 12 then |nodeText| + 4 else 12
  }

  /** `f"[DIM:{width}x5]"`. */
  function Dims(width: nat): string
  {
    "[DIM:" + Decimal(width) + "x5]"
  }

  /** Whether the loop ran to the end or stopped at an exception. */
  datatype Halt = Completed | Stopped(error: PyError)

  /** The paper, the cursor and how the calls ended. */
  datatype Drawn = Drawn(grid: Rows, cursorX: int, halt: Halt)

  /** The box half of one pass of the loop: the generated box, with the label
      injected, stamped at the cursor (transparently), and the cursor moved past
      it. An exception from the injection stops before anything is stamped. */
  function BoxStep(grid: Rows, cursorX: int, cursorY: int, nodeText: string, brain: Brain): (d: Drawn)
  {
    var width := BoxWidth(nodeText);
    var rawBox := brain("BOX", "[STYLE:SOLID]", Dims(width));
    match InjectText(rawBox, nodeText)
    case Raised(e) => Drawn(grid, cursorX, Stopped(e))
    case Ok(finalBox) => Drawn(StampBlock(grid, cursorX, cursorY, finalBox, true), cursorX + width, Completed)
  }

  /** The arrow half: a generated arrow stamped one column back and two rows
      down from the cursor, and the cursor moved five more columns. */
  function ArrowStep(grid: Rows, cursorX: int, cursorY: int, brain: Brain): (d: Drawn)
  {
    var rawArrow := brain("ARROW", "[DIR:RIGHT]", ARROW_META);
    Drawn(StampBlock(grid, cursorX - 1, cursorY + 2, rawArrow, true), cursorX + (ARROW_LEN - 1), Completed)
  }

  /** One pass of the loop for node `i`: its box and, unless it is the last
      node, the arrow after it. */
  function NodeStep(grid: Rows, cursorX: int, cursorY: int, nodes: seq<string>, i: nat, brain: Brain): (d: Drawn)
    requires i < |nodes|
  {
    var d := BoxStep(grid, cursorX, cursorY, nodes[i], brain);
    if d.halt.Stopped? || i == |nodes| - 1 then d else ArrowStep(d.grid, d.cursorX, cursorY, brain)
  }

  /** The loop from node `i` on. */
  function FlowFrom(grid: Rows, cursorX: int, cursorY: int, nodes: seq<string>, i: nat, brain: Brain): (d: Drawn)
    requires i <= |nodes|
    decreases |nodes| - i
  {
    if i == |nodes| then Drawn(grid, cursorX, Completed)
    else
      var d := NodeStep(grid, cursorX, cursorY, nodes, i, brain);
      if d.halt.Stopped? then d else FlowFrom(d.grid, d.cursorX, cursorY, nodes, i + 1, brain)
  }

  /** The widths of the boxes from node `i` on. */
  function SumWidths(nodes: seq<string>, i: nat): nat
    requires i <= |nodes|
    decreases |nodes| - i
  {
    if i == |nodes| then 0 else BoxWidth(nodes[i]) + SumWidths(nodes, i + 1)
  }

  // ---------------------------------------------------------------------------
  // What a call does to the cursor and the paper.

  /** A call that completes moves the cursor by the widths of its boxes plus
      five columns per arrow, one arrow fewer than boxes; one that stops never
      moves the cursor back. The paper keeps its shape either way. */
  lemma {:induction false} FlowAdvance(grid: Rows, cursorX: int, cursorY: int, nodes: seq<string>, i: nat, brain: Brain)
    requires i < |nodes|
    ensures var d := FlowFrom(grid, cursorX, cursorY, nodes, i, brain);
            SameShape(d.grid, grid) &&
            (d.halt == Completed ==> d.cursorX == cursorX + SumWidths(nodes, i) + (ARROW_LEN - 1) * (|nodes| - 1 - i)) &&
            d.cursorX >= cursorX
    decreases |nodes| - i
  {
    var s := NodeStep(grid, cursorX, cursorY, nodes, i, brain);
    if s.halt.Completed? && i + 1 < |nodes| {
      FlowAdvance(s.grid, s.cursorX, cursorY, nodes, i + 1, brain);
    }
  }

  /** Every box is at least twelve columns wide, so a completed call moves the
      cursor at least `12 * n + 5 * (n - 1)` columns: a second call on the same
      router starts to the right of everything the first one stamped. */
  lemma {:induction false} SumWidthsAtLeast(nodes: seq<string>, i: nat)
    requires i <= |nodes|
    ensures SumWidths(nodes, i) >= 12 * (|nodes| - i)
    decreases |nodes| - i
  {
    if i < |nodes| {
      SumWidthsAtLeast(nodes, i + 1);
    }
  }

  /** The engine of the source's mock test: fixed art per expert, free of the
      anchor letters. */
  const MOCK_EDGE: string := "[__BOX__]"
  const MOCK_BODY: string := "|       |"
  /** `"[__BOX__]\n|       |\n[__BOX__]"`. */
  const MOCK_BOX: string := MOCK_EDGE + "\n" + MOCK_BODY + "\n" + MOCK_EDGE

  function MockBrain(expertType: string, tags: string, metadata: string): string
  {
    if expertType == "BOX" then MOCK_BOX
    else if expertType == "CYLINDER" then "(__CYL__)\n|      |\n(__CYL__)"
    else if expertType == "DIAMOND" then "<__DIA__>\n|       |\n<__DIA__>"
    else if expertType == "SOFTBOX" then "(__RND__)\n|       |\n(__RND__)"
    else if expertType == "ARROW" then "===>"
    else "???"
  }

  /** The mock box splits into its three lines. */
  lemma {:induction false} MockBoxLines()
    ensures Lines(MOCK_BOX) == [MOCK_EDGE, MOCK_BODY, MOCK_EDGE]
  {
    LinesOfThree(MOCK_EDGE, MOCK_BODY, MOCK_EDGE);
  }

  lemma {:induction false} LinesOfThree(a: string, b: string, c: string)
    requires '\n' !in a && '\n' !in b && '\n' !in c
    ensures Lines(a + "\n" + b + "\n" + c) == [a, b, c]
  {
    var parts := [a, b, c];
    JoinCons("\n", a, [b, c]);
    JoinCons("\n", b, [c]);
    assert parts[1..] == [b, c] && [b, c][1..] == [c];
    assert Join("\n", parts) == (a + "\n") + ((b + "\n") + c);
    AppendAssoc(a + "\n", b + "\n", c);
    SplitJoinChar(parts, '\n');
    assert ['\n'] == "\n";
    assert Join("\n", parts) == a + "\n" + b + "\n" + c;
    assert SplitOn(Join("\n", parts), "\n") == parts;
  }

  /** With the mock engine the injection of any label succeeds: the middle
      line of the mock box is not empty. */
  lemma {:induction false} MockInjectOk(metadata: string, nodeText: string)
    ensures InjectText(MockBrain("BOX", "[STYLE:SOLID]", metadata), nodeText).Ok?
  {
    assert MockBrain("BOX", "[STYLE:SOLID]", metadata) == MOCK_BOX;
    var lines := Lines(MOCK_BOX);
    MockBoxLines();
    assert lines[|lines| / 2] != [];
    InjectedLinesShape(lines, nodeText);
  }

  /** With the mock engine every call runs to the end. */
  lemma {:induction false} MockFlowCompletes(grid: Rows, cursorX: int, cursorY: int, nodes: seq<string>, i: nat)
    requires i <= |nodes|
    ensures FlowFrom(grid, cursorX, cursorY, nodes, i, MockBrain).halt == Completed
    decreases |nodes| - i
  {
    if i < |nodes| {
      MockInjectOk(Dims(BoxWidth(nodes[i])), nodes[i]);
      var s := NodeStep(grid, cursorX, cursorY, nodes, i, MockBrain);
      assert s.halt == Completed;
      MockFlowCompletes(s.grid, s.cursorX, cursorY, nodes, i + 1);
    }
  }

  /** The router: its engine, its paper and its cursor. */
  class AutoRouter {
    var brain: Brain
    var paper: Canvas
    var cursorX: int
    var cursorY: int

    ghost predicate Valid()
      reads this, paper
    {
      paper.Valid()
    }

    /** A router over a blank 120 x 20 paper with the cursor at (2, 5). */
    constructor (brain: Brain)
      ensures Valid() && fresh(paper)
      ensures this.brain == brain
      ensures paper.width == PAPER_WIDTH && paper.height == PAPER_HEIGHT
      ensures paper.grid == Blank(PAPER_WIDTH, PAPER_HEIGHT)
      ensures cursorX == START_X && cursorY == START_Y
    {
      this.brain := brain;
      paper := new Canvas(PAPER_WIDTH, PAPER_HEIGHT);
      cursorX := START_X;
      cursorY := START_Y;
    }

    /** `draw_flow`: stamps the flow onto the router's own paper from the
        current cursor on and returns the paper's render. Nothing is reset: the
        paper and the cursor carry over to the next call, and on an exception
        what was stamped before it stays stamped. */
    method DrawFlow(flow: string) returns (r: Outcome<string>)
      requires Valid()
      modifies this, paper
      ensures Valid() && paper == old(paper) && brain == old(brain) && cursorY == old(cursorY)
      ensures paper.width == old(paper.width) && paper.height == old(paper.height)
      ensures var d := FlowFrom(old(paper.grid), old(cursorX), cursorY, FlowNodes(flow), 0, brain);
              paper.grid == d.grid && cursorX == d.cursorX &&
              r == match d.halt
                   case Completed => Ok(RenderRows(d.grid))
                   case Stopped(e) => Raised(e)
    {
      var nodes := FlowNodes(flow);
      ghost var target := FlowFrom(paper.grid, cursorX, cursorY, nodes, 0, brain);
      var i := 0;
      while i < |nodes|
        invariant 0 <= i <= |nodes|
        invariant Valid() && paper == old(paper) && brain == old(brain) && cursorY == old(cursorY)
        invariant paper.width == old(paper.width) && paper.height == old(paper.height)
        invariant FlowFrom(paper.grid, cursorX, cursorY, nodes, i, brain) == target
      {
        var halt := DrawNode(nodes, i);
        if halt.Stopped? {
          return Raised(halt.error);
        }
        i := i + 1;
      }
      var out := paper.Render();
      r := Ok(out);
    }

    /** One pass of the loop of `draw_flow`: the box for node `i` and, unless it
        is the last node, the arrow after it. */
    method DrawNode(nodes: seq<string>, i: nat) returns (halt: Halt)
      requires Valid() && i < |nodes|
      modifies this, paper
      ensures Valid() && paper == old(paper) && brain == old(brain) && cursorY == old(cursorY)
      ensures paper.width == old(paper.width) && paper.height == old(paper.height)
      ensures NodeStep(old(paper.grid), old(cursorX), cursorY, nodes, i, brain) == Drawn(paper.grid, cursorX, halt)
    {
      halt := DrawBox(nodes[i]);
      if halt.Completed? && i < |nodes| - 1 {
        DrawArrow();
      }
    }

    /** The box of one node, stamped at the cursor; the cursor moves past it. */
    method DrawBox(nodeText: string) returns (halt: Halt)
      requires Valid()
      modifies this, paper
      ensures Valid() && paper == old(paper) && brain == old(brain) && cursorY == old(cursorY)
      ensures paper.width == old(paper.width) && paper.height == old(paper.height)
      ensures BoxStep(old(paper.grid), old(cursorX), cursorY, nodeText, brain) == Drawn(paper.grid, cursorX, halt)
    {
      var width := BoxWidth(nodeText);
      var dims := Dims(width);
      var rawBox := brain("BOX", "[STYLE:SOLID]", dims);
      var injected := InjectText(rawBox, nodeText);
      if injected.Raised? {
        return Stopped(injected.error);
      }
      paper.Stamp(cursorX, cursorY, injected.value, true);
      cursorX := cursorX + width;
      halt := Completed;
    }

    /** The arrow after a box: stamped one column back and two rows down; the
        cursor then moves `arrow_len - 1` columns on. */
    method DrawArrow()
      requires Valid()
      modifies this, paper
      ensures Valid() && paper == old(paper) && brain == old(brain) && cursorY == old(cursorY)
      ensures paper.width == old(paper.width) && paper.height == old(paper.height)
      ensures ArrowStep(old(paper.grid), old(cursorX), cursorY, brain) == Drawn(paper.grid, cursorX, Completed)
    {
      var arrowLen := ARROW_LEN;
      var rawArrow := brain("ARROW", "[DIR:RIGHT]", ARROW_META);
      var arrowX := cursorX - 1;
      var arrowY := cursorY + 2;
      paper.Stamp(arrowX, arrowY, rawArrow, true);
      cursorX := cursorX + (arrowLen - 1);
    }
  }
}
