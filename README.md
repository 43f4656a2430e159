# ASCII Architect, verified model

ASCII Architect turns a text topology such as `"API -> DB ; USER -> API"` into
ASCII diagrams. The deterministic part of the program, modelled here:

- **A character canvas.** It offers bounds-checked writes, a transparent block overlay and a trimming render step.
- **Shape renderers.** Box, soft box, cylinder and the "Saturn" diamond, built on a greedy word-wrap and CPython's `str.center`.
- **A grid router.** It parses rows and columns, classifies each label, measures the nodes, lays out bands with fixed gaps, stamps the nodes and draws the connectors.
- **Label injection into art.** Two variants of `inject_text`.
- **A linear cursor router.** Its art engine is a parameter.
- **The V18 line protocol.** The dataset generators and their `format_hybrid_v18` encoder form one half; the engine's `_clean_v18` decoder is the other.
- **Two small classifiers.** The scanner's shape suggestion and the narrator's local report.

Every Python loop that builds state step by step is a Dafny `method` with loop
invariants. Each method is proved equal to a pure specification function, and
the promised properties are proved as lemmas about those functions. The
objects whose fields change are classes:
- `AsciiCanvas.Canvas`: the `grid` field is reassigned by `PutChar`, `Stamp` and `Clear`.
- `GridRouter.Router`: `paper` is replaced in `Process`.
- `AutoRouting.AutoRouter`: the cursor and the paper persist between calls.

Python exceptions the code can raise on some input become `Raised(...)` values
of the `Outcome` datatype:
- the `IndexError` of `clean_line[0]` on an empty middle line;
- the failed two-way unpacking in the narrator.

Files and modules:

| file | module | models |
|---|---|---|
| text.dfy | `PyText` | Python string primitives: `split`, `join`, `strip`/`rstrip`/`lstrip`, `replace`, `str.split()`, `upper`, `center`, slicing, `f"{n:02d}"`, the `re.sub` of a `prefix\d+suffix` tag, occurrence counts |
| canvas.dfy | `AsciiCanvas` | src/ascii_architect/canvas.py |
| renderers.dfy | `Renderers` | src/ascii_architect/renderers.py |
| router.dfy | `GridRouter` | src/ascii_architect/router.py |
| inject.dfy | `Inject` | `inject_text` in src/ascii_architect/utils/__init__.py and src/main.py |
| autorouter.dfy | `AutoRouting` | `AutoRouter` in src/router.py |
| decoder.dfy | `Decoder` | `_clean_v18` (three identical copies) and `format_hybrid_v18` |
| factory_boxes.dfy, factory_cylinders.dfy, factory_diamonds.dfy, factory_soft_boxes.dfy, factory_arrows.dfy | `BoxFactory`, `CylinderFactory`, `DiamondFactory`, `SoftBoxFactory`, `ArrowFactory` | the dataset art generators |
| scanner.dfy | `Scanner` | `ProjectScanner.get_shape_suggestion` |
| narrator.dfy | `Narrator` | `Narrator.explain` with `use_ai=False` |

Modelling conventions:

- **Integers.** Integers are unbounded, as in Python. Dafny's `/` and `%` are used only where Python's floor division agrees with them, and negative operands are written out where they can occur. Examples: the slice `text[:k]` with a negative `k` is `PyText.SliceTo`, and `(row_h - h) // 2` divides a non-negative number.
- **Whitespace and case.** Whitespace is CPython's `str.isspace` set. `upper()` and the regex `\d` are taken on ASCII letters and digits.
- **Extensions.** `os.path.splitext` follows POSIX `posixpath`.
- **Characters.** Strings are `seq<char>`. `'░'`, U+FFFD and emoji are ordinary characters.
- **The Router's traversal order.** The Router's dictionaries are filled and traversed in insertion order, which is row-major. The pure functions `StampRowsFrom` and `ArrowRowsFrom` follow the same order.
- **The art engine.** In `AutoRouter` the engine is a function `(expert, tags, metadata) -> art` held in a field. The concrete engine of tests/test_router_mock.py:10-24 is `AutoRouting.MockBrain`.

Where the code and its comments disagree, the model follows the code:
- **Stamping.** A stamped space overwrites the cell below; only `'░'` is transparent, and only when `transparent` is set.
- **Box renderer.** It has no blank interior rows; `empty_line` is never used.
- **Cylinder renderer.** It never emits its shoulder row `body_top`.
- **Diamond renderer.** Each cap has four lines: an apex (`'^'` or `'v'`) and three slope lines.
- **The `if not grid` guard.** It never fires, because `split(';')` always yields a row. An empty layout therefore renders a blank 7 x 11 canvas (`GridRouter.EmptyLayout`).
- **Vertical connectors.** They always put a `'+'` at `mid_y`, also when the two x coordinates agree.
- **Diamond anchors.** They use the generic anchor formula. The model does not relate the north anchor to the `'^'` of a diamond.
- **`factory_arrows.py`.** Its code sits indented at top level, so the module would not import; its functions are modelled as if dedented.
- **`AutoRouter`.** It never splits on `;` and always asks for a `"BOX"`, whatever the mock test's later assertions expect. The model follows the router.

## Model

| member | source | states |
|---|---|---|
| AsciiCanvas.Blank | src/ascii_architect/canvas.py:2-7 | a new grid has `height` rows of `width` cells, every cell a space |
| AsciiCanvas.Put | src/ascii_architect/canvas.py:9-12 | a write keeps the grid's shape, sets exactly cell (x, y) when it is in bounds, and changes no other cell (nothing at all out of bounds) |
| AsciiCanvas.StampLines | src/ascii_architect/canvas.py:23-40 | stamping a block never changes the shape of the grid |
| AsciiCanvas.StampLineCells | src/ascii_architect/canvas.py:28-40 | stamping one line writes `line[j]` at `(x + j, y)` unless it is a transparent `'░'`, and leaves every other cell as it was |
| AsciiCanvas.StampLinesCells | src/ascii_architect/canvas.py:23-40 | stamping a block writes `lines[i][j]` at `(x + j, y + i)` for every covered in-bounds cell (all of them, or all but the `'░'` ones when transparent); every other cell is unchanged |
| AsciiCanvas.TransparentStampKeepsMarkerOut | src/ascii_architect/canvas.py:33-34 | a transparent stamp on a grid without `'░'` leaves the grid without `'░'` |
| AsciiCanvas.StampOverwritesWithSpaceAndOpaqueMarker | src/ascii_architect/canvas.py:33-40 | a space in the block overwrites the cell below, and without transparency so does `'░'` |
| AsciiCanvas.RenderLines | src/ascii_architect/canvas.py:42-48 | the render splits back at newlines into exactly `height` lines; each is its row right-stripped: a prefix of the row, at most `width` long, not ending in whitespace |
| AsciiCanvas.Canvas.constructor | src/ascii_architect/canvas.py:2-7 | the canvas has the given width and height and a blank grid |
| AsciiCanvas.Canvas.PutChar | src/ascii_architect/canvas.py:9-12 | the new grid is `Put(old grid, x, y, ch)`; width, height and the rectangle invariant are kept |
| AsciiCanvas.Canvas.Stamp | src/ascii_architect/canvas.py:14-40 | the nested loops leave the grid equal to `StampBlock(old grid, ...)`, with the canvas still a `height x width` rectangle |
| AsciiCanvas.Canvas.StampRow | src/ascii_architect/canvas.py:28-40 | the inner loop leaves the grid equal to `StampLine(old grid, ...)` |
| AsciiCanvas.Canvas.Render | src/ascii_architect/canvas.py:42-48 | the loop returns the right-stripped rows joined by newlines |
| AsciiCanvas.Canvas.Clear | src/ascii_architect/canvas.py:50-52 | the grid becomes blank; width and height are kept |
| Renderers.WrapText | src/ascii_architect/renderers.py:8-30 | the loop over words returns the lines of the greedy fold `Wrap` |
| Renderers.WrapGroupsOk | src/ascii_architect/renderers.py:10-29 | every line of the fold is a non-empty run of words that fits `max_width`, or one word alone; the runs flatten back to `text.split()` |
| Renderers.WrapFallback | src/ascii_architect/renderers.py:28-30 | the result is never empty; text without words comes back as `[text]`; otherwise it is the joined runs |
| Renderers.WrapKeepsWords | src/ascii_architect/renderers.py:10-29 | the words of the output lines, in order, are `text.split()` |
| Renderers.WrapLineWidths | src/ascii_architect/renderers.py:16-23 | each line is at most `max_width` long, unless it is a single word longer than that |
| Renderers.WrapNoNewline | src/ascii_architect/renderers.py:10-30 | no wrapped line contains a newline, unless the text has no words and carries the newline itself |
| Renderers.MaxLen | src/ascii_architect/renderers.py:41 | the longest line's length: no line is longer and some line attains it |
| Renderers.CenterPlacement | src/ascii_architect/renderers.py:33-35 | `line.center(width)` has length `max(width, len(line))`, holds the line at the CPython left offset, spaces elsewhere, and its two margins differ by at most one |
| Renderers.CenterStrip | src/ascii_architect/renderers.py:33-35 | stripping a centred stripped line gives the line back |
| Renderers.FramedRows | src/ascii_architect/renderers.py:47-48 | every framed row is `'|' + line.center(cw) + '|'`, of length `cw + 2` |
| Renderers.BorderedGeometry | src/ascii_architect/renderers.py:41-51 | a bordered shape has `len(wrapped) + 2` lines, all `cw + 2` long, with the given top and bottom and each inner line framed by `'|'` around its centred text |
| Renderers.BoxGeometry | src/ascii_architect/renderers.py:39-51 | the box: `len(wrapped) + 2` lines of width `cw + 2`, top and bottom `'+' + '-' * cw + '+'`, middle lines `'|' + centred + '|'` |
| Renderers.SoftBoxGeometry | src/ascii_architect/renderers.py:55-67 | the soft box has the box's line count and width, `'.'` top corners and `"'"` bottom corners |
| Renderers.CylinderGeometry | src/ascii_architect/renderers.py:71-85 | the cylinder has the box's line count and width, lid `" ." + '=' * (cw - 2) + ". "` and base `'\' + '_' * cw + '/'`, and no shoulder row |
| Renderers.AppendFramed | src/ascii_architect/renderers.py:47-48 | the loop appends exactly the framed centred lines to the result list |
| Renderers.BoxRender | src/ascii_architect/renderers.py:39-51 | the method returns the box lines joined by newlines |
| Renderers.SoftBoxRender | src/ascii_architect/renderers.py:55-67 | the method returns the soft-box lines joined by newlines |
| Renderers.CylinderRender | src/ascii_architect/renderers.py:71-85 | the method returns the cylinder lines joined by newlines |
| Renderers.DiamondWidthBounds | src/ascii_architect/renderers.py:112-123 | `total_width` is odd and at least `max(max_text_width, 7) + 2`; every body padding is non-negative |
| Renderers.ConeLineShape | src/ascii_architect/renderers.py:128-144 | cone line `i` has its two walls at `center_idx - (i + 1)` and `center_idx + (i + 1)` and spaces everywhere else |
| Renderers.TopConeShape | src/ascii_architect/renderers.py:127-136 | the top cap has 4 lines: `'^'` at column `center_idx`, then `'/'` and `'\'` at `center_idx -/+ i` |
| Renderers.BottomConeShape | src/ascii_architect/renderers.py:139-145 | the bottom cap has 4 lines: the top cap's slope lines in reverse order with the walls swapped, then `'v'` at column `center_idx` |
| Renderers.DiamondBodyShape | src/ascii_architect/renderers.py:148-153 | each body line is `center_idx - len(line) // 2` spaces followed by the line |
| Renderers.DiamondLineCount | src/ascii_architect/renderers.py:109-155 | the diamond has `len(wrapped) + 8` lines |
| Renderers.DiamondRender | src/ascii_architect/renderers.py:109-155 | the method returns top cone, body and bottom cone joined by newlines |
| Renderers.BuildTopCone | src/ascii_architect/renderers.py:127-136 | the loop builds exactly the top cap |
| Renderers.BuildBottomCone | src/ascii_architect/renderers.py:139-145 | the descending loop builds exactly the bottom cap |
| Renderers.BuildDiamondBody | src/ascii_architect/renderers.py:148-153 | the loop builds exactly the padded body lines |
| Renderers.ShapeLinesNoNewline | src/ascii_architect/renderers.py:39-155 | every shape has at least 3 lines, none with a newline, so splitting its art at newlines gives its lines back |
| Renderers.GetRendererCaseInsensitive | src/ascii_architect/renderers.py:157-164 | the lookup ignores case, and it gives the Box renderer exactly for names outside SOFTBOX, CYLINDER and DIAMOND |
| Renderers.RenderShape | src/ascii_architect/router.py:36-44 | the renderer chosen by shape draws the joined lines of that shape with the default padding and widths |
| GridRouter.ParseGrid | src/ascii_architect/router.py:72-73 | the grid has one row per `;`-separated piece, empty pieces included |
| GridRouter.KeepLabels | src/ascii_architect/router.py:73 | a row keeps only non-empty labels, each the strip of one `->` piece |
| GridRouter.ParseGridLabels | src/ascii_architect/router.py:72-73 | every label is non-empty, stripped, and contains neither `;` nor `->` |
| GridRouter.ClassifyPriority | src/ascii_architect/router.py:89-93 | the shape follows strict priority on the upper-cased label (DB/SQL/DATA, then ?/IF/DECISION, then START/END/USER/[DIR], else BOX), each case if and only if; upper-casing first changes nothing |
| GridRouter.NodeShapeMeasures | src/ascii_architect/router.py:22-51 | a node's art splits back into the renderer's lines; `h` is their count (at least 3) and `w` the longest |
| GridRouter.GridNodes | src/ascii_architect/router.py:85-97 | one node per label, row by row and column by column |
| GridRouter.MergeMax | src/ascii_architect/router.py:100 | the merged column widths are the elementwise maximum, with missing columns counting as 0 |
| GridRouter.ColWidthsAreMaxima | src/ascii_architect/router.py:85-102 | every node fits its column's width, and each column's width is attained by some node of that column |
| GridRouter.MaxH | src/ascii_architect/router.py:86-101 | a row's height bounds every node of the row and is attained, or is 0 for an empty row |
| GridRouter.RowHeights | src/ascii_architect/router.py:102 | one height per row, empty rows included |
| GridRouter.Offsets | src/ascii_architect/router.py:108-118 | origins start at 2 and each next origin adds the band's size plus the gap |
| GridRouter.OffsetsIncrease | src/ascii_architect/router.py:108-118 | each band, with its gap, ends at or before every later origin |
| GridRouter.MakeLayout | src/ascii_architect/router.py:71-121 | the layout is consistent: its nodes are those of the parsed grid, with its column widths, row heights and origins |
| GridRouter.BandInside | src/ascii_architect/router.py:108-121 | every band, with its gap, lies between the first origin and the final cursor |
| GridRouter.NodeInBand | src/ascii_architect/router.py:126-132 | every node is stamped at its column's x and lies within its row band and column band; the canvas leaves at least gap + 5 free cells after it in both directions |
| GridRouter.AnchorsInside | src/ascii_architect/router.py:53-62 | for `w, h >= 1` the four anchors lie inside the node's rectangle: n on the top row, s on the bottom row, e on the right column, w on the left column |
| GridRouter.AnchorGrid | src/ascii_architect/router.py:124-133 | one set of anchors per node |
| GridRouter.HRunCells | src/ascii_architect/router.py:156-157 | a rightward run writes `ch` on row y for `x <= cx < bound`, and nothing else |
| GridRouter.HRunDownCells | src/ascii_architect/router.py:172 | a leftward run writes `ch` on row y for `bound < cx <= x`, and nothing else |
| GridRouter.VRunCells | src/ascii_architect/router.py:166 | a downward run writes `ch` in column x for `y <= cy < bound`, and nothing else |
| GridRouter.HArrowCells | src/ascii_architect/router.py:154-158 | a horizontal connector writes `'-'` from e.x + 1 to w.x - 1 on the source's row, then `'>'` at w.x - 1, and nothing else |
| GridRouter.JogCells | src/ascii_architect/router.py:170-173 | the elbow's horizontal leg exists only when sx != ex: `'-'` strictly between them on `mid_y`, `'+'` at ex |
| GridRouter.VArrowCells | src/ascii_architect/router.py:160-177 | a vertical connector writes `'|'` strictly between sy and `mid_y`, `'+'` at (sx, `mid_y`), the jog, `'|'` down to ey, and `'v'` at (ex, ey); it writes nothing else |
| GridRouter.StampRowFromStep | src/ascii_architect/router.py:126-133 | stamping the rest of a row is stamping node c at `(x[c], y[r] + (row_h - h) // 2)` and then the rest; node c's anchors are taken at that point |
| GridRouter.LayoutGrid | src/ascii_architect/router.py:120-147 | the final grid is a `(final x + 5) x (final y + 5)` rectangle |
| GridRouter.EmptyParse | src/ascii_architect/router.py:72-75 | an empty layout parses to one empty row, so the `if not grid` guard never fires |
| GridRouter.EmptyLayout | src/ascii_architect/router.py:72-121 | an empty layout gives a blank 7 x 11 canvas whose render is ten newlines |
| GridRouter.BlankRender | src/ascii_architect/canvas.py:42-48 | a blank canvas renders as `height - 1` newlines |
| GridRouter.Router.constructor | src/ascii_architect/router.py:20 | a fresh router holds a blank 1 x 1 canvas |
| GridRouter.Router.GetNodeShape | src/ascii_architect/router.py:22-51 | the template path returns the rendered node with its measured width and height |
| GridRouter.Router.MeasureGrid | src/ascii_architect/router.py:85-102 | the measuring loops return the grid's nodes, the column widths and the row heights |
| GridRouter.Router.MeasureRow | src/ascii_architect/router.py:86-102 | one row's pass returns its nodes, the widths merged into the incoming ones, and the row's height |
| GridRouter.Router.Tally | src/ascii_architect/router.py:99-101 | updating the maxima with one more node extends them to that node |
| GridRouter.Router.Positions | src/ascii_architect/router.py:108-118 | the position loop returns the origins and the final cursor, which together are `Offsets` |
| GridRouter.Router.DrawHArrow | src/ascii_architect/router.py:154-158 | the paper becomes `HArrow(old paper, start, end)` |
| GridRouter.Router.DrawVArrow | src/ascii_architect/router.py:160-177 | the paper becomes `VArrow(old paper, start, end)` |
| GridRouter.Router.DrawDown | src/ascii_architect/router.py:176 | the downward loop writes `VRun` of `'|'` |
| GridRouter.Router.DrawJog | src/ascii_architect/router.py:170-173 | the sideways loop and its `'+'` give `Jog` |
| GridRouter.Router.StampNodes | src/ascii_architect/router.py:124-133 | every node is stamped in row-major order, and the anchors of every node are returned |
| GridRouter.Router.StampRow | src/ascii_architect/router.py:126-133 | one row of nodes is stamped left to right, and its anchors are returned |
| GridRouter.Router.DrawArrows | src/ascii_architect/router.py:135-147 | connectors are drawn for every node in row-major order |
| GridRouter.Router.DrawArrowsRow | src/ascii_architect/router.py:136-147 | connectors are drawn for one row, left to right |
| GridRouter.Router.DrawArrowsAt | src/ascii_architect/router.py:138-147 | a horizontal connector is drawn only to (r, c + 1) and a vertical one only to (r + 1, c), when that node exists |
| GridRouter.Router.ComputeLayout | src/ascii_architect/router.py:71-121 | the parsing, measuring and position loops compute `MakeLayout`, with a canvas of final x + 5 by final y + 5 |
| GridRouter.Router.Process | src/ascii_architect/router.py:64-152 | `process` replaces the paper with a fresh canvas of the layout's size, which ends up holding `LayoutGrid`, and returns its render |
| Inject.CleanAnchors | src/ascii_architect/utils/__init__.py:15 | the four chained replacements act character by character (N, S to `-`; W, E to `\|`), keep the length, and leave no anchor letter |
| Inject.PaddedShape | src/ascii_architect/utils/__init__.py:23-25 | a label that fits gets `total // 2` spaces on the left and the remainder (the same or one more) on the right, `inner_space` characters in all |
| Inject.CenterLineShape | src/ascii_architect/utils/__init__.py:17-28 | a middle line of length at least 2 keeps its length and its cleaned first and last characters; the label truncated to `len - 2` sits centred between them |
| Inject.CenterLineNarrow | src/ascii_architect/utils/__init__.py:19-28 | a one-character middle line gets `text[:-1]` between two copies of its character |
| Inject.CenterLineEmptyRaises | src/ascii_architect/utils/__init__.py:28 | an empty middle line raises `IndexError`, in both variants, except that a non-empty label is needed for the package's variant |
| Inject.EmptyTextUnchanged | src/ascii_architect/utils/__init__.py:6-7 | an empty label returns the art unchanged |
| Inject.InjectedLinesShape | src/ascii_architect/utils/__init__.py:9-33 | the result raises exactly when the middle line is empty; otherwise it keeps the line count, every other line is its cleaned input, and the middle line is rebuilt |
| Inject.InjectTextKeepsLineCount | src/ascii_architect/utils/__init__.py:9-33 | for a label without newlines the result has as many lines as the art |
| Inject.InjectedLinesSplitBack | src/ascii_architect/utils/__init__.py:33 | joining the new lines and splitting at newlines gives them back, as many as the input lines |
| Inject.ScriptEmptyText | src/main.py:21-54 | the script's variant still rewrites the middle line for an empty label: first character, spaces, last character |
| Inject.VariantsAgree | src/main.py:21-54 | for a non-empty label the two variants return the same result |
| Inject.InjectKeepsLineCount | src/main.py:23-54 | the script's variant keeps the line count |
| Inject.InjectTextLoop | src/main.py:21-54 | the script's loop gives the cleaned lines with the rebuilt middle line, joined, or raises as the specification does |
| Inject.RebuildCenterLine | src/main.py:34-50 | the truncate-by-reassignment and padding give the specified middle line |
| AutoRouting.FlowNodes | src/router.py:35 | one label per `->` piece, each stripped, empty pieces kept |
| AutoRouting.BoxWidth | src/router.py:43 | `max(12, len(label) + 4)` |
| AutoRouting.FlowAdvance | src/router.py:37-74 | a completed call moves the cursor by the sum of box widths plus 5 per arrow, one arrow fewer than boxes; a call that stops never moves it back; the paper keeps its shape |
| AutoRouting.SumWidthsAtLeast | src/router.py:43-54 | the boxes advance the cursor by at least 12 columns each |
| AutoRouting.MockBoxLines | tests/test_router_mock.py:14-15 | the mock box art splits into its three lines |
| AutoRouting.MockInjectOk | tests/test_router_mock.py:13-15 | injecting any label into the mock box never raises |
| AutoRouting.MockFlowCompletes | tests/test_router_mock.py:10-24 | with the mock engine a call always runs to its end |
| AutoRouting.AutoRouter.constructor | src/router.py:18-25 | a blank 120 x 20 paper, the cursor at (2, 5), the given engine |
| AutoRouting.AutoRouter.DrawFlow | src/router.py:27-76 | `draw_flow` stamps boxes and arrows as `FlowFrom` specifies, from the router's current cursor on the same paper; the cursor's y never changes; it returns the render or the injection's exception |
| AutoRouting.AutoRouter.DrawNode | src/router.py:37-74 | one pass draws a box and, unless the node is the last, an arrow |
| AutoRouting.AutoRouter.DrawBox | src/router.py:41-54 | a box is generated, labelled, stamped at the cursor, and the cursor moved by its width |
| AutoRouting.AutoRouter.DrawArrow | src/router.py:57-74 | an arrow is stamped at (cursor_x - 1, cursor_y + 2), and the cursor moved by 5 |
| Decoder.TruncateShape | src/ascii_architect/neural_engine.py:100 | the truncation is a prefix without `[STOP]`, cut exactly where the first `[STOP]` begins |
| Decoder.TruncateAtStop | src/engine.py:61 | the text before the first `[STOP]` is kept exactly |
| Decoder.CleanIgnoresAfterStop | scripts/engine.py:84 | whatever follows the first `[STOP]` does not affect the result |
| Decoder.ExtractFromFirstTag | src/ascii_architect/neural_engine.py:102-104 | with a `<L01>` the content is `<L01>` and what follows its first occurrence |
| Decoder.CleanFromFirstTag | src/engine.py:63-65 | text before the first `<L01>` does not matter, nor does the prompt then |
| Decoder.DropPromptLeading | scripts/engine.py:92-94 | without `<L01>` a leading prompt is removed |
| Decoder.DropPromptFree | src/ascii_architect/neural_engine.py:105-106 | content that does not contain the prompt is kept as it is |
| Decoder.ScrubCharsShape | src/engine.py:69-71 | after the character rewrites there is no `'░'` and no U+FFFD, and any space stems from a `'░'` |
| Decoder.ScrubStages | scripts/engine.py:97-104 | the three chained rewrites equal one character-wise pass |
| Decoder.CleanOutputShape | src/ascii_architect/neural_engine.py:99-116 | the output is stripped, has no `'░'` and no U+FFFD, and contains a space only if the raw text held a `'░'` |
| Decoder.RemoveTagsJoin | src/ascii_architect/neural_engine.py:113-114 | one pass of the tag regex removes exactly the leading tag of every line |
| Decoder.LineTagShape | datasets/factory_cylinders.py:104 | `f"<L{idx+1:02d}>"` is one match of `<L\d+>`, made only of `<`, `L`, digits and `>` |
| Decoder.ScrubFormatted | datasets/factory_boxes.py:61-70 | with spaces dropped, `format_hybrid_v18(line, idx)` becomes line tag + `[S:00]` + the line with `'░'` shown as a space |
| Decoder.FormattedLacksStop | research/datasets/factory_soft_boxes.py:80-88 | formatted lines without `[STOP]` never contain `[STOP]` when joined |
| Decoder.FormattedStart | research/datasets/factory_diamonds.py:83-91 | joined formatted lines start with `<L01>` |
| Decoder.ExtractCompletion | src/ascii_architect/neural_engine.py:100-106 | an echoed prompt followed by a completion is truncated and cut back to the formatted lines and the space before `[STOP]` |
| Decoder.ScrubCompletion | scripts/engine.py:97-104 | the scrubbed completion is, line by line, line tag + spacing token + shown line |
| Decoder.DropLineTags | src/engine.py:74 | the first regex removes every line tag and nothing else |
| Decoder.DropTokens | src/engine.py:75 | the second regex removes every spacing token and nothing else |
| Decoder.CleanInvertsFormat | research/datasets/factory_arrows.py:56-63 | the round trip: cleaning prompt + formatted completion + ` [STOP]` gives the lines with `'░'` as a space, joined and stripped, when the lines hold no space, `<L`, `[S:` or `[STOP]` |
| BoxFactory.GenerateBoxArt | datasets/factory_boxes.py:20-59 | the loop and the in-place rewrite of the centre row give `BoxArt`; the style is ignored |
| BoxFactory.BoxEdgeShape | datasets/factory_boxes.py:32-34 | the edge is `width` long, `'+'` at both ends, the anchor at `width // 2`, `'-'` elsewhere |
| BoxFactory.BoxArtShape | datasets/factory_boxes.py:34-56 | `height` lines of `width` characters: N edge, `'W' + '░' * (w - 2) + 'E'` at line `(height - 1) // 2`, `'\|' + '░' * (w - 2) + '\|'` elsewhere in the body, S edge |
| BoxFactory.BoxArtFlat | datasets/factory_boxes.py:41-57 | below height 3 only the two edges are drawn |
| BoxFactory.BoxCapsOnce | datasets/factory_boxes.py:34-56 | N and S appear exactly once |
| BoxFactory.BoxSidesOnce | datasets/factory_boxes.py:44-53 | W and E appear exactly once |
| BoxFactory.BoxAnchorsOnce | datasets/factory_boxes.py:20-56 | each of N, S, W, E appears exactly once |
| CylinderFactory.GenerateDbTowerArt | datasets/factory_cylinders.py:42-100 | the clamping, the list edits and the row loop give `TowerArt` |
| CylinderFactory.CapShape | datasets/factory_cylinders.py:58-60 | a cap is `inner + 2` long: corner, `'='` with the anchor at `inner // 2 + 1`, corner |
| CylinderFactory.TowerShape | datasets/factory_cylinders.py:46-98 | `max(h, 5)` lines of `max(w, 5)` characters, `.N.` lid and `'S'` base |
| CylinderFactory.TowerRows | datasets/factory_cylinders.py:54-93 | line `header_h + 1` is the `+---+` separator; the single W/E row lies strictly between it and the base; every other interior row is `'\|' + '░' * inner + '\|'` |
| CylinderFactory.TowerCapsOnce | datasets/factory_cylinders.py:57-98 | N and S appear exactly once |
| CylinderFactory.TowerSidesOnce | datasets/factory_cylinders.py:85-91 | W and E appear exactly once |
| DiamondFactory.DrawDiamondRow | research/datasets/factory_diamonds.py:40-79 | one pass of the row loop draws `DiamondRow(radius, y)` |
| DiamondFactory.GenerateDiamondEntry | research/datasets/factory_diamonds.py:19-81 | the lines are `DiamondArt(radius)` and width = height = `2r + 1` |
| DiamondFactory.DiamondDegenerate | research/datasets/factory_diamonds.py:29-39 | a negative radius gives no lines; radius 0 gives `["N"]` |
| DiamondFactory.DiamondShape | research/datasets/factory_diamonds.py:29-30 | `2r + 1` lines, each of `2r + 1` characters |
| DiamondFactory.DiamondOutline | research/datasets/factory_diamonds.py:40-77 | a cell is drawn if and only if it is at Manhattan distance r from the centre |
| DiamondFactory.DiamondMirrorVertical | research/datasets/factory_diamonds.py:56-77 | upside down the diamond is itself with the slants and N/S swapped |
| DiamondFactory.DiamondMirrorHorizontal | research/datasets/factory_diamonds.py:63-77 | mirrored left to right it is itself with the slants and W/E swapped |
| DiamondFactory.DiamondWalls | research/datasets/factory_diamonds.py:69-77 | a slope row has `'/'` at `dist` and `'\'` at `2r - dist` above the equator, swapped below it, and `'░'` elsewhere |
| DiamondFactory.DiamondTipsOnce | research/datasets/factory_diamonds.py:56-60 | N appears once, at (0, r), and S once, at (2r, r) |
| DiamondFactory.DiamondSidesOnce | research/datasets/factory_diamonds.py:63-65 | W appears once, at (r, 0), and E once, at (r, 2r) |
| SoftBoxFactory.GenerateSoftBoxArt | research/datasets/factory_soft_boxes.py:32-78 | the clamping, the list edits and the row loop give `SoftBoxArt` |
| SoftBoxFactory.EdgeShape | research/datasets/factory_soft_boxes.py:50-53 | an edge is `inner + 2` long: corner, `'-'` with the anchor at `inner // 2 + 1`, corner |
| SoftBoxFactory.SoftBoxRows | research/datasets/factory_soft_boxes.py:49-76 | line 0 is the lid, the last line the base, line i the body row `i - 1` |
| SoftBoxFactory.SoftBoxShape | research/datasets/factory_soft_boxes.py:43-76 | `max(h, 3)` lines of `max(w, 5)` characters; W/E ends on body row `(h - 2) // 2`, plain `\|` rows elsewhere |
| SoftBoxFactory.SoftBoxCapsOnce | research/datasets/factory_soft_boxes.py:49-76 | N and S appear exactly once |
| SoftBoxFactory.SoftBoxSidesOnce | research/datasets/factory_soft_boxes.py:59-70 | W and E appear exactly once |
| ArrowFactory.GenerateArrowArt | research/datasets/factory_arrows.py:19-54 | the loops give `ArrowArt(length, direction)` |
| ArrowFactory.ArrowUnknown | research/datasets/factory_arrows.py:23-54 | any other direction gives no lines |
| ArrowFactory.HorizontalCounts | research/datasets/factory_arrows.py:25-34 | RIGHT and LEFT give one line of `max(length, 1)` characters: one head and `length - 1` dashes |
| ArrowFactory.VerticalCounts | research/datasets/factory_arrows.py:36-52 | DOWN and UP give `max(length, 1)` one-character lines: one head and `length - 1` bars |
| ArrowFactory.ArrowCounts | research/datasets/factory_arrows.py:19-54 | every direction draws one head and `length - 1` shaft characters |
| ArrowFactory.ArrowLeftMirrorsRight | research/datasets/factory_arrows.py:25-34 | LEFT is RIGHT read backwards with the head turned |
| ArrowFactory.ArrowUpMirrorsDown | research/datasets/factory_arrows.py:36-52 | UP is DOWN upside down with the head turned |
| ArrowFactory.ArrowDownTransposesRight | research/datasets/factory_arrows.py:25-43 | DOWN is RIGHT turned a quarter turn, character by character |
| Scanner.SplitExt | src/ascii_architect/scanner.py:77 | stem + extension is the name; the extension is empty or one dot with no further dot or separator |
| Scanner.SplitExtAppend | src/ascii_architect/scanner.py:77 | `splitext` takes back an extension appended to a proper stem |
| Scanner.SuggestionCases | src/ascii_architect/scanner.py:68-88 | the result is BOX, SOFTBOX or CYLINDER, each exactly when its ordered tests say so |
| Scanner.SuggestionIgnoresCase | src/ascii_architect/scanner.py:76 | upper-casing the name first changes nothing |
| Scanner.DatabaseFileIsCylinder | src/ascii_architect/scanner.py:76-80 | a `.sql`, `.db` or `.sqlite` file, in any case, is a CYLINDER whatever its stem says |
| Scanner.ServiceBeforeUser | src/ascii_architect/scanner.py:82-86 | a name with both a service and a user keyword is a BOX |
| Scanner.UserIsSoftBox | src/ascii_architect/scanner.py:85-86 | a user keyword without a service keyword gives SOFTBOX |
| Narrator.DescribeItem | src/ascii_architect/narrator.py:54-68 | one item's pass gives the lines of `Describe`: none without `->`, `ValueError` for more than two pieces, else the sentence for its kind |
| Narrator.ExplainLocal | src/ascii_architect/narrator.py:14-79 | the report loop gives `Explain(text)` |
| Narrator.SplitArrowPieces | src/ascii_architect/narrator.py:55 | an item with `->` unpacks into two pieces exactly when no second `->` follows |
| Narrator.DescribeCases | src/ascii_architect/narrator.py:53-68 | no `->` gives no line; two or more raise; exactly one gives one line |
| Narrator.DescribesOutcome | src/ascii_architect/narrator.py:53-68 | the loop raises exactly when some item has two arrows, and otherwise yields one line per item with an arrow |
| Narrator.ExplainBlank | src/ascii_architect/narrator.py:14-15 | blank input gives the fixed "no diagram" message |
| Narrator.ExplainItems | src/ascii_architect/narrator.py:38 | other input is reported item by item over `split(" ; ")` |
| Narrator.ReportOfCases | src/ascii_architect/narrator.py:38-79 | the report raises exactly when an item has two arrows; otherwise its body has one line per item with an arrow and its three counts are the item count |
| Narrator.ReportFrame | src/ascii_architect/narrator.py:41-77 | the report opens with the six header lines and ends with the rule line |

## Left out

- **External calls.** GPT-2 inference, model-path discovery, environment variables, `os.path.exists`, torch and transformers are left out. They are foreign libraries and filesystem access. Only `_clean_v18` of the three engines is modelled, as a pure function of the raw text and the prompt.
- **The Router's neural branch** in src/ascii_architect/router.py. Its `generate` call has the wrong arity and always falls back, so only the template path is modelled.
- **`print` output.** `Router.process` returns `paper.render()` instead of printing it. The prints in `draw_flow` are dropped.
- **The command-line front ends.** These are src/cli.py, src/ascii_architect/cli.py and `main()` of src/main.py, which are argument and colour handling.
- **`ProjectScanner.scan` and `_recursive_scan`.** They walk the filesystem.
- **The narrator's `use_ai` branch.** It makes an HTTP request.
- **The narrator's two counters.** `files_count` and `dirs_count` are written and never read.
- **The factories' `main()` functions.** They use random sampling and write JSONL files.
- **Case and digits.** `upper()` and the regex `\d` are modelled on ASCII only. Unicode case mapping and non-ASCII digits are not.
- **AutoRouting.AutoRouter.DrawFlow:** the engine is an arbitrary function. What a real model generates, and its `❌ Error` strings, are not modelled.
- **GridRouter.NodeInBand:** does not relate the north anchor of a diamond to its `'^'`. The generic anchor formula puts it at `w // 2`, which differs from the diamond's centre column for wide labels.
