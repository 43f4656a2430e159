/** The local text report of `Narrator.explain` (`use_ai=False`): a fixed
    header, one sentence per `A -> B` relationship of the topology text, and a
    summary whose three counts are the number of ` ; `-separated items. */
module Narrator {
  import opened PyText

  const RULE: string := Repeat('\U{2550}', 50)
  const NO_DIAGRAM: string := "\U{274C} No hay diagrama para explicar."
  const HEADER: seq<string> := [
    RULE, "  \U{1F4D6} EXPLICACI\U{D3}N DEL GRAFO (MODO TEXTO)", RULE, "", "Relaciones detectadas:", ""]
  const ITEM_SEP: string := " ; "
  const ARROW: string := "->"
  const DIR_TAG: string := "[DIR]"

  /** Which sentence a relationship gets. */
  datatype Kind = Directory | Import | Connection

  function SentenceKind(source: string, target: string): Kind
  {
    if Contains(source, DIR_TAG) then Directory
    else if Contains(source, ".py") && Contains(target, ".py") then Import
    else Connection
  }

  function Sentence(source: string, target: string): string
  {
    match SentenceKind(source, target)
    case Directory =>
      "  \U{1F4C1} El directorio " + Strip(ReplaceAll(source, DIR_TAG, "")) + " contiene " + target
    case Import => "  \U{1F40D} " + source + " importa a " + target
    case Connection => "  \U{1F517} " + source + " conecta con " + target
  }

  /** An item with a second `->` after its first: `source, target =
      rel.split("->")` cannot unpack it. */
  predicate TwoArrows(rel: string)
  {
    Contains(rel, ARROW) && Contains(AfterFirst(rel, ARROW), ARROW)
  }

  /** The report lines of one item: none without `->`, one sentence otherwise;
      the unpacking of more than two pieces raises `ValueError`. */
  function Describe(rel: string): Outcome<seq<string>>
  {
    if !Contains(rel, ARROW) then Ok([])
    else
      var parts := SplitOn(rel, ARROW);
      if |parts| != 2 then Raised(ValueError)
      else Ok([Sentence(Strip(parts[0]), Strip(parts[1]))])
  }

  /** `lines` put in front of the lines of an outcome. */
  function Prepend(lines: seq<string>, r: Outcome<seq<string>>): Outcome<seq<string>>
  {
    match r
    case Ok(more) => Ok(lines + more)
    case Raised(e) => Raised(e)
  }

  /** The relationship lines of all items, left to right; the first item that
      raises ends the report. */
  function Describes(rels: seq<string>): Outcome<seq<string>>
    decreases |rels|
  {
    if rels == [] then Ok([])
    else
      match Describe(rels[0])
      case Raised(e) => Raised(e)
      case Ok(lines) => Prepend(lines, Describes(rels[1..]))
  }

  lemma {:induction false} PrependConcat(a: seq<string>, b: seq<string>, r: Outcome<seq<string>>)
    ensures Prepend(a, Prepend(b, r)) == Prepend(a + b, r)
    ensures Prepend([], r) == r
  {
    if r.Ok? {
      assert a + (b + r.value) == (a + b) + r.value;
      assert [] + r.value == r.value;
    }
  }

  /** The lines of the items from index `i` on. */
  function DescribesFrom(rels: seq<string>, i: nat): Outcome<seq<string>>
    requires i <= |rels|
    decreases |rels| - i
  {
    if i == |rels| then Ok([])
    else
      match Describe(rels[i])
      case Raised(e) => Raised(e)
      case Ok(lines) => Prepend(lines, DescribesFrom(rels, i + 1))
  }

  lemma {:induction false} DescribesFromSuffix(rels: seq<string>, i: nat)
    requires i <= |rels|
    ensures DescribesFrom(rels, i) == Describes(rels[i..])
    decreases |rels| - i
  {
    if i < |rels| {
      DescribesFromSuffix(rels, i + 1);
      assert rels[i..][0] == rels[i];
      assert rels[i..][1..] == rels[i + 1..];
    }
  }

  lemma {:induction false} DescribesFromStart(rels: seq<string>)
    ensures DescribesFrom(rels, 0) == Describes(rels)
  {
    DescribesFromSuffix(rels, 0);
    assert rels[0..] == rels;
  }

  function Footer(items: nat): seq<string>
  {
    ["", "Resumen:",
     "  \U{1F4E6} Nodos totales: " + Decimal(items),
     "  \U{1F517} Conexiones: " + Decimal(items),
     "  \U{1F4CA} Filas de layout: " + Decimal(items),
     "", RULE]
  }

  /** The report joined into one string. */
  function Report(body: seq<string>, items: nat): string
  {
    JoinLines(HEADER + body + Footer(items))
  }

  /** The report for the ` ; `-separated items `rels`. */
  function ReportOf(rels: seq<string>): Outcome<string>
  {
    match Describes(rels)
    case Raised(e) => Raised(e)
    case Ok(body) => Ok(Report(body, |rels|))
  }

  /** `explain(topology_text, use_ai=False)`. */
  function Explain(text: string): Outcome<string>
  {
    if Strip(text) == [] then Ok(NO_DIAGRAM) else ReportOf(SplitOn(text, ITEM_SEP))
  }

  /** The body of the report loop for one item: nothing without `->`, the
      unpacking of the two sides, and the sentence their kind calls for. */
  method DescribeItem(rel: string) returns (r: Outcome<seq<string>>)
    ensures r == Describe(rel)
  {
    if !Contains(rel, ARROW) {
      return Ok([]);
    }
    var parts := SplitOn(rel, ARROW);
    if |parts| != 2 {
      return Raised(ValueError);
    }
    var source := Strip(parts[0]);
    var target := Strip(parts[1]);
    var line;
    if Contains(source, DIR_TAG) {
      var cleanSource := Strip(ReplaceAll(source, DIR_TAG, ""));
      line := "  \U{1F4C1} El directorio " + cleanSource + " contiene " + target;
    } else if Contains(source, ".py") && Contains(target, ".py") {
      line := "  \U{1F40D} " + source + " importa a " + target;
    } else {
      line := "  \U{1F517} " + source + " conecta con " + target;
    }
    return Ok([line]);
  }

  /** `explain` as the source runs it: the report list, opened by the header,
      grows item by item and is closed by the summary. */
  method ExplainLocal(text: string) returns (r: Outcome<string>)
    ensures r == Explain(text)
  {
    if Strip(text) == [] {
      return Ok(NO_DIAGRAM);
    }
    var relationships := SplitOn(text, ITEM_SEP);
    var report := HEADER;
    ghost var lines: seq<string> := [];
    PrependConcat([], [], DescribesFrom(relationships, 0));
    var i := 0;
    while i < |relationships|
      invariant 0 <= i <= |relationships|
      invariant report == HEADER + lines
      invariant DescribesFrom(relationships, 0) == Prepend(lines, DescribesFrom(relationships, i))
    {
      var item := DescribeItem(relationships[i]);
      if item.Raised? {
        DescribesFromStart(relationships);
        return Raised(item.error);
      }
      PrependConcat(lines, item.value, DescribesFrom(relationships, i + 1));
      AppendAssoc(HEADER, lines, item.value);
      report := report + item.value;
      lines := lines + item.value;
      i := i + 1;
    }
    assert lines + [] == lines;
    DescribesFromStart(relationships);
    return Ok(JoinLines(report + Footer(|relationships|)));
  }

  // ---------------------------------------------------------------------------
  // Properties.

  /** An item whose text holds `->` splits into exactly two pieces precisely
      when no second `->` follows the first. */
  lemma {:induction false} SplitArrowPieces(rel: string)
    requires Contains(rel, ARROW)
    ensures |SplitOn(rel, ARROW)| == 2 <==> !TwoArrows(rel)
  {
    var a := SplitOn(rel, ARROW)[0];
    SplitFirstShape(rel, ARROW);
    assert a != rel;
    var b := rel[|a| + 2..];
    assert rel == a + ARROW + b;
    SplitOnAppend(a, ARROW, b);
    AfterFirstAppend(a, ARROW, b);
    if Contains(b, ARROW) {
      SplitOnContains(b, ARROW);
    } else {
      SplitOnFree(b, ARROW);
    }
  }

  /** One item gives no line without an arrow, one line with one arrow, and
      raises `ValueError` with two or more. */
  lemma {:induction false} DescribeCases(rel: string)
    ensures !Contains(rel, ARROW) ==> Describe(rel) == Ok([])
    ensures Describe(rel).Raised? <==> TwoArrows(rel)
    ensures Contains(rel, ARROW) && !TwoArrows(rel) ==> Describe(rel).Ok? && |Describe(rel).value| == 1
  {
    if Contains(rel, ARROW) {
      SplitArrowPieces(rel);
    }
  }

  /** The number of items holding `->`. */
  function ArrowItems(rels: seq<string>): nat
    decreases |rels|
  {
    if rels == [] then 0 else (if Contains(rels[0], ARROW) then 1 else 0) + ArrowItems(rels[1..])
  }

  /** The relationship lines raise exactly when some item has two arrows, and
      otherwise hold one line per item with an arrow. */
  lemma {:induction false} DescribesOutcome(rels: seq<string>)
    ensures Describes(rels).Raised? <==> exists i :: 0 <= i < |rels| && TwoArrows(rels[i])
    ensures Describes(rels).Ok? ==> |Describes(rels).value| == ArrowItems(rels)
    decreases |rels|
  {
    if rels != [] {
      DescribeCases(rels[0]);
      DescribesOutcome(rels[1..]);
      if exists i :: 0 <= i < |rels| && TwoArrows(rels[i]) {
        var i :| 0 <= i < |rels| && TwoArrows(rels[i]);
        if i > 0 {
          assert rels[1..][i - 1] == rels[i];
        }
      }
      if exists i :: 0 <= i < |rels[1..]| && TwoArrows(rels[1..][i]) {
        var i :| 0 <= i < |rels[1..]| && TwoArrows(rels[1..][i]);
        assert rels[i + 1] == rels[1..][i];
      }
    }
  }

  /** A blank topology gets the fixed message. */
  lemma {:induction false} ExplainBlank(text: string)
    requires Strip(text) == []
    ensures Explain(text) == Ok(NO_DIAGRAM)
  {
  }

  /** The report raises exactly when one of the items has two arrows;
      otherwise it is the header, one line per item with an arrow, and the
      summary whose three counts are all the number of items. */
  lemma {:induction false} ReportOfCases(rels: seq<string>)
    ensures ReportOf(rels).Raised? <==> exists i :: 0 <= i < |rels| && TwoArrows(rels[i])
    ensures ReportOf(rels).Ok? ==>
      Describes(rels).Ok? && |Describes(rels).value| == ArrowItems(rels) &&
      ReportOf(rels).value == Report(Describes(rels).value, |rels|)
  {
    DescribesOutcome(rels);
  }

  /** Any other text is reported item by item, its items being the pieces of
      `split(" ; ")`. */
  lemma {:induction false} ExplainItems(text: string)
    requires Strip(text) != []
    ensures Explain(text) == ReportOf(SplitOn(text, ITEM_SEP))
  {
  }

  /** The report itself opens with the six header lines and closes with the
      rule line. */
  lemma {:induction false} ReportFrame(body: seq<string>, items: nat)
    ensures JoinLines(HEADER) + "\n" <= Report(body, items)
    ensures var v := Report(body, items); |v| >= |RULE| + 1 && v[|v| - |RULE| - 1..] == "\n" + RULE
  {
    var footer := Footer(items);
    var rest := body + footer;
    var init := body + footer[..6];
    assert HEADER + body + footer == HEADER + rest;
    JoinAppend("\n", HEADER, rest);
    assert rest == init + [RULE];
    JoinAppend("\n", init, [RULE]);
    assert Report(body, items) == JoinLines(HEADER) + "\n" + (JoinLines(init) + "\n" + RULE);
  }
}
