/** A description of a contract's cases: how the conformance suite renders one, and how it is read. Rendering
    writes a title, a table of two rows, and for every case a heading and a table of eight. Reading goes line
    by line and gives back what it met, in order, judging nothing. What reading makes of a rendering is
    proved beside the renderings themselves, not here. */
module Descriptions {
  import opened Prelude
  import opened Text

  datatype Pair = Pair(name: string, value: string)

  datatype StdCase = StdCase(id: string, title: string, struck: bool, fields: seq<Pair>)

  datatype Description = Description(h1: string, rows: seq<Pair>, cases: seq<StdCase>)

  const RENDERED_LINE := "<!-- Rendered by yoke-conformance from its cases: change the cases, not this file. -->"

  // ----- Reading -----

  predicate IsBar(c: char) { c == '|' }

  predicate IsStar(c: char) { c == '*' }

  /** Reads `| **Name** | value |`. */
  function ParseRow(line: string): Option<Pair> {
    var cells := Split(Trim(TrimSpace(line), IsBar), '|');
    if |cells| != 2 then None
    else
      var name := TrimSpace(cells[0]);
      if !("**" <= name) || !HasSuffix(name, "**") then None
      else Some(Pair(Trim(name, IsStar), TrimSpace(cells[1])))
  }

  function ParseHeading(heading: string): StdCase {
    var h := TrimSpace(heading);
    var struck := "~~" <= h;
    var inner := if struck then Cut(h[2..], "~~").0 else h;
    var (id, title, found) := Cut(inner, " — ");
    StdCase(TrimSpace(id), if found then TrimSpace(title) else "", struck, [])
  }

  predicate IsHeading(line: string) {
    "## " <= line || "# " <= line
  }

  /** How many lines follow before the next heading. */
  function TableLength(lines: seq<string>): (n: nat)
    ensures n <= |lines|
  {
    if lines == [] || IsHeading(TrimSpace(lines[0])) then 0 else 1 + TableLength(lines[1..])
  }

  function RowOf(line: string): seq<Pair> {
    if "|" <= line && ParseRow(line).Some? then [ParseRow(line).value] else []
  }

  function TableRows(lines: seq<string>): seq<Pair> {
    if lines == [] || IsHeading(TrimSpace(lines[0])) then []
    else RowOf(TrimSpace(lines[0])) + TableRows(lines[1..])
  }

  const NOTHING := Description("", [], [])

  /** What is read of the lines that are left, after `d` was read of those before. */
  function ParseLines(lines: seq<string>, d: Description): Description
    decreases |lines|
  {
    if lines == [] then d
    else
      var line, rest := TrimSpace(lines[0]), lines[1..];
      if "# " <= line then ParseLines(rest, if d.h1 == "" then d.(h1 := TrimSpace(line[2..])) else d)
      else if "## " <= line then
        var c := ParseHeading(line[3..]).(fields := TableRows(rest));
        ParseLines(rest[TableLength(rest)..], d.(cases := d.cases + [c]))
      else if d.cases == [] then ParseLines(rest, d.(rows := d.rows + RowOf(line)))
      else ParseLines(rest, d)
  }

  method ParseTable(lines: seq<string>, from: nat) returns (next: nat, fields: seq<Pair>)
    requires from <= |lines|
    ensures next == from + TableLength(lines[from..]) && fields == TableRows(lines[from..])
  {
    hide TrimSpace, ParseRow;
    fields := [];
    next := from;
    while next < |lines|
      invariant from <= next <= |lines|
      invariant next - from + TableLength(lines[next..]) == TableLength(lines[from..])
      invariant fields + TableRows(lines[next..]) == TableRows(lines[from..])
    {
      var line := TrimSpace(lines[next]);
      assert lines[next..][1..] == lines[next + 1..];
      if "## " <= line || "# " <= line {
        return;
      }
      ghost var tail := TableRows(lines[next + 1..]);
      assert fields + (RowOf(line) + tail) == (fields + RowOf(line)) + tail && fields + [] == fields;
      if "|" <= line {
        var row := ParseRow(line);
        if row.Some? {
          fields := fields + [row.value];
        }
      }
      next := next + 1;
    }
  }

  /** Whatever the text, something is read of it. */
  method ParseDescription(content: string) returns (d: Description, rendered: bool)
    ensures d == ParseLines(Split(content, '\n'), NOTHING)
    ensures rendered <==> RENDERED_LINE + "\n" <= content
  {
    hide TrimSpace, ParseRow, ParseHeading, Split;
    rendered := RENDERED_LINE + "\n" <= content;
    d := NOTHING;
    var lines := Split(content, '\n');
    var i := 0;
    assert lines[0..] == lines;
    while i < |lines|
      invariant i <= |lines|
      invariant ParseLines(lines[i..], d) == ParseLines(lines, NOTHING)
    {
      var line := TrimSpace(lines[i]);
      assert lines[i..][1..] == lines[i + 1..];
      if "# " <= line {
        if d.h1 == "" {
          d := d.(h1 := TrimSpace(line[2..]));
        }
        i := i + 1;
      } else if "## " <= line {
        var c := ParseHeading(line[3..]);
        var next, fields := ParseTable(lines, i + 1);
        d := d.(cases := d.cases + [c.(fields := fields)]);
        assert lines[i + 1..][TableLength(lines[i + 1..])..] == lines[next..];
        i := next;
      } else {
        assert d.rows + [] == d.rows;
        if "|" <= line && |d.cases| == 0 {
          var row := ParseRow(line);
          if row.Some? {
            d := d.(rows := d.rows + [row.value]);
          }
        }
        i := i + 1;
      }
    }
  }

  // ----- Rendering -----

  datatype Case = Case(id: string, title: string, cites: seq<string>, precondition: string, issues: string,
                       demands: string)

  datatype Contract = Contract(name: string, feature: string, item: string, cases: seq<Case>)

  function FieldsOf(k: Case): (r: seq<Pair>)
    ensures |r| == 8
  {
    [Pair("Cites", Join(k.cites, " · ")), Pair("Level", "L2"), Pair("Method", "test"), Pair("Not applicable in", "—"),
     Pair("Label", "blocking"), Pair("Precondition", k.precondition), Pair("Action", k.issues),
     Pair("Expected", k.demands)]
  }

  function Row(p: Pair): string {
    "| **" + p.name + "** | " + p.value + " |"
  }

  function Rows(ps: seq<Pair>): (r: seq<string>)
    ensures |r| == |ps| && forall i :: 0 <= i < |ps| ==> r[i] == Row(ps[i])
  {
    seq(|ps|, i requires 0 <= i < |ps| => Row(ps[i]))
  }

  function Heading(k: Case): string {
    "## " + (k.id + " — " + k.title)
  }

  function CaseHead(k: Case): seq<string> {
    ["", Heading(k), "", "| Field | Value |", "| --- | --- |"]
  }

  function CasesLines(ks: seq<Case>): seq<string> {
    if ks == [] then [] else CaseHead(ks[0]) + Rows(FieldsOf(ks[0])) + CasesLines(ks[1..])
  }

  function OpeningRows(c: Contract): (r: seq<Pair>)
    ensures |r| == 2
  {
    [Pair("Feature", c.feature), Pair("Planning item", c.item)]
  }

  function Title(c: Contract): string {
    "The " + c.name + " contract, at L2"
  }

  function Head(c: Contract): (r: seq<string>)
    ensures |r| == 5
  {
    [RENDERED_LINE, "# " + Title(c), "", "| | |", "| --- | --- |"]
  }

  function Lines(c: Contract): seq<string> {
    Head(c) + Rows(OpeningRows(c)) + CasesLines(c.cases)
  }

  lemma NextCase(lines: seq<string>, ks: seq<Case>, i: nat)
    requires i < |ks|
    ensures lines + CaseHead(ks[i]) + Rows(FieldsOf(ks[i])) + CasesLines(ks[i + 1..]) == lines + CasesLines(ks[i..])
  {
    hide CaseHead, FieldsOf, Rows;
    assert ks[i..][1..] == ks[i + 1..];
  }

  lemma NoMoreCases(ks: seq<Case>)
    ensures CasesLines(ks[|ks|..]) == []
  {
  }

  /** Writes a contract out, head first and then case by case. */
  method Render(c: Contract) returns (b: string)
    ensures b == Unlines(Lines(c))
  {
    hide Head, Rows, FieldsOf, CaseHead, OpeningRows, CasesLines, Unlines;
    b := Unlines(Head(c)) + Unlines(Rows(OpeningRows(c)));
    ghost var lines := Head(c) + Rows(OpeningRows(c));
    UnlinesAppend(Head(c), Rows(OpeningRows(c)));
    assert c.cases[0..] == c.cases;
    for i := 0 to |c.cases|
      invariant b == Unlines(lines)
      invariant lines + CasesLines(c.cases[i..]) == Lines(c)
    {
      var k := c.cases[i];
      var fields := RenderFields(k);
      b := b + Unlines(CaseHead(k)) + fields;
      UnlinesAppend(lines, CaseHead(k));
      UnlinesAppend(lines + CaseHead(k), Rows(FieldsOf(k)));
      NextCase(lines, c.cases, i);
      lines := lines + CaseHead(k) + Rows(FieldsOf(k));
    }
    NoMoreCases(c.cases);
    assert lines + [] == lines;
  }

  method RenderFields(k: Case) returns (b: string)
    ensures b == Unlines(Rows(FieldsOf(k)))
  {
    hide Row, FieldsOf;
    b := "";
    var fields := FieldsOf(k);
    for j := 0 to 8
      invariant b == Unlines(Rows(fields)[..j])
    {
      b := b + (Row(fields[j]) + "\n");
      UnlinesNext(Rows(fields)[..j], Row(fields[j]));
      assert Rows(fields)[..j + 1] == Rows(fields)[..j] + [Row(fields[j])];
    }
    assert Rows(fields)[..8] == Rows(fields);
  }

  lemma UnlinesNext(lines: seq<string>, line: string)
    ensures Unlines(lines + [line]) == Unlines(lines) + (line + "\n")
  {
    UnlinesAppend(lines, [line]);
    assert Unlines([line]) == line + "\n";
  }
}
