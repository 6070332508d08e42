/** A rendering is read back as what was rendered. */
module Renderings {
  import opened Prelude
  import opened Text
  import opened Descriptions

  /** Trimmed, non-empty, of one line and free of bars. */
  ghost predicate FieldText(s: string) {
    s != "" && Trimmed(s, IsSpace) && '|' !in s && '\n' !in s
  }

  ghost predicate TitleText(s: string) {
    s != "" && Trimmed(s, IsSpace) && '\n' !in s
  }

  /** What may stand before the dash of a heading: the dash after it is the first there is, and nothing reads
      as a striking out. */
  ghost predicate IdText(s: string) {
    s != "" && Trimmed(s, IsSpace) && '\n' !in s && !("~~" <= s) && Find(s + " — ", " — ") == Some(|s|)
  }

  /** What is rendered of a case beside its identifier. */
  ghost predicate CleanFields(k: Case) {
    && TitleText(k.title) && FieldText(Join(k.cites, " · "))
    && FieldText(k.precondition) && FieldText(k.issues) && FieldText(k.demands)
  }

  /** A case whose identifier is of one line, whatever else it is. */
  ghost predicate CleanCase(k: Case) {
    '\n' !in k.id && CleanFields(k)
  }

  ghost predicate CleanHead(c: Contract) {
    '\n' !in c.name && FieldText(c.feature) && FieldText(c.item)
  }

  ghost predicate Clean(c: Contract) {
    CleanHead(c) && forall i :: 0 <= i < |c.cases| ==> CleanCase(c.cases[i])
  }

  ghost predicate CleanButIdentifiers(c: Contract) {
    CleanHead(c) && forall i :: 0 <= i < |c.cases| ==> CleanFields(c.cases[i])
  }

  ghost predicate IdsAreText(c: Contract) {
    forall i :: 0 <= i < |c.cases| ==> IdText(c.cases[i].id)
  }

  // ----- One row -----

  ghost predicate NameText(s: string) {
    s != "" && Trimmed(s, IsSpace) && Trimmed(s, IsStar) && '|' !in s && '\n' !in s
  }

  ghost predicate RowText(p: Pair) {
    NameText(p.name) && FieldText(p.value)
  }

  lemma TrimWhole(s: string, off: char -> bool)
    requires Trimmed(s, off)
    ensures Trim(s, off) == s
  {
    if s != "" {
      TrimPadded("", s, "", off);
      assert "" + s + "" == s;
    }
  }

  function Inner(p: Pair): string { (" **" + p.name + "** ") + "|" + (" " + p.value + " ") }

  lemma RowIsBarred(p: Pair)
    ensures Row(p) == "|" + Inner(p) + "|"
  {
    var n, v := p.name, p.value;
    assert Row(p) == "| **" + n + "** | " + v + " |";
    assert "| **" == "|" + " **" && "** | " == "** " + "|" + " " && " |" == " " + "|";
    assert "|" + Inner(p) + "|" == ("|" + " **") + n + ("** " + "|" + " ") + v + (" " + "|");
  }

  lemma RowIsOneLine(p: Pair)
    requires RowText(p)
    ensures TrimSpace(Row(p)) == Row(p) && "|" <= Row(p) && !IsHeading(Row(p)) && '\n' !in Row(p)
  {
    var r := Row(p);
    assert r[0] == '|' && r[|r| - 1] == '|';
    TrimWhole(r, IsSpace);
  }

  lemma RowCells(p: Pair)
    requires RowText(p)
    ensures Split(Trim(Row(p), IsBar), '|') == [" **" + p.name + "** ", " " + p.value + " "]
  {
    hide Split, Trim, Row;
    var left, right := " **" + p.name + "** ", " " + p.value + " ";
    RowIsBarred(p);
    assert Inner(p)[0] == ' ' && Inner(p)[|Inner(p)| - 1] == ' ';
    TrimPadded("|", Inner(p), "|", IsBar);
    assert Inner(p) == left + ['|'] + right;
    SplitFirst(left, '|', right);
    SplitWhole(right, '|');
  }

  lemma CellsTrim(p: Pair)
    requires RowText(p)
    ensures TrimSpace(" **" + p.name + "** ") == "**" + p.name + "**"
    ensures TrimSpace(" " + p.value + " ") == p.value
    ensures Trim("**" + p.name + "**", IsStar) == p.name
  {
    hide Trim;
    var starred := "**" + p.name + "**";
    assert " **" + p.name + "** " == " " + starred + " ";
    TrimPadded(" ", starred, " ", IsSpace);
    TrimPadded(" ", p.value, " ", IsSpace);
    TrimPadded("**", p.name, "**", IsStar);
  }

  /** A row is read back as its name and its value. */
  lemma RowReads(p: Pair)
    requires RowText(p)
    ensures ParseRow(Row(p)) == Some(p)
  {
    hide Split, Trim, TrimSpace, Row, RowText;
    RowIsOneLine(p);
    RowCells(p);
    CellsTrim(p);
    var starred := "**" + p.name + "**";
    assert "**" <= starred && starred[|starred| - 2..] == "**";
  }

  // ----- A heading -----

  lemma CutAtDash(id: string, title: string)
    requires IdText(id)
    ensures Cut(id + " — " + title, " — ") == (id, title, true)
  {
    hide Find, Trimmed;
    var s := id + " — " + title;
    FindExtends(id + " — ", " — ", title);
    assert |" — "| == 3;
    assert s[..|id|] == id && s[|id| + 3..] == title;
  }

  lemma HeadingLine(k: Case)
    requires CleanCase(k)
    ensures TrimSpace(Heading(k)) == Heading(k) && '\n' !in Heading(k)
    ensures "## " <= Heading(k) && !("# " <= Heading(k))
    ensures Heading(k)[3..] == k.id + " — " + k.title
  {
    var h := Heading(k);
    assert h[0] == '#' && h[1] == '#' && h[|h| - 1] == k.title[|k.title| - 1];
    TrimWhole(h, IsSpace);
  }

  lemma HeadingReads(k: Case)
    requires CleanCase(k) && IdText(k.id)
    ensures ParseHeading(Heading(k)[3..]) == StdCase(k.id, k.title, false, [])
  {
    hide Find, Cut, Trim;
    HeadingLine(k);
    var h := k.id + " — " + k.title;
    assert h[0] == k.id[0] && h[|h| - 1] == k.title[|k.title| - 1];
    TrimWhole(h, IsSpace);
    TrimWhole(k.id, IsSpace);
    TrimWhole(k.title, IsSpace);
    NotStruck(k);
    CutAtDash(k.id, k.title);
  }

  lemma HeadingIsTrimmed(heading: string)
    ensures Trimmed(ParseHeading(heading).id, IsSpace)
  {
    hide Find, Trim;
    var h := TrimSpace(heading);
    TrimEnds(Cut(if "~~" <= h then Cut(h[2..], "~~").0 else h, " — ").0, IsSpace);
  }

  /** What a heading that is not struck, and has a dash, reads as its identifier. */
  lemma HeadingShape(heading: string)
    requires !ParseHeading(heading).struck && Find(TrimSpace(heading), " — ").Some?
    ensures var h, id := TrimSpace(heading), ParseHeading(heading).id;
            && id != "" && Trimmed(id, IsSpace) && id <= h && !("~~" <= h) && |id| <= Find(h, " — ").value
  {
    hide Find, Trim;
    var h := TrimSpace(heading);
    var f := Find(h, " — ").value;
    TrimEnds(heading, IsSpace);
    assert h[f] == h[f..f + 3][0] == ' ';
    TrimEnds(h[..f], IsSpace);
  }

  lemma TitledHasADash(heading: string)
    requires !ParseHeading(heading).struck && ParseHeading(heading).title != ""
    ensures Find(TrimSpace(heading), " — ").Some?
  {
    hide Find, Trim;
  }

  /** A heading gives the case back exactly where its identifier is one that a dash may follow. */
  lemma HeadingReadsExactlyWhen(k: Case)
    requires CleanCase(k)
    ensures ParseHeading(Heading(k)[3..]) == StdCase(k.id, k.title, false, []) <==> IdText(k.id)
  {
    hide Find, ParseHeading, TrimSpace;
    HeadingLine(k);
    if IdText(k.id) {
      HeadingReads(k);
    } else if ParseHeading(Heading(k)[3..]) == StdCase(k.id, k.title, false, []) {
      TitledHasADash(Heading(k)[3..]);
      HeadingShape(Heading(k)[3..]);
      KeptIsText(k);
      assert false;
    }
  }

  /** Where the first dash comes no earlier than the identifier ends, nothing else can be wrong with it. */
  lemma KeptIsText(k: Case)
    requires CleanCase(k) && k.id != "" && Trimmed(k.id, IsSpace)
    requires var h := TrimSpace(k.id + " — " + k.title);
             !("~~" <= h) && Find(h, " — ").Some? && |k.id| <= Find(h, " — ").value
    ensures IdText(k.id)
  {
    hide Find, Trim;
    var h := k.id + " — " + k.title;
    assert h[0] == k.id[0] && h[|h| - 1] == k.title[|k.title| - 1];
    TrimWhole(h, IsSpace);
    FindThere(k.id, " — ");
    FindExtends(k.id + " — ", " — ", k.title);
    assert "~~" <= k.id ==> "~~" <= h;
  }

  lemma NotStruck(k: Case)
    requires IdText(k.id)
    ensures !("~~" <= k.id + " — " + k.title)
  {
    var h := k.id + " — " + k.title;
    if |k.id| >= 2 {
      assert h[..2] == k.id[..2];
      assert "~~" == ['~', '~'];
    } else {
      assert h[1] == ' ';
    }
  }

  // ----- Lines that are neither heading -----

  ghost predicate Plain(line: string) {
    TrimSpace(line) == line && !IsHeading(line)
  }

  ghost function RowsIn(lines: seq<string>): seq<Pair> {
    if lines == [] then [] else RowOf(lines[0]) + RowsIn(lines[1..])
  }

  lemma {:induction false} RowsInRows(ps: seq<Pair>)
    requires forall i :: 0 <= i < |ps| ==> RowText(ps[i])
    ensures RowsIn(Rows(ps)) == ps
    ensures forall i :: 0 <= i < |ps| ==> Plain(Rows(ps)[i])
  {
    hide Row, RowText, ParseRow, TrimSpace;
    if ps != [] {
      RowsInRows(ps[1..]);
      assert Rows(ps)[1..] == Rows(ps[1..]);
      RowIsOneLine(ps[0]);
      RowReads(ps[0]);
      assert ps == [ps[0]] + ps[1..];
    }
  }

  lemma {:induction false} RowsInBoth(a: seq<string>, b: seq<string>)
    ensures RowsIn(a + b) == RowsIn(a) + RowsIn(b)
  {
    hide RowOf;
    if a == [] {
      assert a + b == b;
    } else {
      assert (a + b)[1..] == a[1..] + b;
      RowsInBoth(a[1..], b);
    }
  }

  lemma {:induction false} TableOver(lines: seq<string>, rest: seq<string>)
    requires forall i :: 0 <= i < |lines| ==> Plain(lines[i])
    ensures TableRows(lines + rest) == RowsIn(lines) + TableRows(rest)
    ensures TableLength(lines + rest) == |lines| + TableLength(rest)
  {
    hide RowOf, TrimSpace;
    if lines == [] {
      assert lines + rest == rest;
    } else {
      assert (lines + rest)[1..] == lines[1..] + rest;
      TableOver(lines[1..], rest);
    }
  }

  lemma {:induction false} ParseOver(lines: seq<string>, rest: seq<string>, d: Description)
    requires forall i :: 0 <= i < |lines| ==> Plain(lines[i])
    ensures ParseLines(lines + rest, d)
            == ParseLines(rest, if d.cases == [] then d.(rows := d.rows + RowsIn(lines)) else d)
    decreases |lines|
  {
    hide RowOf, TrimSpace, ParseHeading;
    if lines == [] {
      assert lines + rest == rest && d.rows + [] == d.rows;
    } else {
      assert (lines + rest)[1..] == lines[1..] + rest;
      var next := if d.cases == [] then d.(rows := d.rows + RowOf(lines[0])) else d;
      ParseOver(lines[1..], rest, next);
      assert d.rows + RowOf(lines[0]) + RowsIn(lines[1..]) == d.rows + RowsIn(lines);
    }
  }

  // ----- The lines that carry nothing -----

  lemma BlankIsPlain()
    ensures Plain("") && RowOf("") == []
  {
  }

  lemma BarsArePlain()
    ensures Plain("| | |") && RowOf("| | |") == []
  {
    hide Plain, RowOf;
    Unnamed(" ", " ");
    assert "| | |" == "|" + " " + "|" + " " + "|";
  }

  lemma RuleIsPlain()
    ensures Plain("| --- | --- |") && RowOf("| --- | --- |") == []
  {
    hide Plain, RowOf;
    Unnamed(" --- ", " --- ");
    assert "| --- | --- |" == "|" + " --- " + "|" + " --- " + "|";
  }

  lemma FieldHeadIsPlain()
    ensures Plain("| Field | Value |") && RowOf("| Field | Value |") == []
  {
    hide Plain, RowOf;
    Unnamed(" Field ", " Value ");
    assert "| Field | Value |" == "|" + " Field " + "|" + " Value " + "|";
  }

  lemma Unnamed(a: string, b: string)
    requires '|' !in a && '|' !in b && '*' !in a && '*' !in b && a != "" && b != ""
    ensures var line := "|" + a + "|" + b + "|"; Plain(line) && RowOf(line) == []
  {
    hide Trim, Split;
    var line, inner := "|" + a + "|" + b + "|", a + ['|'] + b;
    TrimWhole(line, IsSpace);
    assert line == "|" + inner + "|" && inner[0] == a[0] && inner[|inner| - 1] == b[|b| - 1];
    TrimPadded("|", inner, "|", IsBar);
    SplitFirst(a, '|', b);
    SplitWhole(b, '|');
    TrimHasNo(a, '*', IsSpace);
    assert '*' in "**";
  }

  lemma {:induction false} TrimHasNo(s: string, c: char, off: char -> bool)
    requires c !in s
    ensures c !in Trim(s, off)
  {
    TrimLeftHasNo(s, c, off);
    TrimRightHasNo(TrimLeft(s, off), c, off);
  }

  lemma {:induction false} TrimLeftHasNo(s: string, c: char, off: char -> bool)
    requires c !in s
    ensures c !in TrimLeft(s, off)
  {
    if s != "" && off(s[0]) { TrimLeftHasNo(s[1..], c, off); }
  }

  lemma {:induction false} TrimRightHasNo(s: string, c: char, off: char -> bool)
    requires c !in s
    ensures c !in TrimRight(s, off)
  {
    if s != "" && off(s[|s| - 1]) { TrimRightHasNo(s[..|s| - 1], c, off); }
  }

  // ----- The whole rendering -----

  lemma FirstNamesAreText()
    ensures NameText("Cites") && NameText("Level") && NameText("Method") && NameText("Label")
  {
  }

  lemma LaterNamesAreText()
    ensures NameText("Precondition") && NameText("Action") && NameText("Expected")
  {
  }

  lemma LongNamesAreText()
    ensures NameText("Not applicable in") && NameText("Feature") && NameText("Planning item")
  {
  }

  lemma FixedValuesAreText()
    ensures FieldText("L2") && FieldText("test") && FieldText("—") && FieldText("blocking")
  {
  }

  lemma FieldsAreRows(k: Case)
    requires CleanCase(k)
    ensures forall i :: 0 <= i < 8 ==> RowText(FieldsOf(k)[i])
  {
    hide NameText, FieldText, Join;
    FirstNamesAreText();
    LaterNamesAreText();
    LongNamesAreText();
    FixedValuesAreText();
    var f := FieldsOf(k);
    assert RowText(f[0]) && RowText(f[1]) && RowText(f[2]) && RowText(f[3]);
    assert RowText(f[4]) && RowText(f[5]) && RowText(f[6]) && RowText(f[7]);
  }

  lemma OpeningIsRows(c: Contract)
    requires Clean(c)
    ensures forall i :: 0 <= i < 2 ==> RowText(OpeningRows(c)[i])
  {
    hide NameText, FieldText;
    LongNamesAreText();
    var f := OpeningRows(c);
    assert RowText(f[0]) && RowText(f[1]);
  }

  /** What a case reads as: its heading, whatever that makes of its identifier, and its eight fields. */
  ghost function ReadCase(k: Case): StdCase {
    ParseHeading(Heading(k)[3..]).(fields := FieldsOf(k))
  }

  /** The case itself. */
  ghost function StatedCase(k: Case): StdCase {
    StdCase(k.id, k.title, false, FieldsOf(k))
  }

  ghost function StatedCases(ks: seq<Case>): (r: seq<StdCase>)
    ensures |r| == |ks| && forall i :: 0 <= i < |ks| ==> r[i] == StatedCase(ks[i])
  {
    seq(|ks|, i requires 0 <= i < |ks| => StatedCase(ks[i]))
  }

  ghost function ReadCases(ks: seq<Case>): (r: seq<StdCase>)
    ensures |r| == |ks| && forall i :: 0 <= i < |ks| ==> r[i] == ReadCase(ks[i])
  {
    seq(|ks|, i requires 0 <= i < |ks| => ReadCase(ks[i]))
  }

  /** A blank line ends every table: what follows a case opens with one. */
  lemma TailBlank(ks: seq<Case>)
    requires forall i :: 0 <= i < |ks| ==> CleanCase(ks[i])
    ensures var rest := CasesLines(ks) + [""];
            rest[0] == "" && TableRows(rest) == [] && TableLength(rest) == 1
  {
    hide CleanCase, Heading, FieldsOf, TableRows, TableLength, CasesLines;
    if ks == [] {
      BlankEnds([]);
      NoLines();
    } else {
      HeadingLine(ks[0]);
      BlankEnds([Heading(ks[0])] + (Table(ks[0]) + (CasesLines(ks[1..]) + [""])));
      CaseFirst(ks);
    }
  }

  lemma NoLines()
    ensures CasesLines([]) + [""] == [""] + []
  {
  }

  lemma BlankEnds(after: seq<string>)
    requires after == [] || IsHeading(TrimSpace(after[0]))
    ensures TableRows([""] + after) == [] && TableLength([""] + after) == 1
  {
    BlankIsPlain();
    assert ([""] + after)[1..] == after;
  }

  lemma CaseStep(k: Case, table: seq<string>, d: Description)
    requires CleanCase(k)
    ensures ParseLines([Heading(k)] + table, d)
            == ParseLines(table[TableLength(table)..],
                          d.(cases := d.cases + [ParseHeading(Heading(k)[3..]).(fields := TableRows(table))]))
  {
    hide RowOf, TrimSpace, CleanCase, Heading, ParseHeading, TableRows, TableLength;
    HeadingLine(k);
    assert ([Heading(k)] + table)[1..] == table;
  }

  function Table(k: Case): seq<string> {
    ["", "| Field | Value |", "| --- | --- |"] + Rows(FieldsOf(k))
  }

  lemma TableReads(k: Case)
    requires CleanCase(k)
    ensures RowsIn(Table(k)) == FieldsOf(k)
    ensures forall i :: 0 <= i < |Table(k)| ==> Plain(Table(k)[i])
  {
    hide RowOf, Plain, FieldsOf, CleanCase, RowsIn, RowText;
    FieldsAreRows(k);
    RowsInRows(FieldsOf(k));
    HeadIsPlain();
    RowsInBoth(["", "| Field | Value |", "| --- | --- |"], Rows(FieldsOf(k)));
    assert [] + FieldsOf(k) == FieldsOf(k);
  }

  lemma HeadIsPlain()
    ensures var head := ["", "| Field | Value |", "| --- | --- |"];
            RowsIn(head) == [] && forall i :: 0 <= i < |head| ==> Plain(head[i])
  {
    hide RowOf, Plain;
    BlankIsPlain();
    FieldHeadIsPlain();
    RuleIsPlain();
    var head := ["", "| Field | Value |", "| --- | --- |"];
    assert head[1..] == ["| Field | Value |", "| --- | --- |"] && head[1..][1..] == ["| --- | --- |"]
           && head[1..][1..][1..] == [];
    assert RowsIn(head[1..][1..][1..]) == [];
    assert RowsIn(head[1..][1..]) == [];
    assert RowsIn(head[1..]) == [];
  }

  lemma CaseReads(k: Case, ks: seq<Case>, d: Description)
    requires CleanCase(k) && forall i :: 0 <= i < |ks| ==> CleanCase(ks[i])
    ensures var rest := CasesLines(ks) + [""];
            ParseLines([Heading(k)] + (Table(k) + rest), d) == ParseLines(rest, d.(cases := d.cases + [ReadCase(k)]))
  {
    hide CleanCase, Heading, Plain, FieldsOf, CasesLines, ParseLines, TableRows, TableLength, RowsIn, Table,
      ParseHeading;
    HeadingLine(k);
    var rest := CasesLines(ks) + [""];
    CaseStep(k, Table(k) + rest, d);
    TableReads(k);
    TableOver(Table(k), rest);
    TailBlank(ks);
    assert (Table(k) + rest)[|Table(k)| + 1..] == rest[1..] && rest == [""] + rest[1..];
    assert FieldsOf(k) + [] == FieldsOf(k);
    BlankThen(rest[1..], d.(cases := d.cases + [ReadCase(k)]));
  }

  lemma CaseFirst(ks: seq<Case>)
    requires ks != []
    ensures CasesLines(ks) + [""] == [""] + ([Heading(ks[0])] + (Table(ks[0]) + (CasesLines(ks[1..]) + [""])))
  {
    hide Heading, FieldsOf;
  }

  lemma {:induction false} CasesRead(ks: seq<Case>, d: Description)
    requires forall i :: 0 <= i < |ks| ==> CleanCase(ks[i])
    ensures ParseLines(CasesLines(ks) + [""], d) == d.(cases := d.cases + ReadCases(ks))
    decreases |ks|
  {
    hide CleanCase, FieldsOf, Heading, ParseLines, CasesLines, Table, ReadCase, ParseHeading;
    if ks == [] {
      NoCases(d);
      assert d.cases + ReadCases(ks) == d.cases;
    } else {
      var k := ks[0];
      var rest := CasesLines(ks[1..]) + [""];
      var next := d.(cases := d.cases + [ReadCase(k)]);
      CaseFirst(ks);
      BlankThen([Heading(k)] + (Table(k) + rest), d);
      CaseReads(k, ks[1..], d);
      CasesRead(ks[1..], next);
      assert next.cases + ReadCases(ks[1..]) == d.cases + ReadCases(ks);
    }
  }

  lemma NoCases(d: Description)
    ensures ParseLines(CasesLines([]) + [""], d) == d
  {
    LastLine(d);
    NoLines();
    assert [""] + [] == [""];
  }

  lemma LastLine(d: Description)
    ensures ParseLines([""], d) == d
  {
    BlankIsPlain();
    assert [""][1..] == [] && d.rows + [] == d.rows;
  }

  lemma BlankThen(after: seq<string>, d: Description)
    ensures ParseLines([""] + after, d) == ParseLines(after, d)
  {
    hide Plain, RowOf;
    BlankIsPlain();
    ParseOver([""], after, d);
    assert [""][1..] == [];
    assert d.rows + RowsIn([""]) == d.rows;
  }

  // ----- Parsing a rendering -----

  lemma {:induction false} RowsAreLines(ps: seq<Pair>)
    requires forall i :: 0 <= i < |ps| ==> RowText(ps[i])
    ensures forall i :: 0 <= i < |ps| ==> '\n' !in Rows(ps)[i]
  {
    hide Row, RowText;
    forall i | 0 <= i < |ps|
      ensures '\n' !in Rows(ps)[i]
    {
      RowIsOneLine(ps[i]);
    }
  }

  lemma {:induction false} CasesAreLines(ks: seq<Case>)
    requires forall i :: 0 <= i < |ks| ==> CleanCase(ks[i])
    ensures forall i :: 0 <= i < |CasesLines(ks)| ==> '\n' !in CasesLines(ks)[i]
  {
    hide Row, RowText, FieldsOf, Heading, CleanCase;
    if ks != [] {
      CasesAreLines(ks[1..]);
      HeadingLine(ks[0]);
      FieldsAreRows(ks[0]);
      RowsAreLines(FieldsOf(ks[0]));
      assert forall i :: 0 <= i < 5 ==> '\n' !in CaseHead(ks[0])[i];
    }
  }

  lemma HeadAreLines(c: Contract)
    requires '\n' !in c.name
    ensures forall i :: 0 <= i < 5 ==> '\n' !in Head(c)[i]
  {
    hide RENDERED_LINE;
    RenderedLineIsALine();
    assert '\n' !in "The " && '\n' !in " contract, at L2" && '\n' !in "# ";
    var h := Head(c);
    assert '\n' !in h[0] && '\n' !in h[1] && '\n' !in h[2] && '\n' !in h[3] && '\n' !in h[4];
  }

  lemma RenderingSplits(c: Contract)
    requires Clean(c)
    ensures Split(Unlines(Lines(c)), '\n') == Lines(c) + [""]
  {
    hide Head, CleanCase, OpeningRows, RowText, CasesLines, Split, Unlines;
    HeadAreLines(c);
    OpeningIsRows(c);
    RowsAreLines(OpeningRows(c));
    CasesAreLines(c.cases);
    assert forall i :: 0 <= i < |Lines(c)| ==> '\n' !in Lines(c)[i];
    UnlinesSplit(Lines(c));
  }

  lemma TitleReads(c: Contract, rest: seq<string>)
    ensures ParseLines(["# " + Title(c)] + rest, NOTHING) == ParseLines(rest, NOTHING.(h1 := Title(c)))
  {
    hide RowOf, ParseHeading;
    var t := Title(c);
    var line := "# " + t;
    assert t[0] == 'T' && t[|t| - 1] == '2' && line[0] == '#' && line[|line| - 1] == '2' && line[2..] == t;
    TrimWhole(line, IsSpace);
    TrimWhole(t, IsSpace);
    assert (["# " + t] + rest)[1..] == rest;
  }

  lemma RenderedLineIsPlain()
    ensures Plain(RENDERED_LINE) && RowOf(RENDERED_LINE) == [] && '\n' !in RENDERED_LINE
  {
    RenderedLineIsALine();
    RenderedLineEnds();
    hide RENDERED_LINE;
    TrimWhole(RENDERED_LINE, IsSpace);
  }

  lemma RenderedLineEnds()
    ensures |RENDERED_LINE| == 86 && RENDERED_LINE[0] == '<' && RENDERED_LINE[85] == '>'
  {
    assert "<!-- Rendered by yoke-conformance"[0] == '<';
    assert "<!-- Rendered by yoke-conformance from its cases: change"[0] == '<';
  }

  lemma RenderedLineIsALine()
    ensures '\n' !in RENDERED_LINE
  {
    assert '\n' !in "<!-- Rendered by yoke";
    assert '\n' !in "<!-- Rendered by yoke-conformance from its";
    assert '\n' !in "<!-- Rendered by yoke-conformance from its cases: change the cas";
  }

  ghost function Opening(c: Contract): seq<string> {
    ["", "| | |", "| --- | --- |"] + Rows(OpeningRows(c))
  }

  lemma OpeningReads(c: Contract)
    requires Clean(c)
    ensures RowsIn(Opening(c)) == OpeningRows(c)
    ensures forall i :: 0 <= i < |Opening(c)| ==> Plain(Opening(c)[i])
  {
    hide RowOf, Plain, OpeningRows, RowText;
    OpeningIsRows(c);
    RowsInRows(OpeningRows(c));
    BlankIsPlain();
    BarsArePlain();
    RuleIsPlain();
    var head := ["", "| | |", "| --- | --- |"];
    assert head[1..] == ["| | |", "| --- | --- |"] && head[1..][1..] == ["| --- | --- |"] && head[1..][1..][1..] == [];
    assert RowsIn(head[1..][1..][1..]) == [];
    assert RowsIn(head[1..][1..]) == [];
    assert RowsIn(head[1..]) == [];
    RowsInBoth(head, Rows(OpeningRows(c)));
    assert [] + OpeningRows(c) == OpeningRows(c);
  }

  lemma LinesAre(c: Contract)
    ensures Lines(c) + [""] == [RENDERED_LINE] + (["# " + Title(c)] + (Opening(c) + (CasesLines(c.cases) + [""])))
  {
    hide Title, OpeningRows, CasesLines;
  }

  /** Parsing a rendering gives the opening rows and, of every case, what its heading reads as and its eight
      values. */
  lemma RenderingReads(c: Contract)
    requires Clean(c)
    ensures ParseLines(Split(Unlines(Lines(c)), '\n'), NOTHING)
            == Description(Title(c), OpeningRows(c), ReadCases(c.cases))
    ensures RENDERED_LINE + "\n" <= Unlines(Lines(c))
  {
    hide CleanCase, OpeningRows, CasesLines, Split, ParseLines, Opening, RowsIn, Plain, Title, RowOf;
    RenderingSplits(c);
    LinesAre(c);
    var cases := CasesLines(c.cases) + [""];
    RenderedLineIsPlain();
    ParseOver([RENDERED_LINE], ["# " + Title(c)] + (Opening(c) + cases), NOTHING);
    OneRow();
    assert NOTHING.rows + RowsIn([RENDERED_LINE]) == NOTHING.rows;
    TitleReads(c, Opening(c) + cases);
    OpeningReads(c);
    var d := NOTHING.(h1 := Title(c));
    ParseOver(Opening(c), cases, d);
    assert [] + OpeningRows(c) == OpeningRows(c);
    CasesRead(c.cases, d.(rows := OpeningRows(c)));
    assert [] + ReadCases(c.cases) == ReadCases(c.cases);
    BeginsRendered(c);
  }

  lemma OneRow()
    ensures RowsIn([RENDERED_LINE]) == []
  {
    RenderedLineIsPlain();
    assert [RENDERED_LINE][1..] == [];
  }

  lemma BeginsRendered(c: Contract)
    ensures RENDERED_LINE + "\n" <= Unlines(Lines(c))
  {
    hide CasesLines, Title, OpeningRows;
    assert Lines(c)[0] == RENDERED_LINE;
    var rest := Unlines(Lines(c)[1..]);
    assert Unlines(Lines(c)) == (RENDERED_LINE + "\n") + rest;
  }

  // ----- Exactly what is given back -----

  lemma HeadingHasNo(heading: string)
    requires '\n' !in heading
    ensures '\n' !in ParseHeading(heading).id
  {
    hide Find, Trim;
    TrimEnds(heading, IsSpace);
    var h := TrimSpace(heading);
    var inner := if "~~" <= h then Cut(h[2..], "~~").0 else h;
    CutHasNo(h, "~~");
    CutHasNo(inner, " — ");
    TrimEnds(Cut(inner, " — ").0, IsSpace);
  }

  lemma CutHasNo(s: string, sub: string)
    requires '\n' !in s
    ensures '\n' !in Cut(s, sub).0 && (|s| >= 2 ==> '\n' !in Cut(s[2..], sub).0)
  {
    hide Find;
  }

  /** No identifier that is read holds a line's end. */
  lemma {:induction false} ReadIdsAreLines(lines: seq<string>, d: Description)
    requires forall i :: 0 <= i < |lines| ==> '\n' !in lines[i]
    requires forall i :: 0 <= i < |d.cases| ==> '\n' !in d.cases[i].id
    ensures forall i :: 0 <= i < |ParseLines(lines, d).cases| ==> '\n' !in ParseLines(lines, d).cases[i].id
    decreases |lines|
  {
    hide TrimSpace, ParseHeading, TableRows, RowOf;
    if lines != [] {
      var line, rest := TrimSpace(lines[0]), lines[1..];
      TrimSpaceHasNo(lines[0]);
      if "# " <= line {
        ReadIdsAreLines(rest, if d.h1 == "" then d.(h1 := TrimSpace(line[2..])) else d);
      } else if "## " <= line {
        HeadingHasNo(line[3..]);
        ReadIdsAreLines(rest[TableLength(rest)..],
                        d.(cases := d.cases + [ParseHeading(line[3..]).(fields := TableRows(rest))]));
      } else {
        ReadIdsAreLines(rest, if d.cases == [] then d.(rows := d.rows + RowOf(line)) else d);
      }
    }
  }

  lemma TrimSpaceHasNo(s: string)
    requires '\n' !in s
    ensures '\n' !in TrimSpace(s)
  {
    TrimEnds(s, IsSpace);
  }

  /** Parsing a rendering gives back exactly the ids, the titles and the eight values it was made of, if and only
      if every id is one that a heading's dash may follow. */
  lemma RenderingReadsExactlyWhen(c: Contract)
    requires CleanButIdentifiers(c)
    ensures ParseLines(Split(Unlines(Lines(c)), '\n'), NOTHING)
            == Description(Title(c), OpeningRows(c), StatedCases(c.cases))
            <==> IdsAreText(c)
  {
    hide CleanFields, OpeningRows, Lines, Split, ParseLines, Title, ParseHeading, FieldsOf, Heading, Unlines, IdText;
    var lines := Split(Unlines(Lines(c)), '\n');
    var d := ParseLines(lines, NOTHING);
    SplitParts(Unlines(Lines(c)), '\n');
    ReadIdsAreLines(lines, NOTHING);
    if d == Description(Title(c), OpeningRows(c), StatedCases(c.cases)) {
      forall i | 0 <= i < |c.cases|
        ensures CleanCase(c.cases[i])
      {
        assert d.cases[i] == StatedCase(c.cases[i]);
      }
      RenderingReads(c);
      forall i | 0 <= i < |c.cases|
        ensures IdText(c.cases[i].id)
      {
        HeadingReadsExactlyWhen(c.cases[i]);
        assert ReadCases(c.cases)[i] == StatedCases(c.cases)[i];
        SameHeading(c.cases[i]);
      }
    }
    if IdsAreText(c) {
      IdsAreLines(c);
      RenderingReads(c);
      forall i | 0 <= i < |c.cases|
        ensures ReadCases(c.cases)[i] == StatedCases(c.cases)[i]
      {
        HeadingReadsExactlyWhen(c.cases[i]);
      }
      assert ReadCases(c.cases) == StatedCases(c.cases);
    }
  }

  lemma SameHeading(k: Case)
    requires ReadCase(k) == StatedCase(k)
    ensures ParseHeading(Heading(k)[3..]) == StdCase(k.id, k.title, false, [])
  {
    assert ParseHeading(Heading(k)[3..]).fields == [];
  }

  lemma IdsAreLines(c: Contract)
    requires CleanButIdentifiers(c) && IdsAreText(c)
    ensures Clean(c)
  {
    forall i | 0 <= i < |c.cases|
      ensures CleanCase(c.cases[i])
    {
      assert IdText(c.cases[i].id);
    }
  }
}
