/** The checker of descriptions: what is wrong with the fields of a case, with a case, with a description, with a set
    of files, and that its loops find exactly that. The last part applies it to renderings: what it reports of one
    is what is wrong with the ids that the headings show, and nothing, of a contract with ids of its own, exactly
    where every one of them is read back. */
module Checking {
  import opened Prelude
  import opened Text
  import opened Descriptions
  import opened Renderings

  /** What a case's table names, from top to bottom. */
  const FIELDS: seq<string> :=
    ["Cites", "Level", "Method", "Not applicable in", "Label", "Precondition", "Action", "Expected"]

  /** What may stand as the level where nobody rendered the description. */
  const LEVELS: seq<string> := ["L0", "L1", "L3", "L4", "L5"]

  const DIMENSIONS: map<string, seq<string>> := map[
    "architecture" := ["amd64", "arm64"],
    "deployment form" := ["service", "application"],
    "unit backend" := ["host", "container"],
    "container engine" := ["podman", "docker"],
    "control-group delegation" := ["present", "absent"],
    "machine" := ["qemu", "raspberrypi5"]
  ]

  datatype Problem =
    | NoTitle
    | BadOpening
    | EmptyRow(name: string)
    | NotAnIdentifier(id: string)
    | OtherRepository(id: string)
    | OtherFeature(id: string)
    | BadNumber(id: string)
    | UsedTwice(id: string)
    | StruckWithTable(id: string)
    | UnknownField(id: string, name: string)
    | Repeated(id: string, name: string, count: nat)
    | Missing(id: string, name: string)
    | OutOfOrder(id: string, got: string, want: string)
    | NotRendered(id: string, value: string)
    | BadValue(id: string, field: Pair)

  // ----- Identifiers and items -----

  datatype Identifier = Identifier(repository: string, feature: string, number: string)

  function FindLast(s: string, c: char): (r: Option<nat>)
    ensures r.Some? ==> r.value < |s| && s[r.value] == c && c !in s[r.value + 1..]
    ensures r == None ==> c !in s
  {
    if s == "" then None
    else if s[|s| - 1] == c then Some(|s| - 1)
    else
      var front := s[..|s| - 1];
      assert s == front + [s[|s| - 1]];
      match FindLast(front, c)
      case None => None
      case Some(i) =>
        assert s[i + 1..] == front[i + 1..] + [s[|s| - 1]];
        Some(i)
  }

  /** `<repository>:<feature>.<nn>`, none of them empty. */
  function SplitIdentifier(id: string): Option<Identifier> {
    var (repository, rest, found) := Cut(id, ":");
    if !found || repository == "" then None
    else match FindLast(rest, '.')
      case None => None
      case Some(i) =>
        if i == 0 || i + 1 == |rest| then None else Some(Identifier(repository, rest[..i], rest[i + 1..]))
  }

  predicate IsNumber(s: string) {
    s != "" && forall i :: 0 <= i < |s| ==> '0' <= s[i] <= '9'
  }

  /** `<owner>/<repository>#<number>`. */
  predicate IsItem(s: string) {
    var (owner, rest, slash) := Cut(s, "/");
    var (repository, number, hash) := Cut(rest, "#");
    slash && owner != "" && hash && repository != "" && IsNumber(number)
  }

  /** An identifier reads back as its three parts. */
  lemma IdentifierReads(i: Identifier)
    requires i.repository != "" && ':' !in i.repository && i.feature != "" && i.number != "" && '.' !in i.number
    ensures SplitIdentifier(i.repository + ":" + i.feature + "." + i.number) == Some(i)
  {
    hide Cut, FindLast;
    var rest := i.feature + "." + i.number;
    assert i.repository + ":" + i.feature + "." + i.number == i.repository + [':'] + rest;
    CutChar(i.repository, ':', rest);
    LastDot(i.feature, i.number);
    assert rest[..|i.feature|] == i.feature && rest[|i.feature| + 1..] == i.number;
  }

  lemma {:induction false} LastDot(a: string, b: string)
    requires '.' !in b
    ensures FindLast(a + "." + b, '.') == Some(|a|)
  {
    var s := a + "." + b;
    if b != "" {
      var c := b[..|b| - 1];
      assert s[..|s| - 1] == a + "." + c && s[|s| - 1] == b[|b| - 1];
      LastDot(a, c);
    }
  }

  // ----- Values -----

  /** Lower case, as far as the values compared are concerned: the ASCII letters, and the two others that
      lower to one. */
  function Lower(c: char): char {
    if 'A' <= c <= 'Z' then ((c as int) + 32) as char
    else if c == '\U{212A}' then 'k'
    else if c == '\U{0130}' then 'i'
    else c
  }

  function Lowered(s: string): string {
    seq(|s|, i requires 0 <= i < |s| => Lower(s[i]))
  }

  function SplitOn(s: string, sep: string): (r: seq<string>)
    requires sep != ""
    decreases |s|
  {
    match Find(s, sep)
    case None => [s]
    case Some(i) => [s[..i]] + SplitOn(s[i + |sep|..], sep)
  }

  predicate Environment(pair: string) {
    var (dimension, value, found) := Cut(pair, ": ");
    && found && TrimSpace(dimension) in DIMENSIONS
    && Lowered(TrimSpace(value)) in DIMENSIONS[TrimSpace(dimension)]
  }

  predicate AllowedLabel(value: string) {
    || value == "blocking"
    || ("not blocking" <= value
        && " — " <= value[|"not blocking"|..]
        && IsItem(value[|"not blocking"|..][|" — "|..]))
  }

  /** Whether a value is one its field allows. */
  predicate Allowed(f: Pair) {
    match f.name
    case "Level" => f.value in LEVELS
    case "Method" => f.value == "test" || f.value == "check"
    case "Not applicable in" => f.value == "—" || forall p :: p in SplitOn(f.value, " · ") ==> Environment(p)
    case "Label" => AllowedLabel(f.value)
    case _ => f.value != ""
  }

  // ----- What each rule says -----

  function CountOf(fields: seq<Pair>, name: string): nat {
    if fields == [] then 0
    else CountOf(fields[..|fields| - 1], name) + (if fields[|fields| - 1].name == name then 1 else 0)
  }

  /** The names carried that are of the eight and carried once, in the order carried. */
  function Carried(all: seq<Pair>, fields: seq<Pair>): seq<string> {
    if fields == [] then []
    else
      var name := fields[|fields| - 1].name;
      Carried(all, fields[..|fields| - 1]) + (if name in FIELDS && CountOf(all, name) == 1 then [name] else [])
  }

  /** The same names, in the order of the eight. */
  function Wanted(all: seq<Pair>, names: seq<string>): seq<string> {
    if names == [] then []
    else
      var name := names[|names| - 1];
      Wanted(all, names[..|names| - 1]) + (if CountOf(all, name) == 1 then [name] else [])
  }

  ghost predicate FirstDifference(a: seq<string>, b: seq<string>, k: int) {
    0 <= k < |a| && k < |b| && a[..k] == b[..k] && a[k] != b[k]
  }

  ghost predicate FieldProblem(rendered: bool, c: StdCase, p: Problem) {
    match p
    case UnknownField(id, name) => id == c.id && name !in FIELDS && CountOf(c.fields, name) > 0
    case Repeated(id, name, n) => id == c.id && name in FIELDS && n == CountOf(c.fields, name) > 1
    case Missing(id, name) => id == c.id && name in FIELDS && CountOf(c.fields, name) == 0
    case OutOfOrder(id, got, want) =>
      var order, wanted := Carried(c.fields, c.fields), Wanted(c.fields, FIELDS);
      id == c.id && exists k :: FirstDifference(order, wanted, k) && got == order[k] && want == wanted[k]
    case NotRendered(id, value) => id == c.id && rendered && value != "L2" && Pair("Level", value) in c.fields
    case BadValue(id, f) => id == c.id && f in c.fields && !(rendered && f.name == "Level") && !Allowed(f)
    case _ => false
  }

  // ----- Names and their order -----

  function NamesOf(fields: seq<Pair>): (r: seq<string>)
    ensures |r| == |fields| && forall i :: 0 <= i < |fields| ==> r[i] == fields[i].name
  {
    seq(|fields|, i requires 0 <= i < |fields| => fields[i].name)
  }

  lemma {:induction false} CountIsMultiplicity(fields: seq<Pair>, name: string)
    ensures CountOf(fields, name) == multiset(NamesOf(fields))[name]
  {
    if fields == [] {
      assert NamesOf(fields) == [];
    } else {
      var front := fields[..|fields| - 1];
      CountIsMultiplicity(front, name);
      assert NamesOf(fields) == NamesOf(front) + [fields[|fields| - 1].name];
    }
  }

  lemma {:induction false} CarriedMultiplicity(all: seq<Pair>, fields: seq<Pair>, name: string)
    ensures multiset(Carried(all, fields))[name]
            == if name in FIELDS && CountOf(all, name) == 1 then CountOf(fields, name) else 0
  {
    if fields != [] { CarriedMultiplicity(all, fields[..|fields| - 1], name); }
  }

  lemma {:induction false} WantedMultiplicity(all: seq<Pair>, names: seq<string>, name: string)
    ensures multiset(Wanted(all, names))[name] == if CountOf(all, name) == 1 then multiset(names)[name] else 0
  {
    if names != [] {
      WantedMultiplicity(all, names[..|names| - 1], name);
      assert names == names[..|names| - 1] + [names[|names| - 1]];
    }
  }

  lemma NamesDiffer()
    ensures forall i, j :: 0 <= i < j < |FIELDS| ==> FIELDS[i] != FIELDS[j]
  {
    assert |"Cites"| == |"Level"| == |"Label"| == 5 && "Cites"[0] == 'C' && "Level"[1] == 'e' && "Label"[0] == 'L'
           && "Level"[0] == 'L' && "Label"[1] == 'a';
    assert |"Method"| == |"Action"| == 6 && "Method"[0] == 'M' && "Action"[0] == 'A';
    assert |"Not applicable in"| == 17 && |"Precondition"| == 12 && |"Expected"| == 8;
  }

  lemma FieldsAreDistinct()
    ensures forall n :: multiset(FIELDS)[n] == if n in FIELDS then 1 else 0
  {
    NamesDiffer();
    forall n
      ensures multiset(FIELDS)[n] == if n in FIELDS then 1 else 0
    {
      OnceInDistinct(FIELDS, n);
    }
  }

  lemma {:induction false} OnceInDistinct(s: seq<string>, n: string)
    requires forall i, j :: 0 <= i < j < |s| ==> s[i] != s[j]
    ensures multiset(s)[n] == if n in s then 1 else 0
  {
    if s != [] {
      var front := s[..|s| - 1];
      OnceInDistinct(front, n);
      assert s == front + [s[|s| - 1]];
    }
  }

  /** The two lists compared are of one length, so comparing them never runs past an end. */
  lemma SameLengths(all: seq<Pair>)
    ensures |Carried(all, all)| == |Wanted(all, FIELDS)|
  {
    hide Carried, Wanted, CountOf;
    var a, b := Carried(all, all), Wanted(all, FIELDS);
    FieldsAreDistinct();
    forall n
      ensures multiset(a)[n] == multiset(b)[n]
    {
      CarriedMultiplicity(all, all, n);
      WantedMultiplicity(all, FIELDS, n);
    }
    assert multiset(a) == multiset(b);
    assert |a| == |multiset(a)| && |b| == |multiset(b)|;
  }

  lemma {:induction false} DifferSomewhere(a: seq<string>, b: seq<string>) returns (k: int)
    requires |a| == |b| && a != b
    ensures FirstDifference(a, b, k)
  {
    var x, y := a[..|a| - 1], b[..|b| - 1];
    if x == y {
      k := |a| - 1;
      assert a == x + [a[k]] && b == y + [b[k]];
    } else {
      k := DifferSomewhere(x, y);
      assert a[..k] == x[..k] && b[..k] == y[..k];
    }
  }

  lemma NoDifference(a: seq<string>, b: seq<string>)
    requires |a| == |b| && forall k :: 0 <= k < |a| ==> !FirstDifference(a, b, k)
    ensures a == b
  {
    if a != b { var k := DifferSomewhere(a, b); }
  }

  lemma {:induction false} AllCarried(all: seq<Pair>, fields: seq<Pair>)
    requires forall i :: 0 <= i < |fields| ==> fields[i].name in FIELDS && CountOf(all, fields[i].name) == 1
    ensures Carried(all, fields) == NamesOf(fields)
  {
    if fields == [] {
      assert NamesOf(fields) == [];
    } else {
      var front := fields[..|fields| - 1];
      AllCarried(all, front);
      assert NamesOf(fields) == NamesOf(front) + [fields[|fields| - 1].name];
    }
  }

  lemma {:induction false} AllWanted(all: seq<Pair>, names: seq<string>)
    requires forall i :: 0 <= i < |names| ==> CountOf(all, names[i]) == 1
    ensures Wanted(all, names) == names
  {
    if names != [] { AllWanted(all, names[..|names| - 1]); }
  }

  ghost predicate ValuesAllowed(rendered: bool, fields: seq<Pair>) {
    forall i :: 0 <= i < |fields| ==>
      if rendered && fields[i].name == "Level" then fields[i].value == "L2" else Allowed(fields[i])
  }

  lemma EachOnce(c: StdCase)
    requires NamesOf(c.fields) == FIELDS
    ensures forall n :: CountOf(c.fields, n) == if n in FIELDS then 1 else 0
  {
    hide CountOf, NamesOf;
    FieldsAreDistinct();
    forall n
      ensures CountOf(c.fields, n) == if n in FIELDS then 1 else 0
    {
      CountIsMultiplicity(c.fields, n);
    }
  }

  lemma EightAreCounted(c: StdCase)
    requires NamesOf(c.fields) == FIELDS
    ensures forall n :: CountOf(c.fields, n) == if n in FIELDS then 1 else 0
    ensures Carried(c.fields, c.fields) == FIELDS == Wanted(c.fields, FIELDS)
  {
    hide CountOf, Carried, Wanted, NamesOf;
    EachOnce(c);
    assert forall i :: 0 <= i < |c.fields| ==> c.fields[i].name == FIELDS[i];
    AllCarried(c.fields, c.fields);
    AllWanted(c.fields, FIELDS);
  }

  lemma EightHaveNoProblem(rendered: bool, c: StdCase, p: Problem)
    requires NamesOf(c.fields) == FIELDS && ValuesAllowed(rendered, c.fields)
    ensures !FieldProblem(rendered, c, p)
  {
    hide CountOf, Carried, Wanted, Allowed, NamesOf;
    EightAreCounted(c);
  }

  lemma OfTheEight(rendered: bool, c: StdCase)
    requires forall p :: !FieldProblem(rendered, c, p)
    ensures forall n :: CountOf(c.fields, n) == if n in FIELDS then 1 else 0
  {
    hide CountOf, Carried, Wanted, Allowed;
    forall n
      ensures CountOf(c.fields, n) == if n in FIELDS then 1 else 0
    {
      assert !FieldProblem(rendered, c, UnknownField(c.id, n));
      assert !FieldProblem(rendered, c, Missing(c.id, n));
      assert !FieldProblem(rendered, c, Repeated(c.id, n, CountOf(c.fields, n)));
    }
  }

  lemma InOrder(rendered: bool, c: StdCase)
    requires forall p :: !FieldProblem(rendered, c, p)
    ensures NamesOf(c.fields) == FIELDS
  {
    hide CountOf, Carried, Wanted, Allowed;
    OfTheEight(rendered, c);
    forall i | 0 <= i < |c.fields|
      ensures c.fields[i].name in FIELDS && CountOf(c.fields, c.fields[i].name) == 1
    {
      CountIsMultiplicity(c.fields, c.fields[i].name);
      assert NamesOf(c.fields)[i] in multiset(NamesOf(c.fields));
    }
    AllCarried(c.fields, c.fields);
    AllWanted(c.fields, FIELDS);
    SameLengths(c.fields);
    var names := NamesOf(c.fields);
    forall k | 0 <= k < |names|
      ensures !FirstDifference(names, FIELDS, k)
    {
      assert !FieldProblem(rendered, c, OutOfOrder(c.id, names[k], FIELDS[k]));
    }
    NoDifference(names, FIELDS);
  }

  /** A case has no problem with its fields exactly when their names are the fixed list and every value is
      allowed under its name. */
  lemma NoFieldProblemExactlyWhen(rendered: bool, c: StdCase)
    ensures (forall p :: !FieldProblem(rendered, c, p))
            <==> NamesOf(c.fields) == FIELDS && ValuesAllowed(rendered, c.fields)
  {
    hide FieldProblem, Allowed;
    if forall p :: !FieldProblem(rendered, c, p) {
      InOrder(rendered, c);
      ValuesHold(rendered, c);
    }
    if NamesOf(c.fields) == FIELDS && ValuesAllowed(rendered, c.fields) {
      forall p
        ensures !FieldProblem(rendered, c, p)
      {
        EightHaveNoProblem(rendered, c, p);
      }
    }
  }

  lemma ValuesHold(rendered: bool, c: StdCase)
    requires forall p :: !FieldProblem(rendered, c, p)
    ensures ValuesAllowed(rendered, c.fields)
  {
    hide CountOf, Carried, Wanted, Allowed;
    forall i | 0 <= i < |c.fields|
      ensures if rendered && c.fields[i].name == "Level" then c.fields[i].value == "L2" else Allowed(c.fields[i])
    {
      var f := c.fields[i];
      assert !FieldProblem(rendered, c, BadValue(c.id, f));
      assert !FieldProblem(rendered, c, NotRendered(c.id, f.value));
      assert f == Pair(f.name, f.value);
    }
  }

  // ----- The checker -----

  /** How often each name is carried. */
  method Tally(fields: seq<Pair>) returns (seen: map<string, nat>)
    ensures forall n :: n in seen <==> CountOf(fields, n) > 0
    ensures forall n :: n in seen ==> seen[n] == CountOf(fields, n)
  {
    seen := map[];
    for i := 0 to |fields|
      invariant forall n :: n in seen <==> CountOf(fields[..i], n) > 0
      invariant forall n :: n in seen ==> seen[n] == CountOf(fields[..i], n)
    {
      var name := fields[i].name;
      assert fields[..i + 1][..i] == fields[..i];
      seen := seen[name := (if name in seen then seen[name] else 0) + 1];
    }
    assert fields[..|fields|] == fields;
  }

  ghost predicate NameProblem(c: StdCase, p: Problem) {
    (p.UnknownField? || p.Repeated?) && FieldProblem(false, c, p)
  }

  /** Names that are not of the eight, or are carried again; each name is looked at once, in whatever order. */
  method CheckNames(c: StdCase, seen: map<string, nat>) returns (ps: seq<Problem>)
    requires forall n :: n in seen <==> CountOf(c.fields, n) > 0
    requires forall n :: n in seen ==> seen[n] == CountOf(c.fields, n)
    ensures forall p :: p in ps <==> NameProblem(c, p)
  {
    ps := [];
    var left := seen.Keys;
    while left != {}
      invariant left <= seen.Keys
      invariant forall p :: p in ps <==> NameProblem(c, p) && p.name !in left
    {
      var name :| name in left;
      left := left - {name};
      if name !in FIELDS {
        ps := ps + [UnknownField(c.id, name)];
      } else if seen[name] > 1 {
        ps := ps + [Repeated(c.id, name, seen[name])];
      }
    }
  }

  method CheckMissing(c: StdCase, seen: map<string, nat>) returns (ps: seq<Problem>)
    requires forall n :: n in seen <==> CountOf(c.fields, n) > 0
    ensures forall p :: p in ps <==> p.Missing? && FieldProblem(false, c, p)
  {
    ps := [];
    for i := 0 to |FIELDS|
      invariant forall p :: p in ps <==> p.Missing? && FieldProblem(false, c, p) && p.name in FIELDS[..i]
    {
      assert FIELDS[..i + 1] == FIELDS[..i] + [FIELDS[i]];
      if FIELDS[i] !in seen {
        ps := ps + [Missing(c.id, FIELDS[i])];
      }
    }
    assert FIELDS[..|FIELDS|] == FIELDS;
  }

  method CheckOrder(c: StdCase, seen: map<string, nat>) returns (ps: seq<Problem>)
    requires forall n :: n in seen <==> CountOf(c.fields, n) > 0
    requires forall n :: n in seen ==> seen[n] == CountOf(c.fields, n)
    ensures forall p :: p in ps <==> p.OutOfOrder? && FieldProblem(false, c, p)
  {
    var order := CarriedNames(c.fields, seen);
    var want := WantedNames(c.fields, seen);
    SameLengths(c.fields);
    ps := FirstOutOfOrder(c.id, order, want);
  }

  method CarriedNames(fields: seq<Pair>, seen: map<string, nat>) returns (order: seq<string>)
    requires forall n :: n in seen <==> CountOf(fields, n) > 0
    requires forall n :: n in seen ==> seen[n] == CountOf(fields, n)
    ensures order == Carried(fields, fields)
  {
    order := [];
    for i := 0 to |fields|
      invariant order == Carried(fields, fields[..i])
    {
      var f := fields[i];
      assert fields[..i + 1][..i] == fields[..i];
      if f.name in FIELDS && f.name in seen && seen[f.name] == 1 {
        order := order + [f.name];
      }
    }
    assert fields[..|fields|] == fields;
  }

  method WantedNames(fields: seq<Pair>, seen: map<string, nat>) returns (want: seq<string>)
    requires forall n :: n in seen <==> CountOf(fields, n) > 0
    requires forall n :: n in seen ==> seen[n] == CountOf(fields, n)
    ensures want == Wanted(fields, FIELDS)
  {
    want := [];
    for i := 0 to |FIELDS|
      invariant want == Wanted(fields, FIELDS[..i])
    {
      assert FIELDS[..i + 1][..i] == FIELDS[..i];
      if FIELDS[i] in seen && seen[FIELDS[i]] == 1 {
        want := want + [FIELDS[i]];
      }
    }
    assert FIELDS[..|FIELDS|] == FIELDS;
  }

  ghost predicate OrderProblem(id: string, order: seq<string>, want: seq<string>, p: Problem) {
    p.OutOfOrder? && p.id == id && exists k :: FirstDifference(order, want, k) && p.got == order[k] && p.want == want[k]
  }

  method FirstOutOfOrder(id: string, order: seq<string>, want: seq<string>) returns (ps: seq<Problem>)
    requires |order| == |want|
    ensures forall p :: p in ps <==> OrderProblem(id, order, want, p)
  {
    for i := 0 to |order|
      invariant order[..i] == want[..i]
    {
      if order[i] != want[i] {
        ps := [OutOfOrder(id, order[i], want[i])];
        assert FirstDifference(order, want, i);
        OneDifference(order, want, i);
        return;
      }
      assert order[..i + 1] == order[..i] + [order[i]] && want[..i + 1] == want[..i] + [want[i]];
    }
    forall k
      ensures !FirstDifference(order, want, k)
    {
      if 0 <= k < |order| { assert order[..|order|][k] == want[..|order|][k]; }
    }
    return [];
  }

  lemma OneDifference(a: seq<string>, b: seq<string>, i: int)
    requires FirstDifference(a, b, i)
    ensures forall k :: FirstDifference(a, b, k) ==> k == i
  {
    forall k | 0 <= k < |a| && k < |b| && k != i
      ensures !FirstDifference(a, b, k)
    {
      if k < i {
        assert a[..i][k] == b[..i][k];
      } else {
        assert a[..k][i] != b[..k][i];
      }
    }
  }

  ghost predicate ValueProblem(rendered: bool, id: string, f: Pair, p: Problem) {
    if rendered && f.name == "Level" then f.value != "L2" && p == NotRendered(id, f.value)
    else !Allowed(f) && p == BadValue(id, f)
  }

  method CheckValues(rendered: bool, c: StdCase) returns (ps: seq<Problem>)
    ensures forall p :: p in ps <==> (p.NotRendered? || p.BadValue?) && FieldProblem(rendered, c, p)
  {
    hide Allowed;
    ps := [];
    for i := 0 to |c.fields|
      invariant forall p :: p in ps <==> exists k :: 0 <= k < i && ValueProblem(rendered, c.id, c.fields[k], p)
    {
      var f := c.fields[i];
      if rendered && f.name == "Level" {
        if f.value != "L2" {
          ps := ps + [NotRendered(c.id, f.value)];
        }
      } else if !Allowed(f) {
        ps := ps + [BadValue(c.id, f)];
      }
    }
    forall p
      ensures p in ps <==> (p.NotRendered? || p.BadValue?) && FieldProblem(rendered, c, p)
    {
      ValueProblems(rendered, c, p);
    }
  }

  lemma ValueProblems(rendered: bool, c: StdCase, p: Problem)
    ensures (exists k :: 0 <= k < |c.fields| && ValueProblem(rendered, c.id, c.fields[k], p))
            <==> (p.NotRendered? || p.BadValue?) && FieldProblem(rendered, c, p)
  {
    hide Allowed;
    if (p.NotRendered? || p.BadValue?) && FieldProblem(rendered, c, p) {
      var f := if p.NotRendered? then Pair("Level", p.value) else p.field;
      var k :| 0 <= k < |c.fields| && c.fields[k] == f;
      assert ValueProblem(rendered, c.id, c.fields[k], p);
    }
    if k :| 0 <= k < |c.fields| && ValueProblem(rendered, c.id, c.fields[k], p) {
      var f := c.fields[k];
      assert f == Pair(f.name, f.value);
    }
  }

  /** Finds whatever is wrong with the table of a case that is not struck: names missing, repeated, unknown or
      misplaced, and values not allowed. */
  method CheckFields(rendered: bool, c: StdCase) returns (ps: seq<Problem>)
    ensures forall p :: p in ps <==> FieldProblem(rendered, c, p)
  {
    hide CountOf, Carried, Wanted, Allowed;
    var seen := Tally(c.fields);
    var names := CheckNames(c, seen);
    var missing := CheckMissing(c, seen);
    var order := CheckOrder(c, seen);
    var values := CheckValues(rendered, c);
    ps := names + missing + order + values;
  }

  // ----- Whole descriptions -----

  /** A description as it lies in a tree: the feature its file is named for, and whether the suite rendered it. */
  datatype Document = Document(path: string, feature: string, rendered: bool, d: Description)

  datatype Finding = Finding(file: string, problem: Problem)

  predicate Opens(rows: seq<Pair>) {
    |rows| == 2 && rows[0].name == "Feature" && rows[1].name == "Planning item"
  }

  ghost predicate HeadProblem(d: Description, p: Problem) {
    match p
    case NoTitle => d.h1 == ""
    case BadOpening => !Opens(d.rows)
    case EmptyRow(name) => Opens(d.rows) && Pair(name, "") in d.rows
    case _ => false
  }

  ghost predicate CaseProblem(repository: string, feature: string, rendered: bool, c: StdCase, p: Problem) {
    match p
    case NotAnIdentifier(id) => id == c.id && SplitIdentifier(id) == None
    case OtherRepository(id) => id == c.id && SplitIdentifier(id).Some?
      && SplitIdentifier(id).value.repository != repository
    case OtherFeature(id) => id == c.id && SplitIdentifier(id).Some? && SplitIdentifier(id).value.feature != feature
    case BadNumber(id) =>
      && id == c.id && SplitIdentifier(id).Some?
      && !(IsNumber(SplitIdentifier(id).value.number) && |SplitIdentifier(id).value.number| >= 2)
    case StruckWithTable(id) => id == c.id && c.struck && c.fields != []
    case _ => !c.struck && FieldProblem(rendered, c, p)
  }

  ghost predicate Reused(cases: seq<StdCase>, n: nat, p: Problem) {
    p.UsedTwice? && exists i, j :: 0 <= i < j < |cases| && j < n && cases[i].id == cases[j].id == p.id
  }

  ghost predicate SomeCaseProblem(x: Document, repository: string, n: nat, p: Problem) {
    exists i :: 0 <= i < |x.d.cases| && i < n && CaseProblem(repository, x.feature, x.rendered, x.d.cases[i], p)
  }

  ghost predicate DocumentProblem(x: Document, repository: string, p: Problem) {
    || HeadProblem(x.d, p)
    || SomeCaseProblem(x, repository, |x.d.cases|, p)
    || Reused(x.d.cases, |x.d.cases|, p)
  }

  method CheckHead(d: Description) returns (ps: seq<Problem>)
    ensures forall p :: p in ps <==> HeadProblem(d, p)
  {
    ps := if d.h1 == "" then [NoTitle] else [];
    if |d.rows| != 2 || d.rows[0].name != "Feature" || d.rows[1].name != "Planning item" {
      ps := ps + [BadOpening];
    } else {
      for i := 0 to 2
        invariant forall p :: p in ps
                   <==> (p == NoTitle && d.h1 == "") || (p.EmptyRow? && Pair(p.name, "") in d.rows[..i])
      {
        assert d.rows[..i + 1] == d.rows[..i] + [d.rows[i]];
        if d.rows[i].value == "" {
          ps := ps + [EmptyRow(d.rows[i].name)];
          assert d.rows[i] == Pair(d.rows[i].name, "");
        }
      }
      assert d.rows[..2] == d.rows;
    }
  }

  method CheckCase(repository: string, feature: string, rendered: bool, c: StdCase) returns (ps: seq<Problem>)
    ensures forall p :: p in ps <==> CaseProblem(repository, feature, rendered, c, p)
  {
    hide FieldProblem, SplitIdentifier, IsNumber;
    ps := [];
    match SplitIdentifier(c.id) {
      case None => ps := ps + [NotAnIdentifier(c.id)];
      case Some(i) =>
        if i.repository != repository {
          ps := ps + [OtherRepository(c.id)];
        }
        if i.feature != feature {
          ps := ps + [OtherFeature(c.id)];
        }
        if !IsNumber(i.number) || |i.number| < 2 {
          ps := ps + [BadNumber(c.id)];
        }
    }
    if c.struck {
      if |c.fields| > 0 {
        ps := ps + [StruckWithTable(c.id)];
      }
    } else {
      var fields := CheckFields(rendered, c);
      FieldsOnly(rendered, c);
      ps := ps + fields;
    }
  }

  lemma FieldsOnly(rendered: bool, c: StdCase)
    ensures forall p :: FieldProblem(rendered, c, p) ==>
              p.UnknownField? || p.Repeated? || p.Missing? || p.OutOfOrder? || p.NotRendered? || p.BadValue?
  {
  }

  /** Every rule the form states of one description. */
  method CheckDescription(x: Document, repository: string) returns (ps: seq<Problem>)
    ensures forall p :: p in ps <==> DocumentProblem(x, repository, p)
  {
    hide CaseProblem, HeadProblem;
    ps := CheckHead(x.d);
    var taken: set<string> := {};
    for i := 0 to |x.d.cases|
      invariant forall id :: id in taken <==> exists k :: 0 <= k < i && x.d.cases[k].id == id
      invariant forall p :: p in ps
                 <==> HeadProblem(x.d, p) || SomeCaseProblem(x, repository, i, p) || Reused(x.d.cases, i, p)
    {
      var c := x.d.cases[i];
      var found := CheckCase(repository, x.feature, x.rendered, c);
      if c.id in taken {
        found := found + [UsedTwice(c.id)];
      }
      taken := taken + {c.id};
      OneMore(x, repository, i);
      ps := ps + found;
    }
  }

  /** The problem is that the case's id was used before. */
  ghost predicate Repeats(cases: seq<StdCase>, i: nat, p: Problem)
    requires i < |cases|
  {
    p == UsedTwice(cases[i].id) && exists k :: 0 <= k < i && cases[k].id == cases[i].id
  }

  lemma OneMore(x: Document, repository: string, i: nat)
    requires i < |x.d.cases|
    ensures forall p :: SomeCaseProblem(x, repository, i + 1, p)
                        <==> SomeCaseProblem(x, repository, i, p)
                             || CaseProblem(repository, x.feature, x.rendered, x.d.cases[i], p)
    ensures forall p :: Reused(x.d.cases, i + 1, p) <==> Reused(x.d.cases, i, p) || Repeats(x.d.cases, i, p)
  {
    hide CaseProblem;
    forall p
      ensures SomeCaseProblem(x, repository, i + 1, p)
              <==> SomeCaseProblem(x, repository, i, p)
                   || CaseProblem(repository, x.feature, x.rendered, x.d.cases[i], p)
    {
      if CaseProblem(repository, x.feature, x.rendered, x.d.cases[i], p) {
        assert SomeCaseProblem(x, repository, i + 1, p);
      }
    }
    forall p
      ensures Reused(x.d.cases, i + 1, p) <==> Reused(x.d.cases, i, p) || Repeats(x.d.cases, i, p)
    {
      OneMoreReused(x.d.cases, i, p);
    }
  }

  lemma OneMoreReused(cases: seq<StdCase>, i: nat, p: Problem)
    requires i < |cases|
    ensures Reused(cases, i + 1, p) <==> Reused(cases, i, p) || Repeats(cases, i, p)
  {
    if Reused(cases, i + 1, p) && !Reused(cases, i, p) {
      var k, j :| 0 <= k < j < |cases| && j < i + 1 && cases[k].id == cases[j].id == p.id;
      assert j == i;
    }
    if Reused(cases, i, p) {
      var k, j :| 0 <= k < j < |cases| && j < i && cases[k].id == cases[j].id == p.id;
      assert 0 <= k < j < |cases| && j < i + 1 && cases[k].id == cases[j].id == p.id;
    }
    if k :| p == UsedTwice(cases[i].id) && 0 <= k < i && cases[k].id == cases[i].id {
      assert 0 <= k < i < |cases| && i < i + 1 && cases[k].id == cases[i].id == p.id;
    }
  }

  method CheckDescriptions(xs: seq<Document>, repository: string) returns (findings: seq<Finding>)
    ensures forall f :: f in findings
             <==> exists i :: 0 <= i < |xs| && xs[i].path == f.file && DocumentProblem(xs[i], repository, f.problem)
  {
    hide DocumentProblem;
    findings := [];
    for i := 0 to |xs|
      invariant forall f :: f in findings
                 <==> exists k :: 0 <= k < i && xs[k].path == f.file && DocumentProblem(xs[k], repository, f.problem)
    {
      var ps := CheckDescription(xs[i], repository);
      findings := findings + Tagged(xs[i].path, ps);
      assert forall f :: f in Tagged(xs[i].path, ps)
              <==> xs[i].path == f.file && DocumentProblem(xs[i], repository, f.problem);
    }
  }

  function Tagged(file: string, ps: seq<Problem>): (r: seq<Finding>)
    ensures forall f :: f in r <==> f.file == file && f.problem in ps
  {
    if ps == [] then [] else [Finding(file, ps[0])] + Tagged(file, ps[1..])
  }

  // ----- A rendering conforms -----

  /** An identifier of this repository and this contract, numbered with two digits at least. */
  ghost predicate IdOf(repository: string, name: string, id: string) {
    var i := SplitIdentifier(id);
    i.Some? && i.value.repository == repository && i.value.feature == name && IsNumber(i.value.number)
      && |i.value.number| >= 2
  }

  ghost predicate Identified(c: Contract, repository: string) {
    && (forall i :: 0 <= i < |c.cases| ==> IdOf(repository, c.name, c.cases[i].id))
    && (forall i, j :: 0 <= i < j < |c.cases| ==> c.cases[i].id != c.cases[j].id)
  }

  /** What is read of a contract's rendering, in the file named for it. */
  ghost function ReadBack(path: string, c: Contract): Document {
    var content := Unlines(Lines(c));
    Document(path, c.name, RENDERED_LINE + "\n" <= content, ParseLines(Split(content, '\n'), NOTHING))
  }

  lemma RenderedFieldsConform(k: Case)
    requires CleanCase(k)
    ensures forall p :: !FieldProblem(true, ReadCase(k), p)
  {
    hide FieldProblem, ParseHeading;
    var fields := FieldsOf(k);
    assert NamesOf(fields) == FIELDS;
    assert fields[0].value != "" && fields[5].value != "" && fields[6].value != "" && fields[7].value != "";
    assert fields[1] == Pair("Level", "L2");
    AllowedValues(k);
    NoFieldProblemExactlyWhen(true, ReadCase(k));
  }

  lemma AllowedValues(k: Case)
    requires CleanCase(k)
    ensures ValuesAllowed(true, FieldsOf(k))
  {
    hide FieldText, IdText, TitleText, SplitOn, Join, IsItem;
    NotEmpty(k);
    NamesDiffer();
    var f := FieldsOf(k);
    assert Allowed(f[0]) && Allowed(f[2]) && Allowed(f[3]) && Allowed(f[4]) && Allowed(f[5]) && Allowed(f[6])
           && Allowed(f[7]);
  }

  lemma NotEmpty(k: Case)
    requires CleanCase(k)
    ensures Join(k.cites, " · ") != "" && k.precondition != "" && k.issues != "" && k.demands != ""
  {
  }

  /** What is read is not struck, and is an identifier of this repository and contract. */
  ghost predicate Own(repository: string, name: string, c: StdCase) {
    !c.struck && IdOf(repository, name, c.id)
  }

  lemma RenderedCaseConforms(repository: string, name: string, k: Case)
    requires CleanCase(k)
    ensures (forall p :: !CaseProblem(repository, name, true, ReadCase(k), p)) <==> Own(repository, name, ReadCase(k))
  {
    hide FieldProblem, CleanCase, SplitIdentifier, IsNumber, FieldsOf, ParseHeading;
    RenderedFieldsConform(k);
    var c := ReadCase(k);
    assert c.fields == FieldsOf(k) && |c.fields| == 8;
    if c.struck {
      assert CaseProblem(repository, name, true, c, StruckWithTable(c.id));
    } else if !IdOf(repository, name, c.id) {
      assert CaseProblem(repository, name, true, c, NotAnIdentifier(c.id))
             || CaseProblem(repository, name, true, c, OtherRepository(c.id))
          || CaseProblem(repository, name, true, c, OtherFeature(c.id))
          || CaseProblem(repository, name, true, c, BadNumber(c.id));
    }
  }

  lemma RenderedHeadConforms(c: Contract)
    requires Clean(c)
    ensures forall p :: !HeadProblem(Description(Title(c), OpeningRows(c), ReadCases(c.cases)), p)
  {
    hide CleanCase, FieldsOf;
    var rows := OpeningRows(c);
    assert rows[0].value != "" && rows[1].value != "";
    assert |Title(c)| > 0;
  }

  /** Every heading shows an identifier of this repository and contract, and no two the same. */
  ghost predicate Shown(c: Contract, repository: string) {
    && (forall i :: 0 <= i < |c.cases| ==> Own(repository, c.name, ReadCase(c.cases[i])))
    && (forall i, j :: 0 <= i < j < |c.cases| ==> ReadCase(c.cases[i]).id != ReadCase(c.cases[j]).id)
  }

  /** The checker reports nothing of a rendering exactly when the identifiers its headings show are the
      contract's own, well formed and distinct. */
  lemma RenderingConformsWhenShown(path: string, c: Contract, repository: string)
    requires Clean(c)
    ensures (forall p :: !DocumentProblem(ReadBack(path, c), repository, p)) <==> Shown(c, repository)
  {
    hide CaseProblem, HeadProblem, CleanCase, Title, OpeningRows, Own, Lines, Split, ParseLines, ParseHeading, ReadCase;
    RenderingReads(c);
    RenderedHeadConforms(c);
    var x := ReadBack(path, c);
    assert x.rendered && x.d.cases == ReadCases(c.cases);
    forall i | 0 <= i < |c.cases|
      ensures (forall p :: !CaseProblem(repository, c.name, true, x.d.cases[i], p))
              <==> Own(repository, c.name, ReadCase(c.cases[i]))
    {
      RenderedCaseConforms(repository, c.name, c.cases[i]);
    }
    if forall p :: !DocumentProblem(x, repository, p) {
      forall i, p | 0 <= i < |c.cases|
        ensures !CaseProblem(repository, c.name, true, x.d.cases[i], p)
      {
        assert !DocumentProblem(x, repository, p);
        assert !SomeCaseProblem(x, repository, |x.d.cases|, p);
      }
      forall i, j | 0 <= i < j < |c.cases|
        ensures ReadCase(c.cases[i]).id != ReadCase(c.cases[j]).id
      {
        assert !DocumentProblem(x, repository, UsedTwice(ReadCase(c.cases[i]).id));
        assert !Reused(x.d.cases, |x.d.cases|, UsedTwice(ReadCase(c.cases[i]).id));
        assert x.d.cases[i] == ReadCase(c.cases[i]) && x.d.cases[j] == ReadCase(c.cases[j]);
      }
    }
  }

  /** Of a contract whose identifiers are its own, well formed and distinct, the checker reports nothing exactly
      where parsing gives them all back; and where it does, nothing else is reported than what is wrong with
      them. */
  lemma RenderingConformsExactlyWhen(path: string, c: Contract, repository: string)
    requires Clean(c)
    ensures Identified(c, repository) ==>
              ((forall p :: !DocumentProblem(ReadBack(path, c), repository, p)) <==> IdsAreText(c))
    ensures IdsAreText(c) ==>
              ((forall p :: !DocumentProblem(ReadBack(path, c), repository, p)) <==> Identified(c, repository))
  {
    hide CleanCase, IdOf, IdText, DocumentProblem, ReadBack, ParseHeading, ReadCase;
    RenderingConformsWhenShown(path, c, repository);
    forall i | 0 <= i < |c.cases|
      ensures IdText(c.cases[i].id) ==> ReadCase(c.cases[i]) == StatedCase(c.cases[i])
      ensures IdOf(repository, c.name, c.cases[i].id) && Own(repository, c.name, ReadCase(c.cases[i])) ==>
                IdText(c.cases[i].id)
    {
      TextIsStated(c.cases[i]);
      if IdOf(repository, c.name, c.cases[i].id) && Own(repository, c.name, ReadCase(c.cases[i])) {
        OwnIsText(repository, c.name, c.cases[i]);
      }
    }
  }

  lemma TextIsStated(k: Case)
    requires CleanCase(k)
    ensures IdText(k.id) ==> ReadCase(k) == StatedCase(k)
  {
    HeadingReadsExactlyWhen(k);
  }

  /** An identifier is its three parts. */
  lemma IdentifierIsParts(id: string)
    requires SplitIdentifier(id).Some?
    ensures var i := SplitIdentifier(id).value; id == i.repository + ":" + i.feature + "." + i.number
  {
    hide Cut, FindLast;
    CutWhole(id, ':');
    var rest := Cut(id, ":").1;
    var i := FindLast(rest, '.').value;
    assert rest == rest[..i] + "." + rest[i + 1..];
  }

  /** Two identifiers of one contract are the same up to their numbers. */
  lemma SameUpToNumbers(repository: string, name: string, id: string) returns (number: string)
    requires IdOf(repository, name, id)
    ensures id == repository + ":" + name + "." + number && IsNumber(number)
  {
    IdentifierIsParts(id);
    number := SplitIdentifier(id).value.number;
  }

  /** A dash that comes no earlier than a number comes after it. */
  lemma DashIsAfterNumber(before: string, number: string, rest: string, at: nat)
    requires IsNumber(number) && |before| <= at
    requires var h := before + number + rest; at + 3 <= |h| && h[at..at + 3] == " — "
    ensures |before| + |number| <= at
  {
    var h := before + number + rest;
    assert forall j :: 0 <= j < |number| ==> h[|before| + j] == number[j] != ' ';
    assert h[at] == h[at..at + 3][0] == ' ' && h[at] == h[|before| + (at - |before|)];
  }

  /** An identifier that begins as one that is trimmed, and ends in a number, is trimmed itself, and so is a heading
      of it. */
  lemma HeadingIsWhole(k: Case, before: string, number: string, shown: string)
    requires CleanCase(k) && before != "" && k.id == before + number && IsNumber(number) && before <= shown
             && Trimmed(shown, IsSpace)
    ensures Trimmed(k.id, IsSpace) && k.id != ""
    ensures var h := k.id + " — " + k.title;
            TrimSpace(h) == h && Find(h, " — ").Some? && Find(h, " — ").value <= |k.id|
  {
    hide Find, Trim;
    var h := k.id + " — " + k.title;
    assert k.id[0] == before[0] == shown[0] && k.id[|k.id| - 1] == number[|number| - 1];
    assert h[0] == k.id[0] && h[|h| - 1] == k.title[|k.title| - 1];
    TrimWhole(h, IsSpace);
    FindThere(k.id, " — ");
    FindExtends(k.id + " — ", " — ", k.title);
  }

  /** Where a well-formed identifier and what its heading shows are of one contract, they are one. */
  lemma OwnIsText(repository: string, name: string, k: Case)
    requires CleanCase(k) && IdOf(repository, name, k.id) && Own(repository, name, ReadCase(k))
    ensures IdText(k.id)
  {
    hide IdOf, ParseHeading, Find, TrimSpace, CleanCase, IdText, IsNumber;
    HeadingLine(k);
    var h := k.id + " — " + k.title;
    var shown := ParseHeading(h).id;
    HeadingIsTrimmed(h);
    var n := SameUpToNumbers(repository, name, k.id);
    var m := SameUpToNumbers(repository, name, shown);
    var before := repository + ":" + name + ".";
    assert k.id == before + n && shown == before + m;
    HeadingIsWhole(k, before, n, shown);
    HeadingShape(h);
    var g := Find(h, " — ").value;
    assert h == before + n + (" — " + k.title);
    DashIsAfterNumber(before, n, " — " + k.title, g);
    KeptIsText(k);
  }

  lemma EndsInADigit(id: string)
    requires SplitIdentifier(id).Some? && IsNumber(SplitIdentifier(id).value.number)
    ensures id != "" && '0' <= id[|id| - 1] <= '9'
  {
    hide Cut, FindLast;
    var rest := Cut(id, ":").1;
    var number := SplitIdentifier(id).value.number;
    CutWhole(id, ':');
    assert number[|number| - 1] == rest[|rest| - 1];
  }

  /** A well-formed identifier is one a heading gives back exactly where it is trimmed and of one line, has no
      spaced dash of its own and does not begin as something struck out. */
  lemma IdentifierIsText(repository: string, name: string, id: string)
    requires IdOf(repository, name, id)
    ensures IdText(id) <==> Trimmed(id, IsSpace) && '\n' !in id && !("~~" <= id) && Find(id, " — ") == None
  {
    hide SplitIdentifier, Find;
    EndsInADigit(id);
    if Find(id, " — ").Some? {
      FindExtends(id, " — ", " — ");
    } else {
      DashComesAfter(id);
    }
  }

  lemma DashComesAfter(id: string)
    requires id != "" && '0' <= id[|id| - 1] <= '9' && Find(id, " — ") == None
    ensures Find(id + " — ", " — ") == Some(|id|)
  {
    hide Find;
    var dash := " — ";
    assert |dash| == 3 && dash[0] == ' ' && dash[1] == '—';
    forall i | 0 <= i < |id|
      ensures !(dash <= (id + dash + "")[i..])
    {
      FoundNowhere(id, dash, i);
      var tail := (id + dash + "")[i..];
      if |id| - i >= 3 {
        assert tail[..3] == id[i..][..3];
      } else {
        assert tail[|id| - 1 - i] == id[|id| - 1];
      }
    }
    FindFirst(id, dash, "");
    assert id + dash + "" == id + dash;
  }

  lemma OneIsANumber()
    ensures IsNumber("01")
  {
    assert "01"[0] == '0' && "01"[1] == '1';
  }

  /** A well-formed identifier with a spaced dash in its contract's name, which a heading does not give back. */
  lemma DashedIdentifierIsLost()
    ensures IdOf("r", "x — y", "r:x — y.01") && !IdText("r:x — y.01")
  {
    hide SplitIdentifier, Find, IdText, IsNumber;
    OneIsANumber();
    assert "r" + ":" + "x — y" + "." + "01" == "r:x — y.01";
    IdentifierReads(Identifier("r", "x — y", "01"));
    FindThere("r:x", " — ");
    FindExtends("r:x" + " — ", " — ", "y.01");
    assert "r:x" + " — " + "y.01" == "r:x — y.01";
    IdentifierIsText("r", "x — y", "r:x — y.01");
  }

  /** And one whose repository's name begins with two tildes. */
  lemma TildedIdentifierIsLost()
    ensures IdOf("~~r", "x", "~~r:x.01") && !IdText("~~r:x.01")
  {
    hide SplitIdentifier, Find, IsNumber;
    OneIsANumber();
    assert "~~r" + ":" + "x" + "." + "01" == "~~r:x.01";
    IdentifierReads(Identifier("~~r", "x", "01"));
  }
}
