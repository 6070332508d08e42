/** Semantic versions, their precedence, and the ranges written over them. Precedence is section 11 of
    Semantic Versioning 2.0.0. A range is one or more comparators read from text, all of which must hold;
    that every range is convex, and what a shortened comparator means, are proved of all that is accepted. */
module Versions {
  import opened Prelude
  import opened Text

  /** A version as its parts were written; numbers are kept as digits. */
  datatype Version = Version(major: string, minor: string, patch: string, pre: seq<string>, build: seq<string>)

  predicate IsDigit(c: char) { '0' <= c <= '9' }

  predicate Digits(s: string) { forall i :: 0 <= i < |s| ==> IsDigit(s[i]) }

  predicate Numeric(s: string) { s != "" && Digits(s) && (|s| == 1 || s[0] != '0') }

  predicate InIdentifier(c: char) { IsDigit(c) || 'a' <= c <= 'z' || 'A' <= c <= 'Z' || c == '-' }

  predicate Identifier(s: string) { s != "" && forall i :: 0 <= i < |s| ==> InIdentifier(s[i]) }

  predicate PreIdentifier(s: string) { Identifier(s) && (Digits(s) ==> Numeric(s)) }

  ghost predicate WellFormed(v: Version) {
    && Numeric(v.major) && Numeric(v.minor) && Numeric(v.patch)
    && (forall i :: 0 <= i < |v.pre| ==> PreIdentifier(v.pre[i]))
    && (forall i :: 0 <= i < |v.build| ==> Identifier(v.build[i]))
  }

  function Core(v: Version): string { v.major + "." + v.minor + "." + v.patch }

  function Front(v: Version): string {
    if v.pre == [] then Core(v) else Core(v) + "-" + Join(v.pre, ".")
  }

  function Written(v: Version): string {
    if v.build == [] then Front(v) else Front(v) + "+" + Join(v.build, ".")
  }

  /** Reads a version strictly: three numbers without leading zeros, perhaps a pre-release, perhaps build
      metadata, and nothing else. */
  function Parse(s: string): Option<Version> {
    var (front, build, built) := Cut(s, "+");
    var (core, pre, early) := Cut(front, "-");
    var numbers, ps, bs := Split(core, '.'), Split(pre, '.'), Split(build, '.');
    if && |numbers| == 3 && Numeric(numbers[0]) && Numeric(numbers[1]) && Numeric(numbers[2])
       && (early ==> forall i :: 0 <= i < |ps| ==> PreIdentifier(ps[i]))
       && (built ==> forall i :: 0 <= i < |bs| ==> Identifier(bs[i]))
    then Some(Version(numbers[0], numbers[1], numbers[2], if early then ps else [], if built then bs else []))
    else None
  }

  // ----- Parsing reads exactly the versions -----

  lemma {:induction false} JoinHas(parts: seq<string>, sep: string, c: char)
    requires c in Join(parts, sep)
    ensures c in sep || exists i :: 0 <= i < |parts| && c in parts[i]
  {
    if |parts| > 1 && c !in parts[0] && c !in sep {
      JoinHas(parts[1..], sep, c);
      if i :| 0 <= i < |parts[1..]| && c in parts[1..][i] {
        assert c in parts[i + 1];
      }
    }
  }

  lemma IdentifiersHaveNoPlus(parts: seq<string>)
    requires forall i :: 0 <= i < |parts| ==> Identifier(parts[i])
    ensures '+' !in Join(parts, ".") && forall i :: 0 <= i < |parts| ==> '.' !in parts[i]
  {
    if '+' in Join(parts, ".") { JoinHas(parts, ".", '+'); }
  }

  lemma CoreIsPlain(v: Version)
    requires WellFormed(v)
    ensures '+' !in Core(v) && '-' !in Core(v)
    ensures Split(Core(v), '.') == [v.major, v.minor, v.patch]
  {
    hide Split;
    assert Core(v) == v.major + ['.'] + (v.minor + ['.'] + v.patch);
    SplitFirst(v.major, '.', v.minor + ['.'] + v.patch);
    SplitFirst(v.minor, '.', v.patch);
    SplitWhole(v.patch, '.');
  }

  lemma FrontCuts(v: Version)
    requires WellFormed(v)
    ensures '+' !in Front(v)
    ensures Cut(Front(v), "-") == if v.pre == [] then (Core(v), "", false) else (Core(v), Join(v.pre, "."), true)
  {
    CoreIsPlain(v);
    IdentifiersHaveNoPlus(v.pre);
    CutNone(Core(v), '-');
    CutChar(Core(v), '-', Join(v.pre, "."));
  }

  lemma WrittenCuts(v: Version)
    requires WellFormed(v)
    ensures Cut(Written(v), "+") == if v.build == [] then (Front(v), "", false)
            else (Front(v), Join(v.build, "."), true)
  {
    hide Front, Cut;
    FrontCuts(v);
    CutNone(Front(v), '+');
    CutChar(Front(v), '+', Join(v.build, "."));
  }

  /** A version reads back as itself. */
  lemma WrittenParses(v: Version)
    requires WellFormed(v)
    ensures Parse(Written(v)) == Some(v)
  {
    hide Cut, Written, Front, Core, Join, Split;
    WrittenCuts(v);
    FrontCuts(v);
    CoreIsPlain(v);
    IdentifiersHaveNoPlus(v.pre);
    IdentifiersHaveNoPlus(v.build);
    if v.pre != [] { JoinSplits(v.pre, '.'); }
    if v.build != [] { JoinSplits(v.build, '.'); }
  }

  lemma CoreIsJoined(v: Version)
    ensures Join([v.major, v.minor, v.patch], ".") == Core(v)
  {
    var n := [v.major, v.minor, v.patch];
    assert n[1..] == [v.minor, v.patch] && n[1..][1..] == [v.patch];
    assert Join(n[1..], ".") == v.minor + "." + v.patch;
    assert Core(v) == v.major + "." + (v.minor + "." + v.patch);
  }

  /** Whatever parses was a well-formed version written out. */
  lemma ParsedIsWritten(s: string)
    requires Parse(s).Some?
    ensures WellFormed(Parse(s).value) && Written(Parse(s).value) == s
  {
    hide Cut, Core, Join, Split;
    var v := Parse(s).value;
    var (front, build, built) := Cut(s, "+");
    var (core, pre, early) := Cut(front, "-");
    CutWhole(s, '+');
    CutWhole(front, '-');
    SplitParts(core, '.');
    SplitParts(pre, '.');
    SplitParts(build, '.');
    assert Split(core, '.') == [v.major, v.minor, v.patch];
    CoreIsJoined(v);
  }

  // ----- Precedence -----

  function CompareNumbers(x: string, y: string): int {
    if x == y then 0
    else if |x| != |y| then (if |x| < |y| then -1 else 1)
    else if Before(x, y) then -1 else 1
  }

  function CompareIdentifiers(x: string, y: string): int {
    if x == y then 0
    else if Digits(x) != Digits(y) then (if Digits(x) then -1 else 1)
    else if Digits(x) then CompareNumbers(x, y)
    else if Before(x, y) then -1 else 1
  }

  function CompareLists(x: seq<string>, y: seq<string>): int {
    if x == [] then (if y == [] then 0 else -1)
    else if y == [] then 1
    else if x[0] != y[0] then CompareIdentifiers(x[0], y[0])
    else CompareLists(x[1..], y[1..])
  }

  function ComparePre(x: seq<string>, y: seq<string>): int {
    if x == y then 0
    else if x == [] then 1
    else if y == [] then -1
    else CompareLists(x, y)
  }

  function Compare(v: Version, w: Version): int {
    if v.major != w.major then CompareNumbers(v.major, w.major)
    else if v.minor != w.minor then CompareNumbers(v.minor, w.minor)
    else if v.patch != w.patch then CompareNumbers(v.patch, w.patch)
    else ComparePre(v.pre, w.pre)
  }

  function Value(s: string): nat
    requires Digits(s)
  {
    if s == "" then 0 else 10 * Value(s[..|s| - 1]) + (s[|s| - 1] as int - '0' as int)
  }

  /** Precedence as section 11 of Semantic Versioning 2.0.0 words it. */
  ghost predicate IdentifierPrecedes(x: string, y: string) {
    if Digits(x) && Digits(y) then Value(x) < Value(y)
    else if Digits(x) || Digits(y) then Digits(x)
    else Before(x, y)
  }

  ghost predicate PreIsLower(x: seq<string>, y: seq<string>) {
    || (x != [] && y == [])
    || (x != [] && x < y)
    || (exists k :: 0 <= k < |x| && k < |y| && x[..k] == y[..k] && IdentifierPrecedes(x[k], y[k]))
  }

  ghost predicate Precedes(v: Version, w: Version)
    requires WellFormed(v) && WellFormed(w)
  {
    var (a, b, c) := (Value(v.major), Value(v.minor), Value(v.patch));
    var (x, y, z) := (Value(w.major), Value(w.minor), Value(w.patch));
    a < x || (a == x && (b < y || (b == y && (c < z || (c == z && PreIsLower(v.pre, w.pre))))))
  }

  lemma {:induction false} BeforeByLast(a: string, b: string, c: char, d: char)
    requires |a| == |b|
    ensures Before(a + [c], b + [d]) <==> Before(a, b) || (a == b && c < d)
  {
    if a != "" {
      BeforeByLast(a[1..], b[1..], c, d);
      assert (a + [c])[1..] == a[1..] + [c] && (b + [d])[1..] == b[1..] + [d];
      assert a == [a[0]] + a[1..] && b == [b[0]] + b[1..];
    }
  }

  lemma {:induction false} ValueBySize(x: string, y: string)
    requires Digits(x) && Digits(y) && |x| < |y| && y[0] != '0'
    ensures Value(x) < Value(y)
  {
    var front := y[..|y| - 1];
    if x != "" {
      ValueBySize(x[..|x| - 1], front);
    } else if |y| > 1 {
      ValueBySize("", front);
    }
  }

  lemma {:induction false} ValueByOrder(x: string, y: string)
    requires Digits(x) && Digits(y) && |x| == |y|
    ensures Before(x, y) <==> Value(x) < Value(y)
    ensures x == y <==> Value(x) == Value(y)
  {
    if x != "" {
      var a, b := x[..|x| - 1], y[..|y| - 1];
      ValueByOrder(a, b);
      BeforeByLast(a, b, x[|x| - 1], y[|y| - 1]);
      assert x == a + [x[|x| - 1]] && y == b + [y[|y| - 1]];
    }
  }

  /** Comparing lengths and then digits is comparing the numbers. */
  lemma NumbersByValue(x: string, y: string)
    requires Numeric(x) && Numeric(y)
    ensures CompareNumbers(x, y) == if Value(x) < Value(y) then -1 else if Value(x) > Value(y) then 1 else 0
    ensures Value(x) == Value(y) <==> x == y
  {
    if |x| < |y| {
      ValueBySize(x, y);
    } else if |x| > |y| {
      ValueBySize(y, x);
    } else {
      ValueByOrder(x, y);
    }
  }

  lemma IdentifiersByPrecedence(x: string, y: string)
    requires PreIdentifier(x) && PreIdentifier(y)
    ensures CompareIdentifiers(x, y) == if IdentifierPrecedes(x, y) then -1 else if IdentifierPrecedes(y, x) then 1
            else 0
    ensures CompareIdentifiers(x, y) == 0 <==> x == y
    ensures CompareIdentifiers(x, y) == -CompareIdentifiers(y, x)
  {
    if Digits(x) && Digits(y) {
      NumbersByValue(x, y);
      NumbersByValue(y, x);
    } else {
      BeforeIsTotal(x, y);
      if Before(x, y) { BeforeIsAsymmetric(x, y); }
      if Before(y, x) { BeforeIsAsymmetric(y, x); }
    }
  }

  ghost predicate PreList(x: seq<string>) {
    forall i :: 0 <= i < |x| ==> PreIdentifier(x[i])
  }

  lemma {:induction false} ListsByPrecedence(x: seq<string>, y: seq<string>)
    requires PreList(x) && PreList(y) && x != [] && y != []
    ensures CompareLists(x, y) == if x == y then 0 else if PreIsLower(x, y) then -1 else 1
    ensures CompareLists(x, y) == -CompareLists(y, x)
  {
    IdentifiersByPrecedence(x[0], y[0]);
    if x[0] != y[0] {
      FirstDecides(x, y);
      FirstDecides(y, x);
    } else if |x| > 1 && |y| > 1 {
      ListsByPrecedence(x[1..], y[1..]);
      LowerTails(x, y);
      assert x == [x[0]] + x[1..] && y == [y[0]] + y[1..];
    } else {
      assert x == [x[0]] + x[1..] && y == [y[0]] + y[1..];
      IdentifiersByPrecedence(x[0], x[0]);
    }
  }

  lemma FirstDecides(x: seq<string>, y: seq<string>)
    requires x != [] && y != [] && x[0] != y[0]
    ensures PreIsLower(x, y) <==> IdentifierPrecedes(x[0], y[0])
  {
    assert x[..0] == y[..0];
    forall k | 0 < k <= |x| && k <= |y|
      ensures x[..k] != y[..k]
    {
      assert x[..k][0] != y[..k][0];
    }
  }

  lemma LowerTails(x: seq<string>, y: seq<string>)
    requires |x| > 1 && |y| > 1 && x[0] == y[0] && !IdentifierPrecedes(x[0], y[0])
    ensures PreIsLower(x, y) <==> PreIsLower(x[1..], y[1..])
  {
    var a, b := x[1..], y[1..];
    assert x == [x[0]] + a && y == [y[0]] + b;
    if k :| 0 <= k < |x| && k < |y| && x[..k] == y[..k] && IdentifierPrecedes(x[k], y[k]) {
      assert a[..k - 1] == x[..k][1..] && b[..k - 1] == y[..k][1..];
      assert IdentifierPrecedes(a[k - 1], b[k - 1]);
    }
    if k :| 0 <= k < |a| && k < |b| && a[..k] == b[..k] && IdentifierPrecedes(a[k], b[k]) {
      assert x[..k + 1] == [x[0]] + a[..k] && y[..k + 1] == [y[0]] + b[..k];
      assert IdentifierPrecedes(x[k + 1], y[k + 1]);
    }
  }

  /** Comparing is precedence by section 11 of Semantic Versioning 2.0.0, and build metadata plays no part. */
  lemma CompareIsPrecedence(v: Version, w: Version)
    requires WellFormed(v) && WellFormed(w)
    ensures Compare(v, w) < 0 <==> Precedes(v, w)
    ensures Compare(v, w) > 0 <==> Precedes(w, v)
    ensures Compare(v, w) == 0 <==> v.(build := []) == w.(build := [])
  {
    NumbersByValue(v.major, w.major);
    NumbersByValue(v.minor, w.minor);
    NumbersByValue(v.patch, w.patch);
    PreByPrecedence(v.pre, w.pre);
  }

  lemma PreByPrecedence(x: seq<string>, y: seq<string>)
    requires PreList(x) && PreList(y)
    ensures ComparePre(x, y) == 0 <==> x == y
    ensures ComparePre(x, y) < 0 <==> PreIsLower(x, y)
    ensures ComparePre(x, y) > 0 <==> PreIsLower(y, x)
    ensures ComparePre(x, y) == -ComparePre(y, x)
  {
    if x != [] && y != [] {
      ListsByPrecedence(x, y);
      ListsByPrecedence(y, x);
    }
    if x == y { NotLowerThanItself(x); }
  }

  lemma NotLowerThanItself(x: seq<string>)
    requires PreList(x)
    ensures !PreIsLower(x, x)
  {
    forall k | 0 <= k < |x|
      ensures !IdentifierPrecedes(x[k], x[k])
    {
      IdentifiersByPrecedence(x[k], x[k]);
    }
  }

  lemma IdentifiersAreTransitive(x: string, y: string, z: string)
    requires PreIdentifier(x) && PreIdentifier(y) && PreIdentifier(z)
    requires CompareIdentifiers(x, y) < 0 && CompareIdentifiers(y, z) < 0
    ensures CompareIdentifiers(x, z) < 0
  {
    IdentifiersByPrecedence(x, y);
    IdentifiersByPrecedence(y, z);
    IdentifiersByPrecedence(x, z);
    if !Digits(x) && !Digits(y) && !Digits(z) { BeforeIsTransitive(x, y, z); }
  }

  lemma {:induction false} ListsAreTransitive(x: seq<string>, y: seq<string>, z: seq<string>)
    requires PreList(x) && PreList(y) && PreList(z)
    requires CompareLists(x, y) < 0 && CompareLists(y, z) < 0
    ensures CompareLists(x, z) < 0
  {
    if x != [] {
      var a, b, c := x[0], y[0], z[0];
      IdentifiersByPrecedence(a, b);
      IdentifiersByPrecedence(b, c);
      if a == b && b == c {
        ListsAreTransitive(x[1..], y[1..], z[1..]);
      } else if a != b && b != c {
        IdentifiersAreTransitive(a, b, c);
        IdentifiersByPrecedence(a, c);
      }
    }
  }

  lemma PreIsTransitive(x: seq<string>, y: seq<string>, z: seq<string>)
    requires PreList(x) && PreList(y) && PreList(z)
    requires ComparePre(x, y) < 0 && ComparePre(y, z) < 0
    ensures ComparePre(x, z) < 0
  {
    PreByPrecedence(x, y);
    PreByPrecedence(y, z);
    if x != [] && z != [] {
      ListsAreTransitive(x, y, z);
      ListsByPrecedence(x, z);
    }
  }

  /** Comparison is a total preorder. */
  lemma CompareIsTotalPreorder(u: Version, v: Version, w: Version)
    requires WellFormed(u) && WellFormed(v) && WellFormed(w)
    ensures Compare(v, w) == -Compare(w, v)
    ensures Compare(u, v) <= 0 && Compare(v, w) <= 0 ==> Compare(u, w) <= 0
  {
    Antisymmetric(v, w);
    if Compare(u, v) <= 0 && Compare(v, w) <= 0 { Transitive(u, v, w); }
  }

  lemma Antisymmetric(v: Version, w: Version)
    requires WellFormed(v) && WellFormed(w)
    ensures Compare(v, w) == -Compare(w, v)
  {
    NumbersByValue(v.major, w.major);
    NumbersByValue(w.major, v.major);
    NumbersByValue(v.minor, w.minor);
    NumbersByValue(w.minor, v.minor);
    NumbersByValue(v.patch, w.patch);
    NumbersByValue(w.patch, v.patch);
    PreByPrecedence(v.pre, w.pre);
  }

  lemma Transitive(u: Version, v: Version, w: Version)
    requires WellFormed(u) && WellFormed(v) && WellFormed(w)
    requires Compare(u, v) <= 0 && Compare(v, w) <= 0
    ensures Compare(u, w) <= 0
  {
    hide CompareNumbers, ComparePre, Value, Numeric;
    NumbersTriple(u.major, v.major, w.major);
    NumbersTriple(u.minor, v.minor, w.minor);
    NumbersTriple(u.patch, v.patch, w.patch);
    PreByPrecedence(u.pre, v.pre);
    PreByPrecedence(v.pre, w.pre);
    PreByPrecedence(u.pre, w.pre);
    if u.pre != v.pre && v.pre != w.pre && ComparePre(u.pre, v.pre) < 0 && ComparePre(v.pre, w.pre) < 0 {
      PreIsTransitive(u.pre, v.pre, w.pre);
    }
  }

  lemma NumbersTriple(x: string, y: string, z: string)
    requires Numeric(x) && Numeric(y) && Numeric(z)
    ensures CompareNumbers(x, y) <= 0 && CompareNumbers(y, z) <= 0 ==> CompareNumbers(x, z) <= 0
    ensures CompareNumbers(x, y) <= 0 && CompareNumbers(y, z) <= 0 && x == z ==> x == y
    ensures (CompareNumbers(x, y) == 0 <==> x == y) && (CompareNumbers(y, z) == 0 <==> y == z)
  {
    NumbersByValue(x, y);
    NumbersByValue(y, z);
    NumbersByValue(x, z);
  }

  // ----- Ranges -----

  datatype Operator = AtLeast | AtMost | Above | Below | Exactly

  datatype Comparator = Comparator(op: Operator, v: Version) {
    predicate Holds(w: Version) {
      var n := Compare(w, v);
      match op
      case AtLeast => n >= 0
      case Above => n > 0
      case AtMost => n <= 0
      case Below => n < 0
      case Exactly => n == 0
    }
  }

  predicate Contains(r: seq<Comparator>, v: Version) {
    (forall i :: 0 <= i < |r| ==> r[i].Holds(v)) && |r| > 0
  }

  /** What each operator admits, by precedence: versions that differ only in build metadata are one. */
  lemma AdmittedExactlyWhen(c: Comparator, w: Version)
    requires WellFormed(c.v) && WellFormed(w)
    ensures c.Holds(w)
            <==> match c.op
                 case AtLeast => !Precedes(w, c.v)
                 case Above => Precedes(c.v, w)
                 case AtMost => !Precedes(c.v, w)
                 case Below => Precedes(w, c.v)
                 case Exactly => w.(build := []) == c.v.(build := [])
  {
    hide Compare, Precedes, WellFormed;
    CompareIsPrecedence(w, c.v);
  }

  /** What an unsigned 64-bit number is read from, leading zeros refused. */
  predicate Part(s: string) {
    s != "" && Digits(s) && Value(s) < TWO_64 && !(|s| > 1 && s[0] == '0')
  }

  function ZeroFilled(s: string): string {
    var parts := Split(s, '.');
    Join(if |parts| == 1 then parts + ["0", "0"] else if |parts| == 2 then parts + ["0"] else parts, ".")
  }

  /** Reads a version that may leave its minor and patch numbers out, taking them for zero. */
  method Partial(s: string) returns (v: Option<Version>)
    ensures v == ReadPartial(s)
  {
    v := Parse(s);
    if v.Some? {
      return;
    }
    var parts := Split(s, '.');
    if |parts| > 2 {
      return None;
    }
    for i := 0 to |parts|
      invariant forall k :: 0 <= k < i ==> Part(parts[k])
    {
      if !Part(parts[i]) {
        return None;
      }
    }
    ghost var given := parts;
    while |parts| < 3
      invariant |given| <= |parts| <= 3
      invariant parts == given + seq(|parts| - |given|, _ => "0")
    {
      parts := parts + ["0"];
    }
    assert parts == if |given| == 1 then given + ["0", "0"] else given + ["0"];
    return Parse(Join(parts, "."));
  }

  ghost function ReadPartial(s: string): Option<Version> {
    var parts := Split(s, '.');
    if Parse(s).Some? then Parse(s)
    else if |parts| <= 2 && forall i :: 0 <= i < |parts| ==> Part(parts[i]) then Parse(ZeroFilled(s))
    else None
  }

  lemma CoreSplits(a: string, b: string, c: string)
    requires Numeric(a) && Numeric(b) && Numeric(c)
    ensures Parse(Join([a, b, c], ".")) == Some(Version(a, b, c, [], []))
  {
    var v := Version(a, b, c, [], []);
    CoreIsJoined(v);
    WrittenParses(v);
  }

  /** A shortened version stands for its zeros exactly where its numbers fit 64 bits: one that does not is
      refused, though written out in full it is a version. */
  lemma ShortIsZeroFilledExactlyWhen(s: string)
    requires |Split(s, '.')| <= 2 && forall i :: 0 <= i < |Split(s, '.')| ==> Numeric(Split(s, '.')[i])
    ensures var parts := Split(s, '.');
            && Parse(s) == None
            && Parse(ZeroFilled(s)) == Some(Version(parts[0], if |parts| == 2 then parts[1] else "0", "0", [], []))
            && (ReadPartial(s) == Parse(ZeroFilled(s)) <==> forall i :: 0 <= i < |parts| ==> Value(parts[i]) < TWO_64)
  {
    hide Parse, Split, Join, Value;
    var parts := Split(s, '.');
    ShortDoesNotParse(s);
    if |parts| == 1 {
      assert parts + ["0", "0"] == [parts[0], "0", "0"];
      CoreSplits(parts[0], "0", "0");
    } else {
      assert parts + ["0"] == [parts[0], parts[1], "0"];
      CoreSplits(parts[0], parts[1], "0");
    }
  }

  lemma {:induction false} DotsAddParts(a: string, b: string)
    ensures |Split(a + b, '.')| == |Split(a, '.')| + |Split(b, '.')| - 1
  {
    if a == "" {
      assert a + b == b;
    } else {
      DotsAddParts(a[1..], b);
      assert (a + b)[1..] == a[1..] + b;
    }
  }

  /** A version has at least its three parts. */
  lemma ShortDoesNotParse(s: string)
    requires |Split(s, '.')| <= 2
    ensures Parse(s) == None
  {
    hide Parse, Split, WellFormed, Core;
    if Parse(s).Some? {
      var v := Parse(s).value;
      ParsedIsWritten(s);
      CoreIsPlain(v);
      assert Front(v) == Core(v) + Front(v)[|Core(v)|..] && s == Front(v) + s[|Front(v)|..];
      DotsAddParts(Core(v), Front(v)[|Core(v)|..]);
      DotsAddParts(Front(v), s[|Front(v)|..]);
      assert false;
    }
  }

  /** A number of 2^64 or more as a comparator's only one is refused; written out in full it is a version. */
  lemma OutsizedComparatorIsRefused(s: string)
    requires Numeric(s) && Value(s) >= TWO_64
    ensures ReadComparator(">=" + s) == None
    ensures ReadComparator(">=" + (s + ".0.0")) == Some(Comparator(AtLeast, Version(s, "0", "0", [], [])))
  {
    hide Value, Parse, Split, WellFormed;
    SplitWhole(s, '.');
    ShortIsZeroFilledExactlyWhen(s);
    assert [s] + ["0", "0"] == [s, "0", "0"];
    assert [s, "0", "0"][1..] == ["0", "0"] && ["0", "0"][1..] == ["0"];
    assert Join(["0", "0"], ".") == "0.0" && Join([s, "0", "0"], ".") == s + ".0.0";
    assert (">=" + s)[2..] == s && (">=" + (s + ".0.0"))[2..] == s + ".0.0";
  }

  lemma TenTimes(x: int, y: int, z: int)
    ensures 10 * (x * y) + z == x * (10 * y) + z
  {
  }

  lemma ValueOfDigit(s: string, c: char)
    requires Digits(s) && IsDigit(c)
    ensures Digits(s + [c]) && Value(s + [c]) == 10 * Value(s) + (c as int - '0' as int)
  {
    assert (s + [c])[..|s|] == s;
  }

  lemma {:induction false} ValueContinues(a: string, b: string)
    requires Digits(a) && Digits(b)
    ensures Digits(a + b) && Value(a + b) == Value(a) * Power10(|b|) + Value(b)
  {
    if b == "" {
      assert a + b == a;
    } else {
      var front, last := b[..|b| - 1], b[|b| - 1];
      ValueContinues(a, front);
      assert b == front + [last] && a + b == (a + front) + [last];
      hide Value;
      ValueOfDigit(front, last);
      ValueOfDigit(a + front, last);
      TenTimes(Value(a), Power10(|front|), Value(b));
    }
  }

  ghost function Power10(n: nat): nat {
    if n == 0 then 1 else 10 * Power10(n - 1)
  }

  lemma TenToTheTwentieth()
    ensures Power10(20) == 100_000_000_000_000_000_000
  {
    assert Power10(5) == 100_000;
    assert Power10(10) == 10_000_000_000;
    assert Power10(15) == 1_000_000_000_000_000;
  }

  lemma TwentyOneDigits()
    ensures var s := "1" + "00000000000000000000"; Numeric(s) && Value(s) >= TWO_64
  {
    hide Power10;
    TenToTheTwentieth();
    ValueContinues("1", "00000000000000000000");
    assert Value("1") == 1;
    assert ("1" + "00000000000000000000")[0] == '1';
  }

  /** One of them is 10^20. */
  lemma HugeComparatorIsRefused()
    ensures ReadComparator(">=100000000000000000000") == None
  {
    hide *;
    TwentyOneDigits();
    OutsizedComparatorIsRefused("1" + "00000000000000000000");
    assert ">=" + ("1" + "00000000000000000000") == ">=100000000000000000000";
  }

  lemma PartialIsWellFormed(s: string)
    requires ReadPartial(s).Some?
    ensures WellFormed(ReadPartial(s).value)
  {
    if Parse(s).Some? {
      ParsedIsWritten(s);
    } else {
      ParsedIsWritten(ZeroFilled(s));
    }
  }

  function Symbol(op: Operator): string {
    match op
    case AtLeast => ">="
    case AtMost => "<="
    case Above => ">"
    case Below => "<"
    case Exactly => "="
  }

  /** The operators, the longer before those they begin with. */
  const OPERATORS: seq<Operator> := [AtLeast, AtMost, Above, Below, Exactly]

  ghost function OperatorOf(f: string): Option<Operator> {
    if ">=" <= f then Some(AtLeast)
    else if "<=" <= f then Some(AtMost)
    else if ">" <= f then Some(Above)
    else if "<" <= f then Some(Below)
    else if "=" <= f then Some(Exactly)
    else None
  }

  method FindOperator(f: string) returns (op: Option<Operator>)
    ensures op == OperatorOf(f)
    ensures op.Some? ==> Symbol(op.value) <= f
  {
    for i := 0 to |OPERATORS|
      invariant forall k :: 0 <= k < i ==> !(Symbol(OPERATORS[k]) <= f)
    {
      if Symbol(OPERATORS[i]) <= f {
        assert i > 0 ==> !(Symbol(OPERATORS[0]) <= f);
        assert i > 1 ==> !(Symbol(OPERATORS[1]) <= f);
        assert i > 2 ==> !(Symbol(OPERATORS[2]) <= f);
        assert i > 3 ==> !(Symbol(OPERATORS[3]) <= f);
        return Some(OPERATORS[i]);
      }
    }
    assert !(Symbol(OPERATORS[0]) <= f) && !(Symbol(OPERATORS[1]) <= f) && !(Symbol(OPERATORS[2]) <= f);
    assert !(Symbol(OPERATORS[3]) <= f) && !(Symbol(OPERATORS[4]) <= f);
    return None;
  }

  ghost function ReadComparator(f: string): Option<Comparator> {
    match OperatorOf(f)
    case None => None
    case Some(op) =>
      match ReadPartial(f[|Symbol(op)|..])
      case None => None
      case Some(v) => Some(Comparator(op, v))
  }

  ghost function ReadRange(fields: seq<string>): Option<seq<Comparator>> {
    if fields == [] then Some([])
    else match (ReadRange(fields[..|fields| - 1]), ReadComparator(fields[|fields| - 1]))
      case (Some(cs), Some(c)) => Some(cs + [c])
      case _ => None
  }

  /** A range is read field by field, and needs at least one. */
  method ParseRange(s: string) returns (r: Option<seq<Comparator>>)
    ensures r == if Fields(s) == [] then None else ReadRange(Fields(s))
  {
    var fields := Fields(s);
    if |fields| == 0 {
      return None;
    }
    var comparators: seq<Comparator> := [];
    for i := 0 to |fields|
      invariant ReadRange(fields[..i]) == Some(comparators)
    {
      var f := fields[i];
      assert fields[..i + 1][..i] == fields[..i];
      var op := FindOperator(f);
      if op == None {
        NoneFrom(fields, i + 1);
        return None;
      }
      var v := Partial(f[|Symbol(op.value)|..]);
      if v == None {
        NoneFrom(fields, i + 1);
        return None;
      }
      comparators := comparators + [Comparator(op.value, v.value)];
    }
    assert fields[..|fields|] == fields;
    return Some(comparators);
  }

  lemma {:induction false} NoneFrom(fields: seq<string>, n: nat)
    requires n <= |fields| && ReadRange(fields[..n]) == None
    ensures ReadRange(fields) == None
    decreases |fields|
  {
    if n == |fields| {
      assert fields[..n] == fields;
    } else {
      assert fields[..|fields| - 1][..n] == fields[..n];
      NoneFrom(fields[..|fields| - 1], n);
    }
  }

  lemma {:induction false} ReadIsWellFormed(fields: seq<string>)
    requires ReadRange(fields).Some?
    ensures |ReadRange(fields).value| == |fields|
    ensures forall i :: 0 <= i < |fields| ==> WellFormed(ReadRange(fields).value[i].v)
  {
    hide WellFormed, ReadPartial;
    if fields != [] {
      var last := fields[|fields| - 1];
      ReadIsWellFormed(fields[..|fields| - 1]);
      PartialIsWellFormed(last[|Symbol(OperatorOf(last).value)|..]);
    }
  }

  lemma HoldsIsConvex(k: Comparator, a: Version, b: Version, c: Version)
    requires WellFormed(k.v) && WellFormed(a) && WellFormed(b) && WellFormed(c)
    requires k.Holds(a) && k.Holds(c) && Compare(a, b) <= 0 && Compare(b, c) <= 0
    ensures k.Holds(b)
  {
    hide Compare, WellFormed;
    var v := k.v;
    CompareIsTotalPreorder(v, a, b);
    CompareIsTotalPreorder(b, c, v);
    CompareIsTotalPreorder(a, b, v);
    CompareIsTotalPreorder(v, b, c);
    CompareIsTotalPreorder(b, v, a);
    CompareIsTotalPreorder(c, v, b);
    CompareIsTotalPreorder(a, v, b);
    CompareIsTotalPreorder(b, a, v);
  }

  /** Every range that parses is convex: what lies between two versions it contains, it contains. */
  lemma RangesAreConvex(s: string, a: Version, b: Version, c: Version)
    requires Fields(s) != [] && ReadRange(Fields(s)).Some?
    requires WellFormed(a) && WellFormed(b) && WellFormed(c)
    requires var r := ReadRange(Fields(s)).value; Contains(r, a) && Contains(r, c)
    requires Compare(a, b) <= 0 && Compare(b, c) <= 0
    ensures Contains(ReadRange(Fields(s)).value, b)
  {
    hide Compare, WellFormed, Fields, ReadRange;
    var r := ReadRange(Fields(s)).value;
    ReadIsWellFormed(Fields(s));
    forall i | 0 <= i < |r|
      ensures r[i].Holds(b)
    {
      HoldsIsConvex(r[i], a, b, c);
    }
  }

  // ----- A range reads back -----

  function WrittenComparator(c: Comparator): string { Symbol(c.op) + Written(c.v) }

  function WrittenEach(cs: seq<Comparator>): (r: seq<string>)
    ensures |r| == |cs| && forall i :: 0 <= i < |cs| ==> r[i] == WrittenComparator(cs[i])
  {
    seq(|cs|, i requires 0 <= i < |cs| => WrittenComparator(cs[i]))
  }

  lemma {:induction false} JoinIsSpaceless(parts: seq<string>)
    requires forall i :: 0 <= i < |parts| ==> Identifier(parts[i])
    ensures forall i :: 0 <= i < |Join(parts, ".")| ==> !IsSpace(Join(parts, ".")[i])
  {
    if |parts| == 1 {
    } else if parts != [] {
      JoinIsSpaceless(parts[1..]);
      assert forall i :: 0 <= i < |parts[0]| ==> InIdentifier(parts[0][i]);
    }
  }

  lemma WrittenIsAWord(c: Comparator)
    requires WellFormed(c.v)
    ensures Word(WrittenComparator(c)) && Written(c.v) != "" && IsDigit(Written(c.v)[0])
  {
    var v := c.v;
    JoinIsSpaceless(v.pre);
    JoinIsSpaceless(v.build);
    assert forall i :: 0 <= i < |Core(v)| ==> IsDigit(Core(v)[i]) || Core(v)[i] == '.';
    assert IsDigit(Core(v)[0]);
    assert forall i :: 0 <= i < |Front(v)| ==> !IsSpace(Front(v)[i]);
  }

  /** No operator is taken for one it begins with: what follows it is a digit. */
  lemma SymbolReads(op: Operator, rest: string)
    requires rest != "" && IsDigit(rest[0])
    ensures OperatorOf(Symbol(op) + rest) == Some(op) && (Symbol(op) + rest)[|Symbol(op)|..] == rest
  {
    var f := Symbol(op) + rest;
    assert f[|Symbol(op)|] == rest[0] && f[..|Symbol(op)|] == Symbol(op);
    assert f[0] == Symbol(op)[0] && (|Symbol(op)| == 2 ==> f[1] == '=');
  }

  lemma WrittenComparatorReads(c: Comparator)
    requires WellFormed(c.v)
    ensures ReadComparator(WrittenComparator(c)) == Some(c)
  {
    WrittenIsAWord(c);
    WrittenParses(c.v);
    SymbolReads(c.op, Written(c.v));
    hide Parse, Word, Split, ZeroFilled, Written, WellFormed, Symbol, OperatorOf;
  }

  /** A range written with a space between its comparators is read as those comparators, in order. */
  lemma {:induction false} WrittenRangeReads(cs: seq<Comparator>)
    requires forall i :: 0 <= i < |cs| ==> WellFormed(cs[i].v)
    ensures Fields(Join(WrittenEach(cs), " ")) == WrittenEach(cs)
    ensures ReadRange(WrittenEach(cs)) == Some(cs)
  {
    hide Word, WrittenComparator, Join, Fields, ReadComparator, WellFormed;
    forall i | 0 <= i < |cs|
      ensures Word(WrittenEach(cs)[i])
    {
      WrittenIsAWord(cs[i]);
    }
    FieldsAreWords(WrittenEach(cs));
    if cs != [] {
      var front := cs[..|cs| - 1];
      WrittenRangeReads(front);
      assert WrittenEach(cs)[..|cs| - 1] == WrittenEach(front);
      WrittenComparatorReads(cs[|cs| - 1]);
      assert cs == front + [cs[|cs| - 1]];
    }
  }
}
