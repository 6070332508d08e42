/** Cutting, splitting and trimming text, as Go's standard library does it: a
    separator cuts everywhere it stands, a first separator cuts once, white space at both ends goes, and
    fields are the words between white space. Each comes with the facts that make it readable backwards:
    parts rejoined give the text they were cut from, and parts free of the separator survive a join. */
module Text {
  import opened Prelude

  // ----- Splitting and joining -----

  function Split(s: string, sep: char): (r: seq<string>)
    ensures r != []
  {
    if s == "" then [""]
    else Led(s[0], sep, Split(s[1..], sep))
  }

  /** What one character more makes of the parts after it. */
  function Led(c: char, sep: char, rest: seq<string>): (r: seq<string>)
    requires rest != []
    ensures r != []
  {
    if c == sep then [""] + rest else [[c] + rest[0]] + rest[1..]
  }

  lemma LedAppend(c: char, sep: char, x: seq<string>, y: seq<string>)
    requires x != []
    ensures Led(c, sep, x + y) == Led(c, sep, x) + y
  {
    assert (x + y)[1..] == x[1..] + y;
  }

  function Join(parts: seq<string>, sep: string): string {
    if parts == [] then "" else if |parts| == 1 then parts[0] else parts[0] + sep + Join(parts[1..], sep)
  }

  lemma {:induction false} SplitWhole(s: string, sep: char)
    requires sep !in s
    ensures Split(s, sep) == [s]
  {
    if s != "" {
      assert s[0] in s;
      SplitWhole(s[1..], sep);
      assert s == [s[0]] + s[1..];
    }
  }

  lemma {:induction false} SplitAppend(a: string, sep: char, b: string)
    ensures Split(a + [sep] + b, sep) == Split(a, sep) + Split(b, sep)
  {
    if a == "" {
      assert a + [sep] + b == [sep] + b && ([sep] + b)[1..] == b;
    } else {
      var whole := a + [sep] + b;
      SplitAppend(a[1..], sep, b);
      assert whole[1..] == a[1..] + [sep] + b && whole[0] == a[0];
      LedAppend(a[0], sep, Split(a[1..], sep), Split(b, sep));
    }
  }

  lemma SplitFirst(a: string, sep: char, b: string)
    requires sep !in a
    ensures Split(a + [sep] + b, sep) == [a] + Split(b, sep)
  {
    SplitAppend(a, sep, b);
    SplitWhole(a, sep);
  }

  lemma {:induction false} SplitParts(s: string, sep: char)
    ensures forall i :: 0 <= i < |Split(s, sep)| ==> sep !in Split(s, sep)[i]
    ensures Join(Split(s, sep), [sep]) == s
  {
    if s != "" {
      SplitParts(s[1..], sep);
      LedJoin(s[0], sep, Split(s[1..], sep));
      assert s == [s[0]] + s[1..];
    }
  }

  lemma LedJoin(c: char, sep: char, rest: seq<string>)
    requires rest != []
    ensures Join(Led(c, sep, rest), [sep]) == [c] + Join(rest, [sep])
  {
    assert rest == [rest[0]] + rest[1..];
    if c == sep {
      assert ([""] + rest)[1..] == rest;
    } else {
      assert ([[c] + rest[0]] + rest[1..])[1..] == rest[1..];
      if |rest| > 1 {
        assert ([c] + rest[0]) + [sep] + Join(rest[1..], [sep]) == [c] + (rest[0] + [sep] + Join(rest[1..], [sep]));
      }
    }
  }

  lemma {:induction false} JoinSplits(parts: seq<string>, sep: char)
    requires parts != [] && forall i :: 0 <= i < |parts| ==> sep !in parts[i]
    ensures Split(Join(parts, [sep]), sep) == parts
  {
    if |parts| == 1 {
      SplitWhole(parts[0], sep);
      assert parts == [parts[0]];
    } else {
      JoinSplits(parts[1..], sep);
      SplitFirst(parts[0], sep, Join(parts[1..], [sep]));
      assert parts == [parts[0]] + parts[1..];
    }
  }

  // ----- Finding and cutting -----

  function Find(s: string, sub: string): (r: Option<nat>)
    ensures r.Some? ==> r.value + |sub| <= |s| && s[r.value..r.value + |sub|] == sub
  {
    if sub <= s then Some(0)
    else if s == "" then None
    else match Find(s[1..], sub)
      case Some(i) => Some(i + 1)
      case None => None
  }

  /** What comes before the first `sub` and after it, and whether there is one. */
  function Cut(s: string, sub: string): (string, string, bool) {
    match Find(s, sub)
    case Some(i) => (s[..i], s[i + |sub|..], true)
    case None => (s, "", false)
  }

  lemma {:induction false} FindFirst(a: string, sub: string, b: string)
    requires sub != "" && forall i :: 0 <= i < |a| ==> !(sub <= (a + sub + b)[i..])
    ensures Find(a + sub + b, sub) == Some(|a|)
  {
    var s := a + sub + b;
    if a == "" {
      assert sub <= s;
    } else {
      assert s[0..] == s && !(sub <= s);
      assert s[1..] == a[1..] + sub + b;
      forall i | 0 <= i < |a[1..]|
        ensures !(sub <= (a[1..] + sub + b)[i..])
      {
        assert (a[1..] + sub + b)[i..] == s[i + 1..];
      }
      FindFirst(a[1..], sub, b);
    }
  }

  lemma {:induction false} FoundNowhere(s: string, sub: string, i: nat)
    requires Find(s, sub) == None && i <= |s|
    ensures !(sub <= s[i..])
  {
    if i == 0 {
      assert s[0..] == s;
    } else {
      FoundNowhere(s[1..], sub, i - 1);
      assert s[1..][i - 1..] == s[i..];
    }
  }

  lemma CutWhole(s: string, c: char)
    ensures var (a, b, found) := Cut(s, [c]);
            if found then s == a + [c] + b else s == a
  {
    match Find(s, [c])
    case Some(i) => assert s == s[..i] + [c] + s[i + 1..];
    case None =>
  }

  lemma CutChar(a: string, c: char, b: string)
    requires c !in a
    ensures Cut(a + [c] + b, [c]) == (a, b, true)
  {
    var s := a + [c] + b;
    forall i | 0 <= i < |a|
      ensures !([c] <= s[i..])
    {
      assert s[i] == a[i];
    }
    FindFirst(a, [c], b);
    assert s[..|a|] == a && s[|a| + 1..] == b;
  }

  lemma {:induction false} CutNone(s: string, c: char)
    requires c !in s
    ensures Cut(s, [c]) == (s, "", false)
  {
    if s != "" {
      assert s[0] in s && !([c] <= s);
      CutNone(s[1..], c);
    }
  }

  // ----- Trimming -----

  predicate IsSpace(c: char) {
    || '\t' <= c <= '\r' || c == ' ' || c == '\U{85}' || c == '\U{A0}' || c == '\U{1680}'
    || '\U{2000}' <= c <= '\U{200A}'
    || c == '\U{2028}' || c == '\U{2029}' || c == '\U{202F}' || c == '\U{205F}' || c == '\U{3000}'
  }

  function WordLength(s: string): (n: nat)
    ensures n <= |s|
    ensures s != "" && !IsSpace(s[0]) ==> n > 0
  {
    if s == "" || IsSpace(s[0]) then 0 else 1 + WordLength(s[1..])
  }

  /** The runs of what is not white space. */
  function Fields(s: string): seq<string>
    decreases |s|
  {
    if s == "" then []
    else if IsSpace(s[0]) then Fields(s[1..])
    else
      var n := WordLength(s);
      [s[..n]] + Fields(s[n..])
  }

  lemma {:induction false} WordEnds(w: string, rest: string)
    requires (forall i :: 0 <= i < |w| ==> !IsSpace(w[i])) && (rest == "" || IsSpace(rest[0]))
    ensures WordLength(w + rest) == |w|
  {
    if w == "" {
      assert w + rest == rest;
    } else {
      assert (w + rest)[1..] == w[1..] + rest && (w + rest)[0] == w[0];
      WordEnds(w[1..], rest);
    }
  }

  ghost predicate Word(w: string) {
    w != "" && forall i :: 0 <= i < |w| ==> !IsSpace(w[i])
  }

  /** Words written apart are read back. */
  lemma {:induction false} FieldsAreWords(words: seq<string>)
    requires forall i :: 0 <= i < |words| ==> Word(words[i])
    ensures Fields(Join(words, " ")) == words
  {
    if words != [] {
      var w, rest := words[0], words[1..];
      FieldsAreWords(rest);
      assert words == [w] + rest;
      if rest == [] {
        WordEnds(w, "");
        assert w + "" == w && w[..|w|] == w && w[|w|..] == "";
      } else {
        var s := w + (" " + Join(rest, " "));
        WordEnds(w, " " + Join(rest, " "));
        assert s[..|w|] == w && s[|w|..] == " " + Join(rest, " ") && s[|w|..][1..] == Join(rest, " ");
        assert Join(words, " ") == s && s[0] == w[0];
      }
    }
  }

  function TrimLeft(s: string, off: char -> bool): (r: string)
    ensures |r| <= |s|
  {
    if s != "" && off(s[0]) then TrimLeft(s[1..], off) else s
  }

  function TrimRight(s: string, off: char -> bool): (r: string)
    ensures |r| <= |s|
  {
    if s != "" && off(s[|s| - 1]) then TrimRight(s[..|s| - 1], off) else s
  }

  function Trim(s: string, off: char -> bool): string {
    TrimRight(TrimLeft(s, off), off)
  }

  function TrimSpace(s: string): string {
    Trim(s, IsSpace)
  }

  /** Nothing to take off at either end. */
  predicate Trimmed(s: string, off: char -> bool) {
    s == "" || (!off(s[0]) && !off(s[|s| - 1]))
  }

  lemma {:induction false} TrimPadded(left: string, s: string, right: string, off: char -> bool)
    requires Trimmed(s, off) && s != ""
    requires (forall c :: c in left ==> off(c)) && (forall c :: c in right ==> off(c))
    ensures Trim(left + s + right, off) == s
  {
    assert (s + right)[0] == s[0];
    TrimLeftPadded(left, s + right, off);
    TrimRightPadded(s, right, off);
    assert left + s + right == left + (s + right);
  }

  lemma {:induction false} TrimLeftPadded(left: string, s: string, off: char -> bool)
    requires (forall c :: c in left ==> off(c)) && s != "" && !off(s[0])
    ensures TrimLeft(left + s, off) == s
  {
    if left == "" {
      assert left + s == s;
    } else {
      assert (left + s)[1..] == left[1..] + s;
      TrimLeftPadded(left[1..], s, off);
    }
  }

  lemma {:induction false} TrimRightPadded(s: string, right: string, off: char -> bool)
    requires (forall c :: c in right ==> off(c)) && s != "" && !off(s[|s| - 1])
    ensures TrimRight(s + right, off) == s
  {
    if right == "" {
      assert s + right == s;
    } else {
      var t := s + right;
      assert t[..|t| - 1] == s + right[..|right| - 1] && t[|t| - 1] == right[|right| - 1];
      TrimRightPadded(s, right[..|right| - 1], off);
    }
  }

  lemma {:induction false} TrimLeftEnds(s: string, off: char -> bool)
    ensures var r := TrimLeft(s, off); r == "" || !off(r[0])
    ensures forall c :: c in TrimLeft(s, off) ==> c in s
  {
    if s != "" && off(s[0]) { TrimLeftEnds(s[1..], off); }
  }

  lemma {:induction false} TrimRightEnds(s: string, off: char -> bool)
    ensures var r := TrimRight(s, off); r <= s && (r == "" || !off(r[|r| - 1]))
    ensures s != "" && !off(s[0]) ==> TrimRight(s, off) != ""
  {
    if s != "" && off(s[|s| - 1]) { TrimRightEnds(s[..|s| - 1], off); }
  }

  /** What is left has nothing to take off and nothing new; where nothing goes at the front, it is a beginning. */
  lemma TrimEnds(s: string, off: char -> bool)
    ensures Trimmed(Trim(s, off), off)
    ensures forall c :: c in Trim(s, off) ==> c in s
    ensures s != "" && !off(s[0]) ==> Trim(s, off) != "" && Trim(s, off) <= s
  {
    TrimLeftEnds(s, off);
    TrimRightEnds(TrimLeft(s, off), off);
  }

  predicate HasSuffix(s: string, suffix: string) {
    |suffix| <= |s| && s[|s| - |suffix|..] == suffix
  }

  lemma {:induction false} FindExtends(s: string, sub: string, t: string)
    requires Find(s, sub).Some?
    ensures Find(s + t, sub) == Find(s, sub)
  {
    if sub <= s {
      assert sub <= s + t;
    } else {
      assert (s + t)[..|sub|] == s[..|sub|];
      assert (s + t)[1..] == s[1..] + t;
      FindExtends(s[1..], sub, t);
    }
  }

  lemma {:induction false} FindThere(a: string, sub: string)
    ensures Find(a + sub, sub).Some? && Find(a + sub, sub).value <= |a|
  {
    if a == "" {
      assert a + sub == sub;
    } else if !(sub <= a + sub) {
      assert (a + sub)[1..] == a[1..] + sub;
      FindThere(a[1..], sub);
    }
  }

  // ----- Lines -----

  /** Each line with its end. */
  function Unlines(lines: seq<string>): string {
    if lines == [] then "" else lines[0] + "\n" + Unlines(lines[1..])
  }

  lemma {:induction false} UnlinesAppend(a: seq<string>, b: seq<string>)
    ensures Unlines(a + b) == Unlines(a) + Unlines(b)
  {
    if a == [] {
      assert a + b == b;
    } else {
      UnlinesAppend(a[1..], b);
      assert (a + b)[1..] == a[1..] + b;
    }
  }

  lemma {:induction false} UnlinesSplit(lines: seq<string>)
    requires forall i :: 0 <= i < |lines| ==> '\n' !in lines[i]
    ensures Split(Unlines(lines), '\n') == lines + [""]
  {
    if lines != [] {
      UnlinesSplit(lines[1..]);
      SplitFirst(lines[0], '\n', Unlines(lines[1..]));
      assert lines == [lines[0]] + lines[1..];
    }
  }
}
