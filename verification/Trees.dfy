/** A document's tree, and what setting a field and removing a node make of it. */
module Trees {
  import opened Prelude

  datatype Kind = Mapping | Sequence | Scalar | Alias

  /** A node as it was parsed. A mapping's content is its keys and its values, by turns; `flow` says it is
      written in flow form. */
  datatype Tree = Tree(kind: Kind, value: string, flow: bool, content: seq<Tree>)

  const EMPTY_MAPPING := Tree(Mapping, "", false, [])

  function Key(key: string): Tree { Tree(Scalar, key, false, []) }

  // ----- Finding -----

  /** Where the value under a key is, looking from an even place on. */
  function Seek(content: seq<Tree>, key: string, i: nat): (r: Option<nat>)
    ensures r.Some? ==> i < r.value < |content| && content[r.value - 1].value == key
    decreases |content| - i
  {
    if i + 1 >= |content| then None
    else if content[i].value == key then Some(i + 1)
    else Seek(content, key, i + 2)
  }

  function At(m: Tree, key: string): (r: Option<nat>)
    ensures r.Some? ==> 0 < r.value < |m.content|
  {
    Seek(m.content, key, 0)
  }

  function Digit(c: char): nat
    requires '0' <= c <= '9'
  {
    (c as int) - 48
  }

  function Digits(s: string): Option<nat> {
    if s == "" then Some(0)
    else if s[|s| - 1] < '0' || s[|s| - 1] > '9' then None
    else match Digits(s[..|s| - 1])
      case None => None
      case Some(n) => Some(10 * n + Digit(s[|s| - 1]))
  }

  /** A signed 64-bit number in decimal. */
  function Atoi(s: string): Option<int> {
    var negative := s != "" && s[0] == '-';
    var digits := if s != "" && (s[0] == '-' || s[0] == '+') then s[1..] else s;
    if digits == "" || Digits(digits) == None then None
    else
      var size: int := Digits(digits).value;
      var n := if negative then -size else size;
      if -TWO_63 <= n < TWO_63 then Some(n) else None
  }

  function Place(n: Tree, key: string): (r: Option<nat>)
    ensures r.Some? ==> r.value < |n.content|
  {
    if n.kind == Sequence && Atoi(key).Some? && 0 <= Atoi(key).value < |n.content| then Some(Atoi(key).value) else None
  }

  /** Where the node under a key is in a mapping, or at an index in a sequence. */
  function ChildAt(n: Tree, key: string): (r: Option<nat>)
    ensures r.Some? ==> r.value < |n.content|
  {
    if n.kind == Mapping then At(n, key) else Place(n, key)
  }

  function Walk(n: Tree, path: seq<string>): Option<Tree>
    decreases |path|
  {
    if path == [] then Some(n)
    else match ChildAt(n, path[0])
      case None => None
      case Some(i) => Walk(n.content[i], path[1..])
  }

  // ----- Setting -----

  /** The value under a key, replaced where it is there and added at the end where it is not. */
  function Put(m: Tree, key: string, v: Tree): Tree {
    match At(m, key)
    case Some(i) => m.(content := m.content[i := v])
    case None => m.(content := m.content + [Key(key), v])
  }

  /** A mapping about to be written into: an empty one loses its flow form. */
  function Opened(m: Tree): Tree {
    if m.content == [] then m.(flow := false) else m
  }

  /** The mapping that writing under a key goes on into: what is there, or an empty one; none if what is there
      is no mapping. */
  function Under(m: Tree, key: string): Option<Tree> {
    match At(m, key)
    case None => Some(EMPTY_MAPPING)
    case Some(i) => if m.content[i].kind == Mapping then Some(Opened(m.content[i])) else None
  }

  function SetIn(m: Tree, parts: seq<string>, v: Tree): Option<Tree>
    requires parts != []
    decreases |parts|
  {
    if |parts| == 1 then Some(Put(m, parts[0], v))
    else match Under(m, parts[0])
      case None => None
      case Some(next) =>
        match SetIn(next, parts[1..], v)
        case None => None
        case Some(t) => Some(Put(m, parts[0], t))
  }

  /** Where a rule is: the list's place in the document, and the rule's in the list. */
  function Rule(root: Tree, place: string): Option<(nat, nat)> {
    match At(root, "arbitration")
    case None => None
    case Some(i) =>
      match Place(root.content[i], place)
      case None => None
      case Some(n) => Some((i, n))
  }

  function SetField(root: Tree, parts: seq<string>, v: Tree): Option<Tree>
    requires parts != [] && (parts[0] == "arbitration" ==> |parts| >= 3)
  {
    if parts[0] != "arbitration" then SetIn(root, parts, v)
    else match Rule(root, parts[1])
      case None => None
      case Some((i, n)) =>
        var rules := root.content[i];
        assert n < |rules.content|;
        match SetIn(rules.content[n], parts[2..], v)
        case None => None
        case Some(t) => Some(root.(content := root.content[i := rules.(content := rules.content[n := t])]))
  }

  // ----- Removing -----

  /** A key and its value taken out. */
  function Dropped(content: seq<Tree>, j: nat): seq<Tree>
    requires 0 < j < |content|
  {
    content[..j - 1] + content[j + 1..]
  }

  function TakeAway(n: Tree, key: string): Tree {
    match ChildAt(n, key)
    case None => n
    case Some(i) =>
      if n.kind == Mapping then n.(content := Dropped(n.content, i))
      else n.(content := n.content[..i] + n.content[i + 1..])
  }

  predicate Empty(n: Tree) {
    (n.kind == Mapping || n.kind == Sequence) && n.content == []
  }

  /** The node `depth` steps below the root without what the path names, and whether what it left is to go
      as well: a mapping or a list emptied below the document's own keys. None where nothing is there. */
  function Taken(n: Tree, parts: seq<string>, depth: nat): Option<(Tree, bool)>
    requires parts != []
    decreases |parts|
  {
    match ChildAt(n, parts[0])
    case None => None
    case Some(i) =>
      if |parts| == 1 then
        var t := TakeAway(n, parts[0]);
        Some((t, depth >= 2 && Empty(t)))
      else match Taken(n.content[i], parts[1..], depth + 1)
        case None => None
        case Some((child, gone)) =>
          if gone then
            var t := TakeAway(n, parts[0]);
            Some((t, depth >= 2 && Empty(t)))
          else Some((n.(content := n.content[i := child]), false))
  }

  predicate Holds(root: Tree, key: string, name: string) {
    match At(root, key)
    case None => false
    case Some(i) => ChildAt(root.content[i], name).Some?
  }

  /** Once no unit and no channel has the name removed, the parameters grouped under it are dropped. */
  function Ungrouped(root: Tree, parts: seq<string>): Tree {
    if |parts| == 2 && parts[0] in {"units", "channels"} && !Holds(root, "units", parts[1])
        && !Holds(root, "channels", parts[1])
    then match At(root, "parameters")
      case None => root
      case Some(i) => root.(content := root.content[i := TakeAway(root.content[i], parts[1])])
    else root
  }

  function RemoveNode(root: Tree, parts: seq<string>): Option<Tree>
    requires parts != []
  {
    match Taken(root, parts, 0)
    case None => None
    case Some((t, _)) => Some(Ungrouped(t, parts))
  }

  // ----- Keys -----

  lemma {:induction false} SeekIsFirst(content: seq<Tree>, key: string, i: nat, j: nat)
    requires Seek(content, key, i) == Some(j)
    ensures forall k :: i <= k < j - 1 && (k - i) % 2 == 0 ==> content[k].value != key
    ensures (j - i) % 2 == 1
    decreases |content| - i
  {
    if content[i].value != key { SeekIsFirst(content, key, i + 2, j); }
  }

  lemma {:induction false} SeekNowhere(content: seq<Tree>, key: string, i: nat)
    ensures Seek(content, key, i) == None
            <==> forall k :: i <= k && k + 1 < |content| && (k - i) % 2 == 0 ==> content[k].value != key
    decreases |content| - i
  {
    if i + 1 < |content| && content[i].value != key {
      SeekNowhere(content, key, i + 2);
    }
  }

  /** Writing a value leaves every key where it was. */
  lemma {:induction false} SeekAfterWrite(content: seq<Tree>, key: string, other: string, i: nat, j: nat, v: Tree)
    requires Seek(content, key, i) == Some(j)
    ensures Seek(content[j := v], other, i) == Seek(content, other, i)
    decreases |content| - i
  {
    if i + 1 < |content| && content[i].value != key && content[i].value != other {
      SeekAfterWrite(content, key, other, i + 2, j, v);
    } else if i + 1 < |content| && content[i].value == key && content[i].value != other {
      SeekUnmoved(content, other, i + 2, j, v);
    }
  }

  lemma {:induction false} SeekUnmoved(content: seq<Tree>, other: string, i: nat, j: nat, v: Tree)
    requires j < i && j < |content|
    ensures Seek(content[j := v], other, i) == Seek(content, other, i)
    decreases |content| - i
  {
    if i + 1 < |content| && content[i].value != other { SeekUnmoved(content, other, i + 2, j, v); }
  }

  lemma {:induction false} SeekAfterAppend(content: seq<Tree>, key: string, other: string, i: nat, v: Tree)
    requires |content| % 2 == 0 && i % 2 == 0 && i <= |content|
    ensures Seek(content + [Key(key), v], other, i)
            == if Seek(content, other, i).Some? then Seek(content, other, i)
               else if other == key then Some(|content| + 1) else None
    decreases |content| - i
  {
    var longer := content + [Key(key), v];
    if i + 1 < |content| && content[i].value != other {
      SeekAfterAppend(content, key, other, i + 2, v);
    } else if i == |content| {
      assert longer[i] == Key(key);
    }
  }

  /** What a mapping reads after a value was put under a key. */
  lemma PutReads(m: Tree, key: string, v: Tree, other: string)
    requires m.kind == Mapping && |m.content| % 2 == 0
    ensures var p := Put(m, key, v);
            && p.kind == Mapping && |p.content| % 2 == 0
            && (other == key ==> At(p, other).Some? && p.content[At(p, other).value] == v)
            && (other != key ==> At(p, other) == At(m, other))
            && (other != key && At(m, other).Some? ==> p.content[At(m, other).value] == m.content[At(m, other).value])
  {
    match At(m, key)
    case Some(i) =>
      SeekAfterWrite(m.content, key, other, 0, i, v);
      if other != key && At(m, other).Some? { assert At(m, other).value != i; }
    case None =>
      SeekAfterAppend(m.content, key, other, 0, v);
  }

  /** Every mapping is keys and values by turns. */
  ghost predicate WellFormed(t: Tree) {
    && (t.kind == Mapping ==> |t.content| % 2 == 0)
    && (forall i :: 0 <= i < |t.content| ==> WellFormed(t.content[i]))
  }

  // ----- A field set is reached, and what lies elsewhere is not -----

  lemma PutWalks(m: Tree, key: string, v: Tree, path: seq<string>)
    requires m.kind == Mapping && |m.content| % 2 == 0 && path != []
    ensures Walk(Put(m, key, v), path) == if path[0] == key then Walk(v, path[1..]) else Walk(m, path)
  {
    PutReads(m, key, v, path[0]);
  }

  lemma UnderIsWellFormed(m: Tree, key: string)
    requires WellFormed(m) && Under(m, key).Some?
    ensures WellFormed(Under(m, key).value) && Under(m, key).value.kind == Mapping
  {
  }

  lemma {:induction false} SetInReaches(m: Tree, parts: seq<string>, v: Tree)
    requires WellFormed(m) && m.kind == Mapping && parts != [] && SetIn(m, parts, v).Some?
    ensures Walk(SetIn(m, parts, v).value, parts) == Some(v)
    decreases |parts|
  {
    if |parts| == 1 {
      PutWalks(m, parts[0], v, parts);
    } else {
      var next := Under(m, parts[0]).value;
      UnderIsWellFormed(m, parts[0]);
      SetInReaches(next, parts[1..], v);
      PutWalks(m, parts[0], SetIn(next, parts[1..], v).value, parts);
    }
  }

  /** Two paths that part at some step, neither leading through the other. */
  ghost predicate Diverge(p: seq<string>, q: seq<string>) {
    p != [] && q != [] && (p[0] != q[0] || Diverge(p[1..], q[1..]))
  }

  /** Opening an empty mapping changes no walk into it. */
  lemma UnderWalks(m: Tree, key: string, path: seq<string>)
    requires m.kind == Mapping && Under(m, key).Some? && path != []
    ensures Walk(Under(m, key).value, path) == Walk(m, [key] + path)
  {
    assert ([key] + path)[1..] == path;
  }

  lemma {:induction false} SetInLeavesOthers(m: Tree, parts: seq<string>, v: Tree, q: seq<string>)
    requires WellFormed(m) && m.kind == Mapping && parts != [] && SetIn(m, parts, v).Some? && Diverge(parts, q)
    ensures Walk(SetIn(m, parts, v).value, q) == Walk(m, q)
    decreases |parts|
  {
    if |parts| == 1 {
      PutWalks(m, parts[0], v, q);
    } else {
      var next := Under(m, parts[0]).value;
      UnderIsWellFormed(m, parts[0]);
      PutWalks(m, parts[0], SetIn(next, parts[1..], v).value, q);
      if parts[0] == q[0] {
        SetInLeavesOthers(next, parts[1..], v, q[1..]);
        UnderWalks(m, parts[0], q[1..]);
        assert q == [q[0]] + q[1..];
      }
    }
  }

  ghost predicate IsRoot(root: Tree) {
    root.kind == Mapping && WellFormed(root)
  }

  /** A field path, as the description model shapes one: of a rule, its place and one field that is no index. */
  ghost predicate FieldPath(parts: seq<string>) {
    && parts != []
    && (parts[0] == "arbitration" ==> |parts| == 3 && Atoi(parts[2]) == None)
    && (|parts| == 2 ==> parts[0] !in {"units", "channels"})
  }

  lemma RuleIsWellFormed(root: Tree, place: string)
    requires IsRoot(root) && Rule(root, place).Some?
    ensures var (i, n) := Rule(root, place).value;
            && i < |root.content| && n < |root.content[i].content| && root.content[i].kind == Sequence
            && WellFormed(root.content[i].content[n])
  {
    var (i, n) := Rule(root, place).value;
    assert WellFormed(root.content[i]);
  }

  /** The root with one rule replaced. */
  function WithRule(root: Tree, i: nat, n: nat, t: Tree): Tree
    requires i < |root.content| && n < |root.content[i].content|
  {
    root.(content := root.content[i := root.content[i].(content := root.content[i].content[n := t])])
  }

  lemma WithRuleWalks(root: Tree, place: string, t: Tree, q: seq<string>)
    requires IsRoot(root) && Rule(root, place).Some?
    ensures var (i, n) := Rule(root, place).value;
            && i < |root.content| && n < |root.content[i].content|
            && var r := WithRule(root, i, n, t);
               (|q| > 0 && q[0] != "arbitration" ==> Walk(r, q) == Walk(root, q))
               && (|q| > 1 && q[0] == "arbitration" && Atoi(q[1]) != Atoi(place) ==> Walk(r, q) == Walk(root, q))
               && (|q| > 1 && q[0] == "arbitration" && q[1] == place ==>
                     Walk(r, q) == Walk(t, q[2..]) && Walk(root, q) == Walk(root.content[i].content[n], q[2..]))
  {
    RuleIsWellFormed(root, place);
    var (i, n) := Rule(root, place).value;
    var rules := root.content[i].(content := root.content[i].content[n := t]);
    if q != [] {
      SeekAfterWrite(root.content, "arbitration", q[0], 0, i, rules);
      if q[0] != "arbitration" && At(root, q[0]).Some? { OtherPlace(root, "arbitration", q[0]); }
      if |q| > 1 { assert q[1..][1..] == q[2..] && q[1..][0] == q[1]; }
    }
  }

  lemma OtherPlace(m: Tree, a: string, b: string)
    requires a != b && At(m, a).Some? && At(m, b).Some?
    ensures At(m, a).value != At(m, b).value
  {
  }

  /** Setting a field makes the walk along its path reach the new value, exactly where the rule it is written
      in, if it is a field of a rule, is a mapping: the place of a rule is not looked at before it is written. */
  lemma SettingReachesExactlyWhen(root: Tree, parts: seq<string>, v: Tree)
    requires IsRoot(root) && FieldPath(parts) && SetField(root, parts, v).Some?
    ensures Walk(SetField(root, parts, v).value, parts) == Some(v)
            <==> (parts[0] == "arbitration" ==>
                    var (i, n) := Rule(root, parts[1]).value;
                    i < |root.content| && n < |root.content[i].content| && root.content[i].content[n].kind == Mapping)
  {
    if parts[0] != "arbitration" {
      SetInReaches(root, parts, v);
    } else {
      RuleIsWellFormed(root, parts[1]);
      var (i, n) := Rule(root, parts[1]).value;
      var rule := root.content[i].content[n];
      var t := SetIn(rule, parts[2..], v).value;
      WithRuleWalks(root, parts[1], t, parts);
      assert t == Put(rule, parts[2], v) && t.kind == rule.kind;
      if rule.kind == Mapping {
        SetInReaches(rule, parts[2..], v);
      } else {
        assert parts[2..][0] == parts[2];
        assert ChildAt(t, parts[2]) == None;
      }
    }
  }

  /** Whatever the path leads through, where it is there at all, is a mapping. */
  ghost predicate Clear(m: Tree, parts: seq<string>) {
    forall k :: 0 < k < |parts| && Walk(m, parts[..k]).Some? ==> Walk(m, parts[..k]).value.kind == Mapping
  }

  lemma ClearBeneath(m: Tree, parts: seq<string>)
    requires m.kind == Mapping && |parts| > 1
    ensures match At(m, parts[0])
            case None => Clear(m, parts)
            case Some(i) => Clear(m, parts) <==> m.content[i].kind == Mapping && Clear(m.content[i], parts[1..])
  {
    var rest := parts[1..];
    forall k | 0 < k < |parts|
      ensures parts[..k][0] == parts[0] && parts[..k][1..] == rest[..k - 1]
    {
    }
    if At(m, parts[0]).Some? {
      var child := m.content[At(m, parts[0]).value];
      assert Walk(m, parts[..1]) == Walk(child, rest[..0]) == Some(child);
      assert forall k :: 0 < k < |parts| ==> Walk(m, parts[..k]) == Walk(child, rest[..k - 1]);
      if Clear(m, parts) {
        forall k | 0 < k < |rest| && Walk(child, rest[..k]).Some?
          ensures Walk(child, rest[..k]).value.kind == Mapping
        {
          assert Walk(m, parts[..k + 1]) == Walk(child, rest[..k + 1 - 1]);
        }
      }
    }
  }

  lemma OpenedIsClear(m: Tree, parts: seq<string>)
    ensures Clear(Opened(m), parts) <==> Clear(m, parts)
  {
    assert forall k :: 0 < k < |parts| ==> Walk(Opened(m), parts[..k]) == Walk(m, parts[..k]);
  }

  lemma {:induction false} WritesInExactlyWhen(m: Tree, parts: seq<string>, v: Tree)
    requires m.kind == Mapping && parts != []
    ensures SetIn(m, parts, v).Some? <==> Clear(m, parts)
    decreases |parts|
  {
    if |parts| > 1 {
      ClearBeneath(m, parts);
      hide Clear;
      match At(m, parts[0])
      case None => NothingBeneath(parts[1..]); WritesInExactlyWhen(EMPTY_MAPPING, parts[1..], v);
      case Some(i) =>
        if m.content[i].kind == Mapping {
          OpenedIsClear(m.content[i], parts[1..]);
          WritesInExactlyWhen(Opened(m.content[i]), parts[1..], v);
        }
    }
  }

  lemma NothingBeneath(parts: seq<string>)
    ensures Clear(EMPTY_MAPPING, parts)
  {
    assert forall k :: 0 < k < |parts| ==> Walk(EMPTY_MAPPING, parts[..k]) == None;
  }

  /** A field can be set exactly where everything there on its path is a mapping; a field of a rule, where the list of
      rules has that one. */
  lemma SetsExactlyWhen(root: Tree, parts: seq<string>, v: Tree)
    requires IsRoot(root) && FieldPath(parts)
    ensures SetField(root, parts, v).Some?
            <==> if parts[0] != "arbitration" then Clear(root, parts)
                 else && Walk(root, parts[..1]).Some? && Walk(root, parts[..1]).value.kind == Sequence
                      && Walk(root, parts[..2]).Some?
  {
    if parts[0] != "arbitration" {
      WritesInExactlyWhen(root, parts, v);
    } else {
      assert parts[..1] == [parts[0]] && parts[..2] == [parts[0], parts[1]];
      if At(root, parts[0]).Some? { TwoSteps(root, parts[0], parts[1]); }
    }
  }

  /** Two field paths part, and if they are of rules, of different rules or at the fields. */
  ghost predicate Apart(parts: seq<string>, q: seq<string>) {
    && Diverge(parts, q)
    && (parts[0] == "arbitration" == q[0] && |parts| > 1 && |q| > 1 && parts[1] != q[1] ==>
          Atoi(parts[1]) != Atoi(q[1]))
  }

  /** Where a field is set in a rule, the rule written into. */
  function RuleOf(root: Tree, parts: seq<string>): Option<Tree> {
    if parts == [] || parts[0] != "arbitration" || |parts| < 2 then None
    else match Rule(root, parts[1])
      case None => None
      case Some((i, n)) =>
        if i < |root.content| && n < |root.content[i].content| then Some(root.content[i].content[n]) else None
  }

  /** Writing under the key overwrites or adds nothing that a path names: the rule is no list, or it has the
      value there already. */
  ghost predicate Harmless(rule: Tree, key: string, v: Tree) {
    rule.kind == Sequence ==> At(rule, key).Some? && rule.content[At(rule, key).value] == v
  }

  /** A field of a rule is set in that rule and nowhere else. */
  lemma SetInRule(root: Tree, parts: seq<string>, v: Tree)
    requires IsRoot(root) && FieldPath(parts) && parts[0] == "arbitration" && SetField(root, parts, v).Some?
    ensures RuleOf(root, parts).Some? && WellFormed(RuleOf(root, parts).value)
    ensures var (i, n) := Rule(root, parts[1]).value;
            && i < |root.content| && n < |root.content[i].content|
            && RuleOf(root, parts) == Some(root.content[i].content[n])
            && SetField(root, parts, v).value == WithRule(root, i, n, Put(RuleOf(root, parts).value, parts[2], v))
  {
    RuleIsWellFormed(root, parts[1]);
    assert parts[2..] == [parts[2]];
  }

  /** In what is no mapping, what was put under a name that is no index is not reached by it; a list holds it at
      the place it was written to. */
  lemma PutElsewhere(rule: Tree, key: string, v: Tree, q: seq<string>)
    requires rule.kind != Mapping && Harmless(rule, key, v)
    ensures Walk(Put(rule, key, v), q) == if q == [] then Some(Put(rule, key, v)) else Walk(rule, q)
  {
    if rule.kind == Sequence {
      var i := At(rule, key).value;
      assert rule.content[i := v] == rule.content;
    }
  }

  lemma OthersStay(root: Tree, parts: seq<string>, v: Tree, q: seq<string>)
    requires IsRoot(root) && FieldPath(parts) && SetField(root, parts, v).Some? && Apart(parts, q)
    requires RuleOf(root, parts).Some? ==> Harmless(RuleOf(root, parts).value, parts[2], v)
    ensures Walk(SetField(root, parts, v).value, q) == Walk(root, q)
  {
    if parts[0] != "arbitration" {
      SetInLeavesOthers(root, parts, v, q);
    } else {
      SetInRule(root, parts, v);
      var rule := RuleOf(root, parts).value;
      WithRuleWalks(root, parts[1], Put(rule, parts[2], v), q);
      if q[0] == parts[0] {
        assert Diverge(parts[1..], q[1..]);
      }
      if q[0] == parts[0] && q[1] == parts[1] {
        assert parts[1..][1..] == parts[2..] && q[1..][1..] == q[2..];
        assert Diverge(parts[2..], q[2..]);
        if rule.kind == Mapping {
          SetInLeavesOthers(rule, parts[2..], v, q[2..]);
        } else {
          PutElsewhere(rule, parts[2], v, q[2..]);
        }
      }
    }
  }

  function Decimal(n: nat): (r: string)
    ensures r != "" && '0' <= r[0] <= '9'
  {
    var last := [(48 + n % 10) as char];
    if n < 10 then last else Decimal(n / 10) + last
  }

  lemma {:induction false} DecimalReads(n: nat)
    ensures Digits(Decimal(n)) == Some(n)
  {
    var r := Decimal(n);
    assert r[|r| - 1] == (48 + n % 10) as char && Digit(r[|r| - 1]) == n % 10;
    if n < 10 {
      assert r[..|r| - 1] == "";
    } else {
      DecimalReads(n / 10);
      assert r[..|r| - 1] == Decimal(n / 10);
    }
  }

  /** An index, written out, names its place. */
  lemma IndexNames(n: Tree, i: nat)
    requires n.kind == Sequence && i < TWO_63
    ensures Atoi(Decimal(i)) == Some(i)
    ensures ChildAt(n, Decimal(i)) == if i < |n.content| then Some(i) else None
  {
    DecimalReads(i);
  }

  /** A list that is written into by name changes at an index. */
  lemma ListChanges(rule: Tree, key: string, v: Tree) returns (i: nat)
    requires rule.kind == Sequence && |rule.content| < TWO_63 && !Harmless(rule, key, v)
    ensures i < TWO_63 && Walk(Put(rule, key, v), [Decimal(i)]) != Walk(rule, [Decimal(i)])
  {
    i := if At(rule, key).Some? then At(rule, key).value else |rule.content|;
    IndexNames(rule, i);
    IndexNames(Put(rule, key, v), i);
  }

  /** Setting a field leaves every path that is neither a beginning nor a continuation of its own as it was,
      exactly where the rule it is written in, if it is a field of a rule, is no list or has the value there
      already. A list's length is a signed 64-bit number. */
  lemma SettingLeavesOthersExactlyWhen(root: Tree, parts: seq<string>, v: Tree)
    requires IsRoot(root) && FieldPath(parts) && SetField(root, parts, v).Some?
    requires RuleOf(root, parts).Some? ==> |RuleOf(root, parts).value.content| < TWO_63
    ensures (forall q :: Apart(parts, q) ==> Walk(SetField(root, parts, v).value, q) == Walk(root, q))
            <==> (RuleOf(root, parts).Some? ==> Harmless(RuleOf(root, parts).value, parts[2], v))
  {
    if RuleOf(root, parts).Some? && !Harmless(RuleOf(root, parts).value, parts[2], v) {
      SetInRule(root, parts, v);
      var rule := RuleOf(root, parts).value;
      var i := ListChanges(rule, parts[2], v);
      IndexNames(rule, i);
      var q := [parts[0], parts[1], Decimal(i)];
      assert q[2..] == [Decimal(i)] && parts[1..][1..] == parts[2..] && q[1..][1..] == q[2..];
      assert Diverge(parts[2..], q[2..]) && Diverge(parts[1..], q[1..]) && Apart(parts, q);
      WithRuleWalks(root, parts[1], Put(rule, parts[2], v), q);
    } else {
      forall q | Apart(parts, q)
        ensures Walk(SetField(root, parts, v).value, q) == Walk(root, q)
      {
        OthersStay(root, parts, v, q);
      }
    }
  }

  // ----- Keys stay unique -----

  ghost predicate UniqueHere(content: seq<Tree>) {
    forall i, j :: 0 <= i < j < |content| && i % 2 == 0 && j % 2 == 0 ==> content[i].value != content[j].value
  }

  ghost predicate Unique(t: Tree) {
    && (t.kind == Mapping ==> UniqueHere(t.content))
    && (forall i :: 0 <= i < |t.content| ==> Unique(t.content[i]))
  }

  lemma PutKeepsUnique(m: Tree, key: string, v: Tree)
    requires (m.kind == Mapping ==> |m.content| % 2 == 0) && Unique(m) && Unique(v)
    ensures Unique(Put(m, key, v))
  {
    match At(m, key)
    case Some(i) => SeekIsFirst(m.content, key, 0, i);
    case None => AddedKeepsUnique(m, key, v);
  }

  lemma AddedKeepsUnique(m: Tree, key: string, v: Tree)
    requires (m.kind == Mapping ==> |m.content| % 2 == 0) && Unique(m) && Unique(v) && At(m, key) == None
    ensures Unique(m.(content := m.content + [Key(key), v]))
  {
    hide Seek;
    SeekNowhere(m.content, key, 0);
    var content := m.content + [Key(key), v];
    assert Unique(Key(key));
    forall i | 0 <= i < |content|
      ensures Unique(content[i])
    {
      if i < |m.content| { assert content[i] == m.content[i]; }
    }
    if m.kind == Mapping { NewKeyIsUnique(m.content, key, v); }
  }

  lemma NewKeyIsUnique(content: seq<Tree>, key: string, v: Tree)
    requires UniqueHere(content) && |content| % 2 == 0
    requires forall k :: 0 <= k && k + 1 < |content| && k % 2 == 0 ==> content[k].value != key
    ensures UniqueHere(content + [Key(key), v])
  {
    var longer := content + [Key(key), v];
    forall i, j | 0 <= i < j < |longer| && i % 2 == 0 && j % 2 == 0
      ensures longer[i].value != longer[j].value
    {
      assert longer[i] == content[i];
      if j < |content| { assert longer[j] == content[j]; } else { assert longer[j] == Key(key); }
    }
  }

  lemma {:induction false} SetInKeepsUnique(m: Tree, parts: seq<string>, v: Tree)
    requires WellFormed(m) && m.kind == Mapping && parts != [] && SetIn(m, parts, v).Some? && Unique(m) && Unique(v)
    ensures Unique(SetIn(m, parts, v).value)
    decreases |parts|
  {
    if |parts| == 1 {
      PutKeepsUnique(m, parts[0], v);
    } else {
      var next := Under(m, parts[0]).value;
      UnderIsWellFormed(m, parts[0]);
      assert Unique(next);
      SetInKeepsUnique(next, parts[1..], v);
      PutKeepsUnique(m, parts[0], SetIn(next, parts[1..], v).value);
    }
  }

  /** Whatever is written into, keys that were unique stay so. */
  lemma SettingKeepsUnique(root: Tree, parts: seq<string>, v: Tree)
    requires IsRoot(root) && FieldPath(parts) && SetField(root, parts, v).Some? && Unique(root) && Unique(v)
    ensures Unique(SetField(root, parts, v).value)
  {
    if parts[0] != "arbitration" {
      SetInKeepsUnique(root, parts, v);
    } else {
      SetInRule(root, parts, v);
      var (i, n) := Rule(root, parts[1]).value;
      var rules := root.content[i];
      var t := Put(rules.content[n], parts[2], v);
      PutKeepsUnique(rules.content[n], parts[2], v);
      SeekIsFirst(root.content, "arbitration", 0, i);
      var after := rules.(content := rules.content[n := t]);
      assert Unique(rules) && Unique(after);
    }
  }

  // ----- Removing undoes setting -----

  /** No empty mapping in the tree. */
  ghost predicate Full(t: Tree) {
    && (t.kind == Mapping ==> t.content != [])
    && (forall i :: 0 <= i < |t.content| ==> Full(t.content[i]))
  }

  ghost predicate FullBeneath(t: Tree) {
    forall i :: 0 <= i < |t.content| ==> Full(t.content[i])
  }

  /** No empty mapping beneath the document's own keys. */
  ghost predicate NoEmptyBeneath(root: Tree) {
    forall i :: 0 <= i < |root.content| ==> FullBeneath(root.content[i])
  }

  lemma PutThenTake(m: Tree, key: string, v: Tree)
    requires m.kind == Mapping && |m.content| % 2 == 0 && At(m, key) == None
    ensures ChildAt(Put(m, key, v), key) == Some(|m.content| + 1) && Put(m, key, v).content[|m.content| + 1] == v
    ensures TakeAway(Put(m, key, v), key) == m
  {
    SeekAfterAppend(m.content, key, key, 0, v);
    var p := Put(m, key, v);
    assert p.content[..|m.content|] == m.content && p.content[|m.content| + 2..] == [];
  }

  lemma PutTwice(m: Tree, key: string, v: Tree, w: Tree)
    requires m.kind == Mapping && |m.content| % 2 == 0
    ensures ChildAt(Put(m, key, v), key).Some?
    ensures var i := ChildAt(Put(m, key, v), key).value;
            Put(m, key, v).content[i] == v && Put(m, key, v).(content := Put(m, key, v).content[i := w])
              == Put(m, key, w)
  {
    match At(m, key)
    case Some(i) => SeekAfterWrite(m.content, key, key, 0, i, v);
    case None => SeekAfterAppend(m.content, key, key, 0, v);
  }

  lemma AbsentUnder(m: Tree, parts: seq<string>)
    requires m.kind == Mapping && WellFormed(m) && |parts| > 1 && Under(m, parts[0]).Some? && Walk(m, parts) == None
    ensures Walk(Under(m, parts[0]).value, parts[1..]) == None
  {
    UnderWalks(m, parts[0], parts[1..]);
    assert parts == [parts[0]] + parts[1..];
  }

  /** At or below the document's own keys, taking away what was set where nothing was leaves what was there. */
  lemma {:induction false} TakingUndoes(m: Tree, parts: seq<string>, v: Tree, depth: nat)
    requires WellFormed(m) && m.kind == Mapping && FullBeneath(m) && parts != [] && depth >= 1
    requires Walk(m, parts) == None && SetIn(m, parts, v).Some?
    ensures Taken(SetIn(m, parts, v).value, parts, depth) == Some((m, depth >= 2 && m.content == []))
    decreases |parts|
  {
    hide TakeAway, ChildAt, Put, At, Walk, Under;
    var key := parts[0];
    if |parts| == 1 {
      SingleUndone(m, parts, v, depth);
    } else {
      var next := Under(m, key).value;
      UnderIsWellFormed(m, key);
      AbsentUnder(m, parts);
      UnderIsFull(m, key);
      var t := SetIn(next, parts[1..], v).value;
      TakingUndoes(next, parts[1..], v, depth + 1);
      OneLevelUndone(m, parts, t, depth);
    }
  }

  lemma SingleUndone(m: Tree, parts: seq<string>, v: Tree, depth: nat)
    requires WellFormed(m) && m.kind == Mapping && |parts| == 1 && Walk(m, parts) == None
    ensures Taken(Put(m, parts[0], v), parts, depth) == Some((m, depth >= 2 && m.content == []))
  {
    PutThenTake(m, parts[0], v);
  }

  lemma UnderIsFull(m: Tree, key: string)
    requires WellFormed(m) && m.kind == Mapping && FullBeneath(m) && Under(m, key).Some?
    ensures FullBeneath(Under(m, key).value)
    ensures At(m, key).Some? ==> Under(m, key).value == m.content[At(m, key).value] && Under(m, key).value.content != []
    ensures At(m, key) == None ==> Under(m, key).value == EMPTY_MAPPING
  {
    if At(m, key).Some? { assert Full(m.content[At(m, key).value]); }
  }

  lemma OneLevelUndone(m: Tree, parts: seq<string>, t: Tree, depth: nat)
    requires WellFormed(m) && m.kind == Mapping && |parts| > 1 && depth >= 1 && Under(m, parts[0]).Some?
    requires At(m, parts[0]).Some? ==>
               Under(m, parts[0]).value == m.content[At(m, parts[0]).value] && Under(m, parts[0]).value.content != []
    requires At(m, parts[0]) == None ==> Under(m, parts[0]).value == EMPTY_MAPPING
    requires Taken(t, parts[1..], depth + 1) == Some((Under(m, parts[0]).value, Under(m, parts[0]).value.content == []))
    ensures Taken(Put(m, parts[0], t), parts, depth) == Some((m, depth >= 2 && m.content == []))
  {
    hide TakeAway;
    var key := parts[0];
    PutTwice(m, key, t, Under(m, key).value);
    match At(m, key)
    case None => PutThenTake(m, key, t);
    case Some(i) =>
      assert m.content[i := m.content[i]] == m.content;
      assert m.content != [];
  }

  /** What is left of a document after a field was set and removed: itself, save that a mapping made under one
      of the document's own keys stays, empty, and one that was empty there is no longer in flow form. */
  function Undone(root: Tree, parts: seq<string>): Tree
    requires parts != []
  {
    if |parts| == 1 || parts[0] == "arbitration" then root
    else match Under(root, parts[0])
      case None => root
      case Some(m) => Put(root, parts[0], m)
  }

  /** Removing a field that was absent undoes setting it, up to an empty mapping under one of the document's own
      keys, in a document with no empty mapping beneath them, exactly where the rule it was written in, if it
      was a field of a rule, is a mapping. */
  lemma RemovingUndoesSettingExactlyWhen(root: Tree, parts: seq<string>, v: Tree)
    requires IsRoot(root) && FieldPath(parts) && NoEmptyBeneath(root)
    requires Walk(root, parts) == None && SetField(root, parts, v).Some?
    ensures RemoveNode(SetField(root, parts, v).value, parts) == Some(Undone(root, parts))
            <==> (RuleOf(root, parts).Some? ==> RuleOf(root, parts).value.kind == Mapping)
    ensures Undone(root, parts) == root || Walk(Undone(root, parts), parts[..1]) == Some(EMPTY_MAPPING)
            || (Walk(root, parts[..1]).Some? && Empty(Walk(root, parts[..1]).value))
  {
    if parts[0] == "arbitration" {
      SetInRule(root, parts, v);
      if RuleOf(root, parts).value.kind == Mapping {
        RuleUndone(root, parts, v);
      } else {
        SettingReachesExactlyWhen(root, parts, v);
        NotThere(root, parts, v);
      }
    } else if |parts| == 1 {
      PutThenTake(root, parts[0], v);
    } else {
      FieldUndone(root, parts, v);
    }
  }

  /** What was written into something else than a mapping is not found under its name. */
  lemma NotThere(root: Tree, parts: seq<string>, v: Tree)
    requires IsRoot(root) && FieldPath(parts) && parts[0] == "arbitration" && SetField(root, parts, v).Some?
    requires RuleOf(root, parts).Some? && RuleOf(root, parts).value.kind != Mapping
    ensures Walk(SetField(root, parts, v).value, parts) == None
            && RemoveNode(SetField(root, parts, v).value, parts) == None
  {
    SetInRule(root, parts, v);
    var after := SetField(root, parts, v).value;
    WithRuleWalks(root, parts[1], Put(RuleOf(root, parts).value, parts[2], v), parts);
    assert parts[2..] == [parts[2]];
    if Taken(after, parts, 0).Some? { TakenWasThere(after, parts, 0); }
  }

  lemma FieldUndone(root: Tree, parts: seq<string>, v: Tree)
    requires IsRoot(root) && NoEmptyBeneath(root) && |parts| > 1
    requires Walk(root, parts) == None && SetIn(root, parts, v).Some?
    ensures Taken(SetIn(root, parts, v).value, parts, 0) == Some((Undone(root, parts), false))
            || parts[0] == "arbitration"
    ensures Undone(root, parts) == root || Walk(Undone(root, parts), parts[..1]) == Some(EMPTY_MAPPING)
            || (Walk(root, parts[..1]).Some? && Empty(Walk(root, parts[..1]).value))
  {
    var key := parts[0];
    var next := Under(root, key).value;
    UnderIsWellFormed(root, key);
    AbsentUnder(root, parts);
    assert FullBeneath(next);
    TakingUndoes(next, parts[1..], v, 1);
    PutTwice(root, key, SetIn(next, parts[1..], v).value, next);
    PutWalks(root, key, next, parts[..1]);
    match At(root, key)
    case None =>
    case Some(i) =>
      assert root.content[i := root.content[i]] == root.content;
      assert Walk(root, parts[..1]) == Some(root.content[i]);
  }

  lemma RuleUndone(root: Tree, parts: seq<string>, v: Tree)
    requires IsRoot(root) && FieldPath(parts) && NoEmptyBeneath(root) && parts[0] == "arbitration"
    requires Walk(root, parts) == None && SetField(root, parts, v).Some?
    requires var (i, n) := Rule(root, parts[1]).value;
             i < |root.content| && n < |root.content[i].content| && root.content[i].content[n].kind == Mapping
    ensures Taken(SetField(root, parts, v).value, parts, 0) == Some((root, false))
  {
    RuleIsWellFormed(root, parts[1]);
    var (i, n) := Rule(root, parts[1]).value;
    var rules, rule := root.content[i], root.content[i].content[n];
    var t := SetIn(rule, parts[2..], v).value;
    WithRuleWalks(root, parts[1], t, parts);
    assert FullBeneath(rules) && Full(rule);
    var p, q := parts[1..], parts[2..];
    assert p[1..] == q && p[0] == parts[1] && q[0] == parts[2] && |q| == 1;
    hide TakeAway, Put, Under;
    TakingUndoes(rule, q, v, 2);
    var after := rules.(content := rules.content[n := t]);
    SeekAfterWrite(root.content, "arbitration", "arbitration", 0, i, after);
    assert after.content[n := rule] == rules.content;
    assert Taken(after, p, 1) == Some((rules, false));
    PutBack(root, parts, i, after, rules);
  }

  /** Where what was below is put back, all is. */
  lemma PutBack(root: Tree, parts: seq<string>, i: nat, after: Tree, rules: Tree)
    requires i < |root.content| && root.content[i] == rules && |parts| > 1
    requires ChildAt(root.(content := root.content[i := after]), parts[0]) == Some(i)
    requires Taken(after, parts[1..], 1) == Some((rules, false))
    ensures Taken(root.(content := root.content[i := after]), parts, 0) == Some((root, false))
  {
    hide TakeAway;
    assert root.content[i := after][i := rules] == root.content;
  }

  // ----- A node removed is gone, and what lies elsewhere is not -----

  lemma {:induction false} SeekShifted(content: seq<Tree>, j: nat, other: string, i: nat)
    requires 0 < j < |content| && j - 1 <= i
    ensures Seek(Dropped(content, j), other, i)
            == match Seek(content, other, i + 2) { case None => None case Some(k) => Some(k - 2) }
    decreases |content| - i
  {
    var d := Dropped(content, j);
    if i + 1 < |d| {
      assert d[i] == content[i + 2];
      if d[i].value != other { SeekShifted(content, j, other, i + 2); }
    }
  }

  lemma {:induction false} SeekAfterDrop(content: seq<Tree>, key: string, other: string, i: nat, j: nat)
    requires Seek(content, key, i) == Some(j) && other != key
    ensures Seek(Dropped(content, j), other, i)
            == match Seek(content, other, i) { case None => None case Some(k) => Some(if k < j then k else k - 2) }
    decreases |content| - i
  {
    var d := Dropped(content, j);
    if content[i].value == key {
      SeekShifted(content, j, other, i);
    } else {
      SeekIsFirst(content, key, i, j);
      assert d[i] == content[i] && i + 1 < |d|;
      if content[i].value != other { SeekAfterDrop(content, key, other, i + 2, j); }
    }
  }

  /** What a mapping of unique keys reads once one is taken away. */
  lemma TakeAwayWalks(m: Tree, key: string, q: seq<string>)
    requires m.kind == Mapping && |m.content| % 2 == 0 && UniqueHere(m.content) && At(m, key).Some? && q != []
    ensures Walk(TakeAway(m, key), q) == if q[0] == key then None else Walk(m, q)
  {
    hide Seek, UniqueHere, Dropped;
    if q[0] == key {
      DroppedIsGone(m.content, key);
    } else {
      SeekAfterDrop(m.content, key, q[0], 0, At(m, key).value);
      if At(m, q[0]).Some? { DroppedKeepsPlace(m, key, q[0]); }
    }
  }

  lemma DroppedKeepsPlace(m: Tree, key: string, other: string)
    requires key != other && At(m, key).Some? && At(m, other).Some?
    ensures var j, k := At(m, key).value, At(m, other).value;
            var i := if k < j then k else k - 2;
            i < |Dropped(m.content, j)| && Dropped(m.content, j)[i] == m.content[k]
  {
    SeekIsFirst(m.content, key, 0, At(m, key).value);
    SeekIsFirst(m.content, other, 0, At(m, other).value);
    OtherPlace(m, key, other);
  }

  lemma OnlyKey(content: seq<Tree>, key: string, k: nat)
    requires UniqueHere(content) && Seek(content, key, 0).Some? && k < |content| && k % 2 == 0
    requires k != Seek(content, key, 0).value - 1
    ensures content[k].value != key
  {
    SeekIsFirst(content, key, 0, Seek(content, key, 0).value);
  }

  lemma DroppedIsGone(content: seq<Tree>, key: string)
    requires UniqueHere(content) && Seek(content, key, 0).Some?
    ensures Seek(Dropped(content, Seek(content, key, 0).value), key, 0) == None
  {
    hide Seek, UniqueHere;
    var j := Seek(content, key, 0).value;
    var t := Dropped(content, j);
    SeekIsFirst(content, key, 0, j);
    SeekNowhere(t, key, 0);
    forall k: nat | k + 1 < |t| && k % 2 == 0
      ensures t[k].value != key
    {
      var i := if k < j - 1 then k else k + 2;
      assert t[k] == content[i] && i % 2 == 0 && i != j - 1;
      OnlyKey(content, key, i);
    }
  }

  /** Every node the path leads through is a mapping of unique keys. */
  ghost predicate ThroughMappings(n: Tree, parts: seq<string>)
    decreases |parts|
  {
    parts != [] ==>
      && n.kind == Mapping && |n.content| % 2 == 0 && UniqueHere(n.content)
      && (At(n, parts[0]).Some? ==> ThroughMappings(n.content[At(n, parts[0]).value], parts[1..]))
  }

  lemma WriteWalks(m: Tree, key: string, v: Tree, q: seq<string>)
    requires m.kind == Mapping && At(m, key).Some? && q != []
    ensures Walk(m.(content := m.content[At(m, key).value := v]), q)
            == if q[0] == key then Walk(v, q[1..]) else Walk(m, q)
  {
    SeekAfterWrite(m.content, key, q[0], 0, At(m, key).value, v);
    if q[0] != key && At(m, q[0]).Some? { OtherPlace(m, key, q[0]); }
  }

  lemma EmptyWalks(t: Tree, q: seq<string>)
    requires t.content == [] && q != []
    ensures Walk(t, q) == None
  {
  }

  /** Every mapping the path leads through has unique keys; it may lead through lists as well. */
  ghost predicate Regular(n: Tree, parts: seq<string>)
    decreases |parts|
  {
    parts != [] ==>
      && (n.kind == Mapping ==> |n.content| % 2 == 0 && UniqueHere(n.content))
      && (ChildAt(n, parts[0]).Some? ==> Regular(n.content[ChildAt(n, parts[0]).value], parts[1..]))
  }

  /** The child the path names goes from this node: it is what is removed, or was emptied by that. */
  ghost predicate Goes(n: Tree, parts: seq<string>, depth: nat)
    requires parts != [] && Taken(n, parts, depth).Some?
  {
    |parts| == 1 || Taken(n.content[ChildAt(n, parts[0]).value], parts[1..], depth + 1).value.1
  }

  /** `a` names, afterwards, the child that `b` named before: a key stays, and in a list that lost an item an
      index from there on names what the next one did. */
  predicate Renamed(n: Tree, key: string, goes: bool, a: string, b: string) {
    if n.kind == Mapping then a == b
    else
      && Atoi(a).Some? && Atoi(b).Some? && Atoi(key).Some?
      && Atoi(b).value == Atoi(a).value + (if goes && Atoi(a).value >= Atoi(key).value then 1 else 0)
  }

  /** `q` is, afterwards, a path to what `p` led to before, elsewhere than where something was removed. */
  ghost predicate Moved(n: Tree, parts: seq<string>, depth: nat, q: seq<string>, p: seq<string>)
    requires parts != [] && Taken(n, parts, depth).Some?
    decreases |parts|
  {
    && q != [] && p != [] && Renamed(n, parts[0], Goes(n, parts, depth), q[0], p[0])
    && if ChildAt(n, p[0]) == ChildAt(n, parts[0])
       then |parts| > 1 && Moved(n.content[ChildAt(n, parts[0]).value], parts[1..], depth + 1, q[1..], p[1..])
       else q[1..] == p[1..]
  }

  lemma ListWriteWalks(n: Tree, key: string, v: Tree, q: seq<string>, p: seq<string>)
    requires n.kind == Sequence && ChildAt(n, key).Some? && q != [] && p != [] && Renamed(n, key, false, q[0], p[0])
    ensures Walk(n.(content := n.content[ChildAt(n, key).value := v]), q)
            == if ChildAt(n, p[0]) == ChildAt(n, key) then Walk(v, q[1..])
               else match ChildAt(n, p[0]) { case None => None case Some(i) => Walk(n.content[i], q[1..]) }
  {
  }

  lemma ListTakeAwayWalks(n: Tree, key: string, q: seq<string>, p: seq<string>)
    requires n.kind == Sequence && ChildAt(n, key).Some? && q != [] && p != [] && Renamed(n, key, true, q[0], p[0])
    ensures ChildAt(n, p[0]) != ChildAt(n, key)
    ensures Walk(TakeAway(n, key), q)
            == match ChildAt(n, p[0]) { case None => None case Some(i) => Walk(n.content[i], q[1..]) }
  {
    var i := ChildAt(n, key).value;
    var t := TakeAway(n, key);
    assert forall k :: 0 <= k < |t.content| ==> t.content[k] == n.content[if k < i then k else k + 1];
  }

  /** What a path leads to once something was taken away is what it, or its former name, led to. */
  lemma {:induction false} TakenReads(n: Tree, parts: seq<string>, depth: nat, q: seq<string>, p: seq<string>)
    requires parts != [] && Regular(n, parts) && Taken(n, parts, depth).Some? && Moved(n, parts, depth, q, p)
    ensures Walk(Taken(n, parts, depth).value.0, q) == Walk(n, p)
    decreases |parts|
  {
    hide TakeAway, Renamed;
    var key := parts[0];
    var child := n.content[ChildAt(n, key).value];
    RenamedInMapping(n, parts, depth, q, p);
    if ChildAt(n, p[0]) == ChildAt(n, key) {
      TakenReads(child, parts[1..], depth + 1, q[1..], p[1..]);
    }
    if Goes(n, parts, depth) {
      GoneReads(n, parts, depth, q, p);
    } else {
      var t := Taken(child, parts[1..], depth + 1).value.0;
      if n.kind == Mapping { WriteWalks(n, key, t, q); } else { ListWriteWalks(n, key, t, q, p); }
    }
  }

  /** In a mapping a key and its child name each other. */
  lemma RenamedInMapping(n: Tree, parts: seq<string>, depth: nat, q: seq<string>, p: seq<string>)
    requires parts != [] && Taken(n, parts, depth).Some? && Moved(n, parts, depth, q, p)
    ensures n.kind == Mapping ==> q[0] == p[0] && (ChildAt(n, p[0]) == ChildAt(n, parts[0]) <==> p[0] == parts[0])
    ensures n.kind != Mapping ==> n.kind == Sequence
    ensures p == [p[0]] + p[1..] && q == [q[0]] + q[1..]
  {
    TakenNames(n, parts, depth);
    if n.kind == Mapping { KeyNames(n, parts[0], p[0]); }
    hide Taken, Goes, Seek;
    assert Renamed(n, parts[0], Goes(n, parts, depth), q[0], p[0]);
  }

  lemma TakenNames(n: Tree, parts: seq<string>, depth: nat)
    requires parts != [] && Taken(n, parts, depth).Some?
    ensures ChildAt(n, parts[0]).Some? && (n.kind == Mapping || n.kind == Sequence)
  {
    hide TakeAway;
  }

  lemma KeyNames(m: Tree, key: string, other: string)
    requires m.kind == Mapping && ChildAt(m, key).Some?
    ensures ChildAt(m, other) == ChildAt(m, key) <==> other == key
  {
  }

  lemma GoneReads(n: Tree, parts: seq<string>, depth: nat, q: seq<string>, p: seq<string>)
    requires parts != [] && Regular(n, parts) && Taken(n, parts, depth).Some? && Moved(n, parts, depth, q, p)
    requires Goes(n, parts, depth)
    requires ChildAt(n, p[0]) == ChildAt(n, parts[0]) ==>
               var child := n.content[ChildAt(n, parts[0]).value];
               |parts| > 1 && q[1..] != [] && Walk(Taken(child, parts[1..], depth + 1).value.0, q[1..])
                 == Walk(child, p[1..])
    ensures Walk(TakeAway(n, parts[0]), q) == Walk(n, p)
  {
    RenamedInMapping(n, parts, depth, q, p);
    var key := parts[0];
    if n.kind == Sequence {
      ListTakeAwayWalks(n, key, q, p);
    } else {
      TakeAwayWalks(n, key, q);
      if q[0] == key {
        var (t, gone) := Taken(n.content[ChildAt(n, key).value], parts[1..], depth + 1).value;
        GoneIsEmpty(n.content[ChildAt(n, key).value], parts[1..], depth + 1);
        EmptyWalks(t, q[1..]);
      }
    }
  }

  lemma GoneIsEmpty(n: Tree, parts: seq<string>, depth: nat)
    requires parts != [] && Taken(n, parts, depth).Some? && Taken(n, parts, depth).value.1
    ensures Taken(n, parts, depth).value.0.content == []
  {
  }

  /** Through mappings, nothing is left at the path taken away. */
  lemma {:induction false} TakenIsGone(n: Tree, parts: seq<string>, depth: nat)
    requires parts != [] && ThroughMappings(n, parts) && Taken(n, parts, depth).Some?
    ensures Walk(Taken(n, parts, depth).value.0, parts) == None
    decreases |parts|
  {
    hide TakeAway;
    if Goes(n, parts, depth) {
      TakeAwayWalks(n, parts[0], parts);
    } else {
      var child := n.content[At(n, parts[0]).value];
      TakenIsGone(child, parts[1..], depth + 1);
      WriteWalks(n, parts[0], Taken(child, parts[1..], depth + 1).value.0, parts);
    }
  }

  /** `q` parts from the path at a mapping that the path reaches through mappings only: outside every list the
      path leads through, and elsewhere in the mappings above them. */
  ghost predicate Outside(n: Tree, parts: seq<string>, q: seq<string>)
    decreases |parts|
  {
    && parts != [] && q != [] && n.kind == Mapping
    && (q[0] != parts[0]
        || (At(n, parts[0]).Some? && Outside(n.content[At(n, parts[0]).value], parts[1..], q[1..])))
  }

  lemma {:induction false} OutsideStays(n: Tree, parts: seq<string>, depth: nat, q: seq<string>)
    requires parts != [] && Taken(n, parts, depth).Some? && Outside(n, parts, q)
    ensures Moved(n, parts, depth, q, q)
    decreases |parts|
  {
    if q[0] == parts[0] { OutsideStays(n.content[At(n, parts[0]).value], parts[1..], depth + 1, q[1..]); }
  }

  lemma {:induction false} DivergingIsOutside(n: Tree, parts: seq<string>, q: seq<string>)
    requires ThroughMappings(n, parts) && Walk(n, parts).Some? && Diverge(parts, q)
    ensures Outside(n, parts, q)
    decreases |parts|
  {
    if q[0] == parts[0] { DivergingIsOutside(n.content[At(n, parts[0]).value], parts[1..], q[1..]); }
  }

  lemma {:induction false} TakenWasThere(n: Tree, parts: seq<string>, depth: nat)
    requires parts != [] && Taken(n, parts, depth).Some?
    ensures Walk(n, parts).Some? && Taken(n, parts, depth).value.0.kind == n.kind
    decreases |parts|
  {
    if |parts| > 1 { TakenWasThere(n.content[ChildAt(n, parts[0]).value], parts[1..], depth + 1); }
  }

  /** The removal takes a group of parameters with it: the path is a unit's or a channel's, and afterwards no
      other owner of the name is left. */
  ghost predicate GroupGoes(root: Tree, parts: seq<string>)
    requires parts != [] && Taken(root, parts, 0).Some?
  {
    && |parts| == 2 && parts[0] in {"units", "channels"} && Holds(root, "parameters", parts[1])
    && var t := Taken(root, parts, 0).value.0;
       !Holds(t, "units", parts[1]) && !Holds(t, "channels", parts[1])
  }

  /** What removing a node makes of any path elsewhere: what it led to, or, from an item of a list taken away
      on, what the path with the next index led to. */
  ghost predicate Stays(root: Tree, parts: seq<string>, q: seq<string>, p: seq<string>)
    requires parts != [] && Taken(root, parts, 0).Some?
  {
    if GroupGoes(root, parts) && q != [] && q[0] == "parameters"
    then Taken(root, ["parameters", parts[1]], 0).Some? && Moved(root, ["parameters", parts[1]], 0, q, p)
    else Moved(root, parts, 0, q, p)
  }

  /** A unit or a channel removed leaves the parameters as they were. */
  lemma ParametersStay(root: Tree, parts: seq<string>)
    requires |parts| == 2 && parts[0] in {"units", "channels"} && Regular(root, parts) && Taken(root, parts, 0).Some?
    ensures var t := Taken(root, parts, 0).value.0;
            && t.kind == Mapping
            && (At(t, "parameters") == At(root, "parameters")
                && (At(t, "parameters").Some? ==>
                      t.content[At(t, "parameters").value] == root.content[At(root, "parameters").value]))
  {
    NoNumber(parts[0]);
    var i := At(root, parts[0]).value;
    var child := Taken(root.content[i], parts[1..], 1).value.0;
    SeekAfterWrite(root.content, parts[0], "parameters", 0, i, child);
    if At(root, "parameters").Some? { OtherPlace(root, parts[0], "parameters"); }
  }

  lemma NoNumber(key: string)
    requires key in {"units", "channels", "parameters"}
    ensures Atoi(key) == None
  {
    assert key[|key| - 1] == 's';
  }

  /** Removing a node leaves at every other path what was there: the mappings emptied on the way held nothing
      else, and of the parameters only the group of a unit or channel that is gone goes. In a list the later
      items move up by one. */
  lemma RemovingMovesOnlyItems(root: Tree, parts: seq<string>, q: seq<string>, p: seq<string>)
    requires parts != [] && Regular(root, parts) && RemoveNode(root, parts).Some?
    requires GroupGoes(root, parts) ==> Regular(root, ["parameters", parts[1]])
    requires Stays(root, parts, q, p)
    ensures Walk(RemoveNode(root, parts).value, q) == Walk(root, p)
  {
    var t := Taken(root, parts, 0).value.0;
    if GroupGoes(root, parts) {
      var group := ["parameters", parts[1]];
      ParametersStay(root, parts);
      var i := At(t, "parameters").value;
      var left := TakeAway(t.content[i], parts[1]);
      assert group[1..] == [parts[1]];
      WriteWalks(t, "parameters", left, q);
      if q[0] == "parameters" {
        TakenReads(root, group, 0, q, p);
        WriteWalks(root, "parameters", left, q);
      } else {
        TakenReads(root, parts, 0, q, p);
      }
    } else {
      TakenReads(root, parts, 0, q, p);
      NothingUngrouped(root, parts);
    }
  }

  lemma NothingUngrouped(root: Tree, parts: seq<string>)
    requires parts != [] && Regular(root, parts) && Taken(root, parts, 0).Some? && !GroupGoes(root, parts)
    ensures RemoveNode(root, parts) == Some(Taken(root, parts, 0).value.0)
  {
    var t := Taken(root, parts, 0).value.0;
    if |parts| == 2 && parts[0] in {"units", "channels"} {
      ParametersStay(root, parts);
      if !Holds(t, "units", parts[1]) && !Holds(t, "channels", parts[1]) && At(t, "parameters").Some? {
        var i := At(t, "parameters").value;
        assert TakeAway(t.content[i], parts[1]) == t.content[i];
        assert t.content[i := t.content[i]] == t.content;
      }
    }
  }

  /** Removing a node through mappings of unique keys leaves nothing at its path, and every path that parts
      from it as it was, unless it leads into the group of parameters that goes with a unit or a channel.
      Where the path leads through lists, every path that parts from it outside them is as it was. */
  lemma RemovingTakesOnlyThat(root: Tree, parts: seq<string>, q: seq<string>)
    requires parts != [] && Regular(root, parts) && RemoveNode(root, parts).Some? && q != []
    requires GroupGoes(root, parts) ==> Regular(root, ["parameters", parts[1]])
    ensures ThroughMappings(root, parts) ==> Walk(RemoveNode(root, parts).value, parts) == None
    ensures Outside(root, parts, q) && (GroupGoes(root, parts) ==> Outside(root, ["parameters", parts[1]], q)) ==>
              Walk(RemoveNode(root, parts).value, q) == Walk(root, q)
    ensures ThroughMappings(root, parts) && Diverge(parts, q)
            && (GroupGoes(root, parts) ==>
                  ThroughMappings(root, ["parameters", parts[1]]) && Diverge(["parameters", parts[1]], q)) ==>
              Walk(RemoveNode(root, parts).value, q) == Walk(root, q)
  {
    TakenWasThere(root, parts, 0);
    if ThroughMappings(root, parts) && Diverge(parts, q) { DivergingIsOutside(root, parts, q); }
    if GroupGoes(root, parts) { GroupIsThere(root, parts, q); }
    if Outside(root, parts, q) && (GroupGoes(root, parts) ==> Outside(root, ["parameters", parts[1]], q)) {
      OutsideStays(root, parts, 0, q);
      RemovingMovesOnlyItems(root, parts, q, q);
    }
    if ThroughMappings(root, parts) {
      TakenIsGone(root, parts, 0);
      if GroupGoes(root, parts) {
        ParametersStay(root, parts);
        var t := Taken(root, parts, 0).value.0;
        WriteWalks(t, "parameters", TakeAway(t.content[At(t, "parameters").value], parts[1]), parts);
      } else {
        NothingUngrouped(root, parts);
      }
    }
  }

  lemma GroupIsThere(root: Tree, parts: seq<string>, q: seq<string>)
    requires parts != [] && Regular(root, parts) && Taken(root, parts, 0).Some? && GroupGoes(root, parts)
    ensures var group := ["parameters", parts[1]];
            && Taken(root, group, 0).Some?
            && (Outside(root, group, q) ==> Moved(root, group, 0, q, q))
            && (ThroughMappings(root, group) && Diverge(group, q) ==> Outside(root, group, q))
  {
    var group := ["parameters", parts[1]];
    ParametersStay(root, parts);
    TakenWasThere(root, parts, 0);
    assert group[1..] == [parts[1]];
    assert Taken(root.content[At(root, "parameters").value], group[1..], 1).Some?;
    if Outside(root, group, q) { OutsideStays(root, group, 0, q); }
    TakenWasThere(root, group, 0);
    if ThroughMappings(root, group) && Diverge(group, q) { DivergingIsOutside(root, group, q); }
  }

  lemma {:induction false} TakenExactlyWhen(n: Tree, parts: seq<string>, depth: nat)
    requires parts != []
    ensures Taken(n, parts, depth).Some? <==> Walk(n, parts).Some?
    decreases |parts|
  {
    if ChildAt(n, parts[0]).Some? && |parts| > 1 {
      TakenExactlyWhen(n.content[ChildAt(n, parts[0]).value], parts[1..], depth + 1);
    }
  }

  /** A node can be removed exactly where the path leads to one. */
  lemma RemovesExactlyWhen(root: Tree, parts: seq<string>)
    requires parts != []
    ensures RemoveNode(root, parts).Some? <==> Walk(root, parts).Some?
  {
    TakenExactlyWhen(root, parts, 0);
  }

  lemma HoldsIsWalk(root: Tree, key: string, name: string)
    requires root.kind == Mapping
    ensures Holds(root, key, name) <==> Walk(root, [key, name]).Some?
  {
    if At(root, key).Some? { TwoSteps(root, key, name); }
  }

  lemma TwoSteps(m: Tree, a: string, b: string)
    requires ChildAt(m, a).Some?
    ensures Walk(m, [a]) == Some(m.content[ChildAt(m, a).value])
    ensures Walk(m, [a, b]).Some? <==> ChildAt(m.content[ChildAt(m, a).value], b).Some?
  {
    var child := m.content[ChildAt(m, a).value];
    assert [a, b][1..] == [b] && [b][1..] == [] && [a][1..] == [];
    assert Walk(m, [a, b]) == Walk(child, [b]);
  }

  /** Once a unit or a channel is removed, the parameters of its name are there exactly where they were and another
      owner of the name is left. */
  lemma GroupStaysExactlyWhen(root: Tree, parts: seq<string>)
    requires |parts| == 2 && parts[0] in {"units", "channels"} && Regular(root, parts) && RemoveNode(root, parts).Some?
    requires ThroughMappings(root, ["parameters", parts[1]])
    ensures var t, group := RemoveNode(root, parts).value, ["parameters", parts[1]];
            Walk(t, group).Some?
            <==> Walk(root, group).Some?
                 && (Walk(t, ["units", parts[1]]).Some? || Walk(t, ["channels", parts[1]]).Some?)
  {
    var t, after, name := Taken(root, parts, 0).value.0, RemoveNode(root, parts).value, parts[1];
    var group := ["parameters", name];
    assert group[1..] == [name] && group[0] == "parameters" && [name][1..] == [];
    ParametersStay(root, parts);
    HoldsIsWalk(root, "parameters", name);
    HoldsIsWalk(t, "parameters", name);
    HoldsIsWalk(t, "units", name);
    HoldsIsWalk(t, "channels", name);
    assert Holds(t, "parameters", name) <==> Holds(root, "parameters", name);
    if GroupGoes(root, parts) {
      var i := At(t, "parameters").value;
      var left := TakeAway(t.content[i], name);
      WriteWalks(t, "parameters", left, group);
      WriteWalks(t, "parameters", left, ["units", name]);
      WriteWalks(t, "parameters", left, ["channels", name]);
      TakeAwayWalks(t.content[i], name, [name]);
    } else {
      NothingUngrouped(root, parts);
    }
  }

  function Item(text: string): Tree { Tree(Scalar, text, false, []) }

  /** A document of which one rule is a list. */
  function WithListRule(): Tree {
    var rule := Tree(Sequence, "", false, [Item("prevails"), Item("b")]);
    Tree(Mapping, "", false, [Key("arbitration"), Tree(Sequence, "", false, [rule])])
  }

  lemma FirstPlaces()
    ensures Atoi("0") == Some(0) && Atoi("1") == Some(1) && Atoi("prevails") == None
  {
    assert "0"[..0] == "" && "1"[..0] == "";
    assert Digits("0") == Some(0) && Digits("1") == Some(1);
  }

  lemma ListRuleIsThere()
    ensures var root, parts := WithListRule(), ["arbitration", "0", "prevails"];
            && IsRoot(root) && FieldPath(parts) && Rule(root, "0").Some? && RuleOf(root, parts).Some?
            && var rule := RuleOf(root, parts).value;
               rule.kind == Sequence && At(rule, "prevails") == Some(1) && rule.content == [Item("prevails"), Item("b")]
  {
    FirstPlaces();
    var root := WithListRule();
    assert WellFormed(Item("b")) && WellFormed(Item("prevails"));
    assert WellFormed(root.content[1].content[0]) && WellFormed(root.content[1]);
    assert Seek(root.content, "arbitration", 0) == Some(1);
    assert Seek([Item("prevails"), Item("b")], "prevails", 0) == Some(1);
  }

  /** A rule that is a list: setting its `prevails` overwrites the item after one that reads so. The field is not
      reached, a path apart from it changes, and removing it finds nothing. */
  lemma ListRuleIsOverwritten()
    ensures var root, parts, other := WithListRule(), ["arbitration", "0", "prevails"], ["arbitration", "0", "1"];
            && IsRoot(root) && FieldPath(parts) && Apart(parts, other) && SetField(root, parts, Item("x")).Some?
            && var after := SetField(root, parts, Item("x")).value;
               && Walk(after, parts) == None && RemoveNode(after, parts) == None
               && Walk(root, other) == Some(Item("b")) && Walk(after, other) == Some(Item("x"))
  {
    var root, parts, other := WithListRule(), ["arbitration", "0", "prevails"], ["arbitration", "0", "1"];
    FirstPlaces();
    ListRuleIsThere();
    hide WithListRule, Seek, Digits, Atoi;
    var rule := RuleOf(root, parts).value;
    assert parts[1..][1..] == ["prevails"] && other[1..][1..] == ["1"];
    assert Diverge(parts[1..][1..], other[1..][1..]) && Diverge(parts[1..], other[1..]) && Apart(parts, other);
    assert parts[2..] == ["prevails"] && other[2..] == ["1"];
    NotThere(root, parts, Item("x"));
    SetInRule(root, parts, Item("x"));
    WithRuleWalks(root, "0", Put(rule, "prevails", Item("x")), other);
  }
}
