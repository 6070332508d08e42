/** Setting and removing on the nodes of a document themselves, which are edited in place. A shape is the tree of
    nodes under one, all of them different, and a shape carries a value when every node of it holds what the
    value has at that place. Each method is given the shape and the value of what it edits, and leaves a shape
    that carries what the functions on values make of it; nodes outside the shape are not touched. Along the
    way down, what surrounds the node in hand is kept as crumbs, so that an edit below is at once an edit of the
    whole document. */
module Documents {
  import opened Prelude
  import opened Trees
  import opened Crumbs

  class Node {
    const kind: Kind
    const value: string
    var flow: bool
    var content: seq<Node>

    constructor (kind: Kind, value: string)
      ensures this.kind == kind && this.value == value && !flow && content == []
    {
      this.kind, this.value, flow, content := kind, value, false, [];
    }
  }

  // ----- Nodes laid out as a tree -----

  /** Which nodes make up a tree, without what they hold. */
  datatype Shape = Shape(node: Node, parts: seq<Shape>)

  ghost function Nodes(s: Shape): (r: set<Node>)
    ensures s.node in r
  {
    {s.node} + AllNodes(s.parts)
  }

  ghost function AllNodes(ps: seq<Shape>): set<Node> {
    if ps == [] then {} else Nodes(ps[0]) + AllNodes(ps[1..])
  }

  ghost function Tops(ps: seq<Shape>): (r: seq<Node>)
    ensures |r| == |ps| && forall i :: 0 <= i < |ps| ==> r[i] == ps[i].node
  {
    seq(|ps|, i requires 0 <= i < |ps| => ps[i].node)
  }

  /** No node is in two places. */
  ghost predicate Separate(s: Shape) {
    s.node !in AllNodes(s.parts) && AllSeparate(s.parts)
  }

  ghost predicate AllSeparate(ps: seq<Shape>) {
    ps == [] || (Separate(ps[0]) && Nodes(ps[0]) !! AllNodes(ps[1..]) && AllSeparate(ps[1..]))
  }

  /** The nodes hold the tree. */
  ghost predicate Lays(s: Shape, t: Tree)
    reads Nodes(s)
  {
    && s.node.kind == t.kind && s.node.value == t.value && s.node.flow == t.flow
    && s.node.content == Tops(s.parts)
    && AllLay(s.parts, t.content)
  }

  ghost predicate AllLay(ps: seq<Shape>, ts: seq<Tree>)
    reads AllNodes(ps)
  {
    |ps| == |ts| && (ps == [] || (Lays(ps[0], ts[0]) && AllLay(ps[1..], ts[1..])))
  }

  ghost predicate Carries(s: Shape, t: Tree)
    reads Nodes(s)
  {
    Separate(s) && Lays(s, t)
  }

  // ----- Lists of shapes -----

  lemma {:induction false} NodesOfBoth(a: seq<Shape>, b: seq<Shape>)
    ensures AllNodes(a + b) == AllNodes(a) + AllNodes(b)
  {
    if a == [] {
      assert a + b == b;
    } else {
      assert (a + b)[1..] == a[1..] + b;
      NodesOfBoth(a[1..], b);
    }
  }

  lemma {:induction false} SeparateBoth(a: seq<Shape>, b: seq<Shape>)
    ensures AllSeparate(a + b) <==> AllSeparate(a) && AllSeparate(b) && AllNodes(a) !! AllNodes(b)
  {
    if a == [] {
      assert a + b == b;
    } else {
      assert (a + b)[1..] == a[1..] + b;
      SeparateBoth(a[1..], b);
      NodesOfBoth(a[1..], b);
    }
  }

  lemma {:induction false} LayBoth(a: seq<Shape>, b: seq<Shape>, x: seq<Tree>, y: seq<Tree>)
    requires |a| == |x|
    ensures AllLay(a + b, x + y) <==> AllLay(a, x) && AllLay(b, y)
  {
    if a == [] {
      assert a + b == b && x + y == y;
    } else {
      assert (a + b)[1..] == a[1..] + b && (x + y)[1..] == x[1..] + y;
      LayBoth(a[1..], b, x[1..], y);
    }
  }

  lemma OneShape(s: Shape)
    ensures AllNodes([s]) == Nodes(s) && (AllSeparate([s]) <==> Separate(s))
  {
    assert [s][1..] == [];
  }

  lemma OneTree(s: Shape, t: Tree)
    ensures AllLay([s], [t]) <==> Lays(s, t)
  {
    assert [s][1..] == [] && [t][1..] == [];
  }

  /** A list of shapes is what comes before one of them, that one, and what comes after. */
  lemma Around(ps: seq<Shape>, ts: seq<Tree>, i: nat)
    requires i < |ps| == |ts|
    ensures AllNodes(ps) == AllNodes(ps[..i]) + Nodes(ps[i]) + AllNodes(ps[i + 1..])
    ensures AllSeparate(ps) <==>
              && AllSeparate(ps[..i]) && Separate(ps[i]) && AllSeparate(ps[i + 1..])
              && AllNodes(ps[..i]) !! Nodes(ps[i]) && AllNodes(ps[..i]) !! AllNodes(ps[i + 1..])
              && Nodes(ps[i]) !! AllNodes(ps[i + 1..])
    ensures AllLay(ps, ts) <==> AllLay(ps[..i], ts[..i]) && Lays(ps[i], ts[i]) && AllLay(ps[i + 1..], ts[i + 1..])
  {
    hide AllNodes, AllSeparate, AllLay, Lays, Separate, Nodes;
    var rest, rests := [ps[i]] + ps[i + 1..], [ts[i]] + ts[i + 1..];
    assert ps == ps[..i] + rest && ts == ts[..i] + rests;
    OneShape(ps[i]);
    OneTree(ps[i], ts[i]);
    NodesOfBoth(ps[..i], rest);
    NodesOfBoth([ps[i]], ps[i + 1..]);
    SeparateBoth(ps[..i], rest);
    SeparateBoth([ps[i]], ps[i + 1..]);
    LayBoth(ps[..i], rest, ts[..i], rests);
    LayBoth([ps[i]], ps[i + 1..], [ts[i]], ts[i + 1..]);
  }

  lemma {:induction false} LayHere(ps: seq<Shape>, ts: seq<Tree>)
    requires AllLay(ps, ts)
    ensures |ps| == |ts| && forall i :: 0 <= i < |ps| ==>
              ps[i].node.value == ts[i].value && ps[i].node.kind == ts[i].kind
  {
    if ps != [] { LayHere(ps[1..], ts[1..]); }
  }

  // ----- One mapping -----

  /** Where the value under a key is in a mapping. */
  method FindKey(m: Node, key: string, ghost s: Shape, ghost t: Tree) returns (r: Option<nat>)
    requires s.node == m && Carries(s, t)
    ensures r == At(t, key) && Carries(s, t)
    ensures r.Some? ==> r.value < |m.content|
  {
    LayHere(s.parts, t.content);
    var i := 0;
    while i + 1 < |m.content|
      invariant Seek(t.content, key, 0) == Seek(t.content, key, i)
      decreases |m.content| - i
    {
      if m.content[i].value == key {
        return Some(i + 1);
      }
      i := i + 2;
    }
    return None;
  }

  /** A node with one child replaced. */
  ghost function WithPart(s: Shape, i: nat, p: Shape): Shape
    requires i < |s.parts|
  {
    s.(parts := s.parts[i := p])
  }

  /** What is left of the hold on a node's children when the child at `i` is put aside. */
  ghost predicate CarriesBut(s: Shape, t: Tree, i: nat)
    reads if i < |s.parts| then AllNodes(s.parts[..i]) + AllNodes(s.parts[i + 1..]) else {}
  {
    && i < |s.parts| == |t.content|
    && s.node.kind == t.kind && s.node.value == t.value
    && AllLay(s.parts[..i], t.content[..i]) && AllLay(s.parts[i + 1..], t.content[i + 1..])
    && AllSeparate(s.parts[..i]) && AllSeparate(s.parts[i + 1..])
    && AllNodes(s.parts[..i]) !! AllNodes(s.parts[i + 1..])
    && s.node !in AllNodes(s.parts[..i]) && s.node !in AllNodes(s.parts[i + 1..])
  }

  lemma PutAside(s: Shape, t: Tree, i: nat)
    requires Carries(s, t) && i < |s.parts|
    ensures CarriesBut(s, t, i) && |t.content| == |s.parts| && Carries(s.parts[i], t.content[i])
    ensures s.node.content == Tops(s.parts)
    ensures Nodes(s) == {s.node} + AllNodes(s.parts[..i]) + Nodes(s.parts[i]) + AllNodes(s.parts[i + 1..])
    ensures Nodes(s.parts[i]) !! {s.node} + AllNodes(s.parts[..i]) + AllNodes(s.parts[i + 1..])
  {
    LayHere(s.parts, t.content);
    Around(s.parts, t.content, i);
  }

  lemma PutBack(s: Shape, t: Tree, i: nat, p: Shape, u: Tree)
    requires CarriesBut(s, t, i) && Carries(p, u)
    requires s.node.content == Tops(s.parts[i := p]) && s.node.flow == t.flow
    requires Nodes(p) !! {s.node} + AllNodes(s.parts[..i]) + AllNodes(s.parts[i + 1..])
    ensures Carries(WithPart(s, i, p), t.(content := t.content[i := u]))
    ensures Nodes(WithPart(s, i, p)) == {s.node} + AllNodes(s.parts[..i]) + Nodes(p) + AllNodes(s.parts[i + 1..])
  {
    hide AllSeparate, AllLay;
    var ps, ts := s.parts[i := p], t.content[i := u];
    Around(ps, ts, i);
    assert ps[..i] == s.parts[..i] && ps[i + 1..] == s.parts[i + 1..];
    assert ts[..i] == t.content[..i] && ts[i + 1..] == t.content[i + 1..];
  }

  /** The hold on a node's children, whatever its own content. */
  ghost predicate CarriesParts(s: Shape, t: Tree)
    reads AllNodes(s.parts)
  {
    Separate(s) && AllLay(s.parts, t.content) && s.node.kind == t.kind && s.node.value == t.value
  }

  lemma PutAfter(s: Shape, t: Tree, ps: seq<Shape>, ts: seq<Tree>)
    requires CarriesParts(s, t) && s.node.flow == t.flow && s.node.content == Tops(s.parts + ps)
    requires AllSeparate(ps) && AllLay(ps, ts) && AllNodes(ps) !! Nodes(s)
    ensures Carries(s.(parts := s.parts + ps), t.(content := t.content + ts))
    ensures Nodes(s.(parts := s.parts + ps)) == Nodes(s) + AllNodes(ps)
  {
    hide AllSeparate, AllLay;
    LayLengths(s.parts, t.content);
    NodesOfBoth(s.parts, ps);
    SeparateBoth(s.parts, ps);
    LayBoth(s.parts, ps, t.content, ts);
  }

  /** The nodes of a shape, as nodes that exist. */
  lemma Extent(s: Shape) returns (all: set<Node>)
    ensures all == Nodes(s)
  {
    all := Nodes(s);
  }

  lemma LayLengths(ps: seq<Shape>, ts: seq<Tree>)
    requires AllLay(ps, ts)
    ensures |ps| == |ts|
  {
  }

  /** Writes a value under a key, replacing what was there; `rest` are nodes elsewhere. */
  method PutKey(m: Node, key: string, v: Node, ghost s: Shape, ghost t: Tree, ghost sv: Shape, ghost tv: Tree,
                ghost rest: set<Node>)
    returns (ghost r: Shape)
    requires s.node == m && Carries(s, t) && sv.node == v && Carries(sv, tv) && Nodes(s) !! Nodes(sv)
             && rest !! Nodes(s) + Nodes(sv)
    modifies m
    ensures r.node == m && Carries(r, Put(t, key, tv)) && m.flow == old(m.flow)
    ensures Nodes(sv) <= Nodes(r) && Nodes(r) !! rest
    ensures At(t, key) == None ==> |r.parts| == |t.content| + 2 && r.parts[|t.content| + 1] == sv
  {
    ghost var there := Extent(sv);
    var i := FindKey(m, key, s, t);
    if i.Some? {
      r := WriteAt(m, i.value, v, s, t, sv, tv);
    } else {
      r := AppendKey(m, key, v, s, t, sv, tv, rest);
    }
  }

  method WriteAt(m: Node, i: nat, v: Node, ghost s: Shape, ghost t: Tree, ghost sv: Shape, ghost tv: Tree)
      returns (ghost r: Shape)
    requires s.node == m && Carries(s, t) && sv.node == v && Carries(sv, tv) && Nodes(s) !! Nodes(sv) && i < |t.content|
    modifies m
    ensures r.node == m && Carries(r, t.(content := t.content[i := tv])) && m.flow == old(m.flow)
    ensures Nodes(sv) <= Nodes(r) <= Nodes(s) + Nodes(sv)
  {
    Parts(s, t);
    PutAside(s, t, i);
    hide AllLay, AllSeparate, AllNodes;
    m.content := m.content[i := v];
    assert CarriesBut(s, t, i);
    PutBack(s, t, i, sv, tv);
    r := WithPart(s, i, sv);
  }

  method AppendKey(m: Node, key: string, v: Node, ghost s: Shape, ghost t: Tree, ghost sv: Shape, ghost tv: Tree,
                   ghost rest: set<Node>)
    returns (ghost r: Shape)
    requires s.node == m && Carries(s, t) && sv.node == v && Carries(sv, tv) && Nodes(s) !! Nodes(sv)
             && rest !! Nodes(s) + Nodes(sv)
    modifies m
    ensures r.node == m && Carries(r, t.(content := t.content + [Key(key), tv])) && m.flow == old(m.flow)
    ensures Nodes(sv) <= Nodes(r) && Nodes(r) !! rest
    ensures |r.parts| == |t.content| + 2 && r.parts[|t.content| + 1] == sv
  {
    Parts(s, t);
    ghost var here := Extent(s);
    ghost var there := Extent(sv);
    hide AllLay, AllSeparate, AllNodes;
    var k := new Node(Scalar, key);
    assert Lays(sv, tv);
    m.content := m.content + [k, v];
    assert CarriesParts(s, t);
    r := Appended(s, t, Shape(k, []), key, sv, tv);
  }

  lemma Parts(s: Shape, t: Tree)
    requires Carries(s, t)
    ensures |s.parts| == |t.content| == |s.node.content| && s.node.content == Tops(s.parts)
    ensures s.node.kind == t.kind && s.node.value == t.value && s.node.flow == t.flow
    ensures CarriesParts(s, t) && s.node !in AllNodes(s.parts) && Nodes(s) == {s.node} + AllNodes(s.parts)
  {
    LayLengths(s.parts, t.content);
  }

  lemma Appended(s: Shape, t: Tree, sk: Shape, key: string, sv: Shape, tv: Tree) returns (r: Shape)
    requires CarriesParts(s, t) && s.node.flow == t.flow && s.node.content == Tops(s.parts) + [sk.node, sv.node]
    requires sk.parts == [] && sk.node.kind == Scalar && sk.node.value == key && !sk.node.flow && sk.node.content == []
    requires Carries(sv, tv) && Nodes(s) !! Nodes(sv) && sk.node !in Nodes(s) + Nodes(sv)
    ensures r.node == s.node && Carries(r, t.(content := t.content + [Key(key), tv]))
    ensures Nodes(r) == Nodes(s) + {sk.node} + Nodes(sv)
    ensures r.parts == s.parts + [sk, sv]
  {
    hide CarriesParts;
    var ps := [sk, sv];
    TwoShapes(sk, sv, Key(key), tv);
    PutAfter(s, t, ps, [Key(key), tv]);
    r := s.(parts := s.parts + ps);
  }

  lemma TwoShapes(a: Shape, b: Shape, x: Tree, y: Tree)
    requires Carries(a, x) && Carries(b, y) && Nodes(a) !! Nodes(b)
    ensures AllNodes([a, b]) == Nodes(a) + Nodes(b) && AllSeparate([a, b]) && AllLay([a, b], [x, y])
  {
    assert [a, b][1..] == [b] && [x, y][1..] == [y];
    OneShape(b);
    OneTree(b, y);
  }

  // ----- Taking away -----

  lemma SplitAt(s: Shape, t: Tree, lo: nat, hi: nat)
    requires CarriesParts(s, t) && lo <= hi <= |s.parts| == |t.content|
    ensures var ps, ts := s.parts[..lo] + s.parts[hi..], t.content[..lo] + t.content[hi..];
            && CarriesParts(s.(parts := ps), t.(content := ts)) && AllNodes(ps) <= AllNodes(s.parts)
  {
    hide AllLay, AllSeparate, AllNodes;
    var a, b, c := s.parts[..lo], s.parts[lo..hi], s.parts[hi..];
    var x, y, z := t.content[..lo], t.content[lo..hi], t.content[hi..];
    assert s.parts == a + (b + c) && t.content == x + (y + z);
    NodesOfBoth(a, b + c);
    NodesOfBoth(b, c);
    NodesOfBoth(a, c);
    SeparateBoth(a, b + c);
    SeparateBoth(b, c);
    SeparateBoth(a, c);
    LayBoth(a, b + c, x, y + z);
    LayBoth(b, c, y, z);
    LayBoth(a, c, x, z);
  }

  /** Takes a run of children out of a node. */
  method Cut(n: Node, lo: nat, hi: nat, ghost s: Shape, ghost t: Tree) returns (ghost r: Shape)
    requires s.node == n && Carries(s, t) && lo <= hi <= |t.content|
    modifies n
    ensures r.node == n && Carries(r, t.(content := t.content[..lo] + t.content[hi..])) && n.flow == old(n.flow)
    ensures Nodes(r) <= Nodes(s)
  {
    Parts(s, t);
    n.content := n.content[..lo] + n.content[hi..];
    SplitAt(s, t, lo, hi);
    r := s.(parts := s.parts[..lo] + s.parts[hi..]);
  }

  method FindPlace(n: Node, key: string, ghost s: Shape, ghost t: Tree) returns (r: Option<nat>)
    requires s.node == n && Carries(s, t)
    ensures r == Place(t, key) && Carries(s, t)
  {
    Parts(s, t);
    var i := Atoi(key);
    if n.kind == Sequence && i.Some? && 0 <= i.value < |n.content| {
      return Some(i.value);
    }
    return None;
  }

  /** The place of a child: looked up by name, or, in a list, counted. */
  method FindChild(n: Node, key: string, ghost s: Shape, ghost t: Tree) returns (r: Option<nat>)
    requires s.node == n && Carries(s, t)
    ensures r == ChildAt(t, key) && Carries(s, t)
    ensures r.Some? ==> r.value < |n.content|
  {
    Parts(s, t);
    if n.kind == Mapping {
      r := FindKey(n, key, s, t);
    } else {
      r := FindPlace(n, key, s, t);
    }
  }

  /** Splices a child out of its parent's content, with its key if it has one. */
  method Take(n: Node, key: string, ghost s: Shape, ghost t: Tree) returns (ghost r: Shape)
    requires s.node == n && Carries(s, t)
    modifies n
    ensures r.node == n && Carries(r, TakeAway(t, key)) && n.flow == old(n.flow)
    ensures Nodes(r) <= Nodes(s)
  {
    Parts(s, t);
    var i := FindChild(n, key, s, t);
    r := s;
    if i.Some? {
      if n.kind == Mapping {
        r := Cut(n, i.value - 1, i.value + 1, s, t);
      } else {
        r := Cut(n, i.value, i.value + 1, s, t);
      }
    }
  }

  // ----- The way down to a node -----

  /** A node and its children, save the one the way leads through. */
  datatype Frame = Frame(node: Node, before: seq<Shape>, after: seq<Shape>)

  ghost function FrameNodes(f: Frame): set<Node> {
    {f.node} + AllNodes(f.before) + AllNodes(f.after)
  }

  ghost predicate FrameCarries(f: Frame, c: Crumb, hole: Node)
    reads FrameNodes(f)
  {
    && f.node.kind == c.kind && f.node.value == c.value && f.node.flow == c.flow
    && f.node.content == Tops(f.before) + ([hole] + Tops(f.after))
    && AllLay(f.before, c.before) && AllLay(f.after, c.after)
    && AllSeparate(f.before) && AllSeparate(f.after) && AllNodes(f.before) !! AllNodes(f.after)
    && f.node !in AllNodes(f.before) && f.node !in AllNodes(f.after)
  }

  function FrameAt(s: Shape, i: nat): Frame
    requires i < |s.parts|
  {
    Frame(s.node, s.parts[..i], s.parts[i + 1..])
  }

  lemma OpenFrame(s: Shape, t: Tree, i: nat)
    requires Carries(s, t) && i < |s.parts|
    ensures |t.content| == |s.parts| == |s.node.content|
    ensures s.node.content[i] == s.parts[i].node
    ensures FrameCarries(FrameAt(s, i), CrumbAt(t, i), s.parts[i].node) && Carries(s.parts[i], t.content[i])
    ensures Nodes(s) == FrameNodes(FrameAt(s, i)) + Nodes(s.parts[i]) && FrameNodes(FrameAt(s, i)) !! Nodes(s.parts[i])
  {
    hide AllLay, AllSeparate, AllNodes, Carries;
    PutAside(s, t, i);
    LayLike(s, t);
    TopsAt(s.parts, i);
  }

  lemma LayLike(s: Shape, t: Tree)
    requires Carries(s, t)
    ensures s.node.kind == t.kind && s.node.value == t.value && s.node.flow == t.flow
  {
  }

  lemma TopsAt(ps: seq<Shape>, i: nat)
    requires i < |ps|
    ensures Tops(ps) == Tops(ps[..i]) + ([ps[i].node] + Tops(ps[i + 1..]))
  {
  }

  lemma TopsAround(before: seq<Shape>, p: Shape, after: seq<Shape>)
    ensures Tops(before + ([p] + after)) == Tops(before) + ([p.node] + Tops(after))
  {
  }

  function Closed(f: Frame, p: Shape): Shape {
    Shape(f.node, f.before + ([p] + f.after))
  }

  lemma CloseFrame(f: Frame, c: Crumb, p: Shape, u: Tree)
    requires FrameCarries(f, c, p.node) && Carries(p, u) && Nodes(p) !! FrameNodes(f)
    ensures Carries(Closed(f, p), PlugOne(c, u)) && Nodes(Closed(f, p)) == FrameNodes(f) + Nodes(p)
  {
    hide AllLay, AllSeparate, AllNodes;
    LayLengths(f.before, c.before);
    LayLengths(f.after, c.after);
    TopsAround(f.before, p, f.after);
    Between(f.before, p, f.after, c.before, u, c.after);
  }

  lemma Between(a: seq<Shape>, p: Shape, b: seq<Shape>, x: seq<Tree>, u: Tree, y: seq<Tree>)
    requires |a| == |x| && |b| == |y| && Carries(p, u) && AllLay(a, x) && AllLay(b, y) && AllSeparate(a)
             && AllSeparate(b)
    requires AllNodes(a) !! Nodes(p) && AllNodes(b) !! Nodes(p) && AllNodes(a) !! AllNodes(b)
    ensures AllLay(a + ([p] + b), x + ([u] + y)) && AllSeparate(a + ([p] + b))
    ensures AllNodes(a + ([p] + b)) == AllNodes(a) + Nodes(p) + AllNodes(b)
  {
    hide AllLay, AllSeparate, AllNodes, Nodes, Lays, Separate;
    OneShape(p);
    OneTree(p, u);
    NodesOfBoth(a, [p] + b);
    NodesOfBoth([p], b);
    SeparateBoth(a, [p] + b);
    SeparateBoth([p], b);
    LayBoth(a, [p] + b, x, [u] + y);
    LayBoth([p], b, [u], y);
  }

  ghost function WayNodes(fs: seq<Frame>): set<Node> {
    if fs == [] then {} else FrameNodes(fs[0]) + WayNodes(fs[1..])
  }

  /** The frames carry the crumbs, the nearest first, down to `hole`. */
  ghost predicate WayCarries(fs: seq<Frame>, cs: seq<Crumb>, hole: Node)
    reads WayNodes(fs)
  {
    |fs| == |cs| && (fs == [] || (FrameCarries(fs[0], cs[0], hole) && WayCarries(fs[1..], cs[1..], fs[0].node)
                                  && FrameNodes(fs[0]) !! WayNodes(fs[1..])))
  }

  lemma WayExtent(fs: seq<Frame>) returns (all: set<Node>)
    ensures all == WayNodes(fs)
  {
    all := WayNodes(fs);
  }

  ghost function Outermost(fs: seq<Frame>, n: Node): Node {
    if fs == [] then n else Outermost(fs[1..], fs[0].node)
  }

  lemma {:induction false} CloseWay(fs: seq<Frame>, cs: seq<Crumb>, p: Shape, u: Tree) returns (r: Shape)
    requires WayCarries(fs, cs, p.node) && Carries(p, u) && Nodes(p) !! WayNodes(fs)
    ensures Carries(r, Plug(cs, u)) && Nodes(r) == WayNodes(fs) + Nodes(p) && r.node == Outermost(fs, p.node)
    decreases |fs|
  {
    if fs == [] {
      r := p;
    } else {
      CloseFrame(fs[0], cs[0], p, u);
      r := CloseWay(fs[1..], cs[1..], Closed(fs[0], p), PlugOne(cs[0], u));
    }
  }

  lemma Deeper(f: Frame, c: Crumb, fs: seq<Frame>, cs: seq<Crumb>, hole: Node)
    requires FrameCarries(f, c, hole) && WayCarries(fs, cs, f.node) && FrameNodes(f) !! WayNodes(fs)
    ensures WayCarries([f] + fs, [c] + cs, hole) && WayNodes([f] + fs) == FrameNodes(f) + WayNodes(fs)
    ensures Outermost([f] + fs, hole) == Outermost(fs, f.node)
  {
    assert ([f] + fs)[1..] == fs && ([c] + cs)[1..] == cs;
  }

  // ----- Setting -----

  /** Descends to a mapping, adding an empty one if nothing is there; what is no mapping is refused. */
  method MappingUnder(m: Node, key: string, ghost s: Shape, ghost t: Tree, ghost rest: set<Node>)
    returns (v: Option<Node>, ghost f: Frame, ghost sv: Shape)
    requires s.node == m && Carries(s, t) && t.kind == Mapping && |t.content| % 2 == 0 && rest !! Nodes(s)
    modifies Nodes(s)
    ensures v.Some? <==> Under(t, key).Some?
    ensures v.Some? ==> Descends(v.value, key, m, t, f, sv) && FrameNodes(f) + Nodes(sv) !! rest
    ensures v.Some? ==> Nodes(sv) <= Nodes(s) || (Nodes(sv) == {v.value} && fresh(v.value))
  {
    var i := FindKey(m, key, s, t);
    if i.Some? {
      v, f, sv := OpenMapping(m, key, i.value, s, t);
    } else {
      v, f, sv := MakeMapping(m, key, s, t, rest);
    }
  }

  /** The way leads from a mapping to the one under a key, as setting has it. */
  ghost predicate Descends(v: Node, key: string, m: Node, t: Tree, f: Frame, sv: Shape)
    reads FrameNodes(f), Nodes(sv)
  {
    && Under(t, key).Some? && sv.node == v && f.node == m
    && var made := Put(t, key, Under(t, key).value);
       && ChildAt(made, key).Some?
       && FrameCarries(f, CrumbAt(made, ChildAt(made, key).value), v)
       && Carries(sv, Under(t, key).value) && FrameNodes(f) !! Nodes(sv)
  }

  method OpenMapping(m: Node, key: string, i: nat, ghost s: Shape, ghost t: Tree)
    returns (v: Option<Node>, ghost f: Frame, ghost sv: Shape)
    requires s.node == m && Carries(s, t) && t.kind == Mapping && |t.content| % 2 == 0 && At(t, key) == Some(i)
    modifies Nodes(s)
    ensures v.Some? <==> Under(t, key).Some?
    ensures v.Some? ==> Descends(v.value, key, m, t, f, sv) && FrameNodes(f) + Nodes(sv) == Nodes(s)
  {
    Parts(s, t);
    OpenFrame(s, t, i);
    var child := m.content[i];
    f, sv := FrameAt(s, i), s.parts[i];
    Parts(sv, t.content[i]);
    if child.kind != Mapping {
      return None, f, sv;
    }
    if |child.content| == 0 {
      child.flow := false;
    }
    PutTwice(t, key, Opened(t.content[i]), Opened(t.content[i]));
    SeekAfterWrite(t.content, key, key, 0, i, Opened(t.content[i]));
    SameCrumb(t, i, Opened(t.content[i]));
    return Some(child), f, sv;
  }

  lemma SameCrumb(t: Tree, i: nat, u: Tree)
    requires i < |t.content|
    ensures CrumbAt(t.(content := t.content[i := u]), i) == CrumbAt(t, i)
  {
    assert t.content[i := u][..i] == t.content[..i] && t.content[i := u][i + 1..] == t.content[i + 1..];
  }

  method MakeMapping(m: Node, key: string, ghost s: Shape, ghost t: Tree, ghost rest: set<Node>)
    returns (v: Option<Node>, ghost f: Frame, ghost sv: Shape)
    requires s.node == m && Carries(s, t) && t.kind == Mapping && |t.content| % 2 == 0 && At(t, key) == None
             && rest !! Nodes(s)
    modifies m
    ensures v.Some? && Descends(v.value, key, m, t, f, sv) && FrameNodes(f) + Nodes(sv) !! rest
    ensures Nodes(sv) == {v.value} && fresh(v.value)
  {
    ghost var here := Extent(s);
    var made := new Node(Mapping, "");
    sv := Shape(made, []);
    BlankCarries(made);
    hide AllLay, AllSeparate, AllNodes, Put, At;
    ghost var r := PutKey(m, key, made, s, t, sv, EMPTY_MAPPING, rest);
    PutThenTake(t, key, EMPTY_MAPPING);
    OpenFrame(r, Put(t, key, EMPTY_MAPPING), |t.content| + 1);
    f := FrameAt(r, |t.content| + 1);
    v := Some(made);
  }

  lemma BlankCarries(n: Node)
    requires n.kind == Mapping && n.value == "" && !n.flow && n.content == []
    ensures Nodes(Shape(n, [])) == {n} && Carries(Shape(n, []), EMPTY_MAPPING)
  {
  }

  /** The way leads to a node and what it carries, all of it apart from the nodes of `others`. */
  ghost predicate Reached(fs: seq<Frame>, cs: seq<Crumb>, s: Shape, t: Tree, n: Node, others: set<Node>)
    reads Nodes(s), WayNodes(fs)
  {
    && s.node == n && Carries(s, t) && WayCarries(fs, cs, n)
    && Nodes(s) !! WayNodes(fs) && others !! Nodes(s) + WayNodes(fs)
  }

  /** One step down a path that is set. */
  method Descend(m: Node, key: string, ghost fs: seq<Frame>, ghost cs: seq<Crumb>, ghost s: Shape, ghost t: Tree,
                 ghost others: set<Node>, ghost parts: seq<string>, ghost tv: Tree)
    returns (next: Option<Node>, ghost gs: seq<Frame>, ghost ds: seq<Crumb>, ghost below: Shape)
    requires Reached(fs, cs, s, t, m, others) && t.kind == Mapping && WellFormed(t) && |parts| > 1 && parts[0] == key
    modifies Nodes(s)
    ensures next.None? ==> SetIn(t, parts, tv) == None
    ensures next.Some? ==>
              && Under(t, key).Some? && Reached(gs, ds, below, Under(t, key).value, next.value, others)
              && PlugSome(ds, SetIn(Under(t, key).value, parts[1..], tv)) == PlugSome(cs, SetIn(t, parts, tv))
              && Outermost(gs, next.value) == Outermost(fs, m)
    ensures next.Some? ==> below.node == next.value
    ensures next.Some? ==> Nodes(below) <= Nodes(s) || (Nodes(below) == {next.value} && fresh(next.value))
  {
    hide AllLay, AllSeparate, AllNodes, Put, At, SetIn, Under;
    ghost var way := WayExtent(fs);
    ghost var f;
    next, f, below := MappingUnder(m, key, s, t, way + others);
    gs, ds := fs, cs;
    if next.None? {
      UnderDecides(t, parts, tv);
      return;
    }
    ghost var made := Put(t, key, Under(t, key).value);
    ghost var c := CrumbAt(made, ChildAt(made, key).value);
    SetStep(t, parts, tv, cs);
    Deeper(f, c, fs, cs, next.value);
    gs, ds := [f] + fs, [c] + cs;
  }

  /** Walks down the mappings the path names, making what is absent, and writes the value at the last. */
  method SetUnder(from: Node, parts: seq<string>, v: Node, ghost s: Shape, ghost t: Tree, ghost sv: Shape,
                  ghost tv: Tree, ghost rest: set<Node>)
    returns (ok: bool, ghost r: Shape)
    requires s.node == from && Carries(s, t) && sv.node == v && Carries(sv, tv) && Nodes(s) !! Nodes(sv)
             && rest !! Nodes(s) + Nodes(sv)
    requires parts != [] && (|parts| > 1 ==> t.kind == Mapping && WellFormed(t))
    modifies Nodes(s)
    ensures ok <==> SetIn(t, parts, tv).Some?
    ensures ok ==> r.node == from && Carries(r, SetIn(t, parts, tv).value) && Nodes(r) !! rest
  {
    hide Reached, SetIn, Put, Under, Carries, Outermost;
    var m := from;
    ghost var fs: seq<Frame>, cs: seq<Crumb>, sm, tm := [], [], s, t;
    r := s;
    ghost var value := Extent(sv);
    AtFirst(s, t, value + rest, parts, tv);
    var i := 0;
    assert parts[0..] == parts;
    while i + 1 < |parts|
      invariant i < |parts|
      invariant Reached(fs, cs, sm, tm, m, value + rest) && (i + 1 < |parts| ==> tm.kind == Mapping && WellFormed(tm))
      invariant Outermost(fs, m) == from && Carries(sv, tv)
      invariant sm.node == m && (Nodes(sm) <= Nodes(s) || (Nodes(sm) == {m} && fresh(m)))
      invariant PlugSome(cs, SetIn(tm, parts[i..], tv)) == SetIn(t, parts, tv)
    {
      assert parts[i..][0] == parts[i] && parts[i..][1..] == parts[i + 1..];
      var next;
      ghost var gs, ds, below;
      next, gs, ds, below := Descend(m, parts[i], fs, cs, sm, tm, value + rest, parts[i..], tv);
      if next.None? {
        return false, r;
      }
      UnderIsWellFormed(tm, parts[i]);
      fs, cs, sm, tm, m := gs, ds, below, Under(tm, parts[i]).value, next.value;
      i := i + 1;
    }
    LastStep(tm, parts[i..], tv, cs);
    assert parts[i..][0] == parts[i];
    r := SetLast(m, parts[i], v, fs, cs, sm, tm, sv, tv, rest);
    ok := true;
  }

  lemma AtFirst(s: Shape, t: Tree, others: set<Node>, parts: seq<string>, tv: Tree)
    requires Carries(s, t) && others !! Nodes(s) && parts != []
    ensures Reached([], [], s, t, s.node, others) && Outermost([], s.node) == s.node && s.node in Nodes(s)
    ensures PlugSome([], SetIn(t, parts, tv)) == SetIn(t, parts, tv)
  {
  }

  lemma LastStep(m: Tree, parts: seq<string>, v: Tree, cs: seq<Crumb>)
    requires |parts| == 1
    ensures PlugSome(cs, SetIn(m, parts, v)) == Some(Plug(cs, Put(m, parts[0], v)))
  {
  }

  method SetLast(m: Node, key: string, v: Node, ghost fs: seq<Frame>, ghost cs: seq<Crumb>, ghost s: Shape,
                 ghost t: Tree,
                 ghost sv: Shape, ghost tv: Tree, ghost rest: set<Node>) returns (ghost r: Shape)
    requires Reached(fs, cs, s, t, m, Nodes(sv) + rest) && sv.node == v && Carries(sv, tv) && rest !! Nodes(sv)
    modifies m
    ensures r.node == Outermost(fs, m) && Carries(r, Plug(cs, Put(t, key, tv))) && Nodes(r) !! rest
  {
    hide AllLay, AllSeparate, AllNodes, Put, At;
    ghost var way := WayExtent(fs);
    ghost var last := PutKey(m, key, v, s, t, sv, tv, way + rest);
    r := CloseWay(fs, cs, last, Put(t, key, tv));
  }

  lemma UnderDecides(m: Tree, parts: seq<string>, v: Tree)
    requires |parts| > 1 && Under(m, parts[0]) == None
    ensures SetIn(m, parts, v) == None
  {
  }

  /** Goes one step down without writing: the frame that surrounds a child, and the child. */
  method Step(n: Node, i: nat, ghost s: Shape, ghost t: Tree) returns (child: Node, ghost f: Frame, ghost below: Shape)
    requires s.node == n && Carries(s, t) && i < |t.content|
    ensures below.node == child && Carries(below, t.content[i]) && FrameCarries(f, CrumbAt(t, i), child) && f.node == n
    ensures Nodes(s) == FrameNodes(f) + Nodes(below) && FrameNodes(f) !! Nodes(below)
  {
    Parts(s, t);
    OpenFrame(s, t, i);
    child := n.content[i];
    f, below := FrameAt(s, i), s.parts[i];
  }

  /** Writes a value at the path of a field. A field of a rule is written in the rule its place names, which
      must be there. */
  method Set(root: Node, parts: seq<string>, v: Node, ghost s: Shape, ghost t: Tree, ghost sv: Shape, ghost tv: Tree)
    returns (ok: bool, ghost r: Shape)
    requires s.node == root && Carries(s, t) && sv.node == v && Carries(sv, tv) && Nodes(s) !! Nodes(sv)
    requires IsRoot(t) && FieldPath(parts)
    modifies Nodes(s)
    ensures ok <==> SetField(t, parts, tv).Some?
    ensures ok ==> r.node == root && Carries(r, SetField(t, parts, tv).value)
  {
    hide AllLay, AllSeparate, AllNodes, Carries, SetIn;
    if parts[0] != "arbitration" {
      ok, r := SetUnder(root, parts, v, s, t, sv, tv, {});
      return;
    }
    r := s;
    ghost var value := Extent(sv);
    var at := FindKey(root, "arbitration", s, t);
    if at == None {
      return false, s;
    }
    var i := at.value;
    var rules;
    ghost var f, sr;
    rules, f, sr := Step(root, i, s, t);
    ghost var outer := WayExtent([f]);
    OneFrame(f);
    var place := FindPlace(rules, parts[1], sr, t.content[i]);
    if place == None {
      return false, s;
    }
    ok, r := SetRule(root, rules, place.value, parts, v, f, CrumbAt(t, i), sr, t.content[i], sv, tv);
    RuleFound(t, parts, tv, i, place.value);
  }

  lemma RuleFound(t: Tree, parts: seq<string>, tv: Tree, i: nat, n: nat)
    requires FieldPath(parts) && parts[0] == "arbitration" && At(t, "arbitration") == Some(i)
    requires i < |t.content| && n < |t.content[i].content| && Place(t.content[i], parts[1]) == Some(n)
    ensures SetField(t, parts, tv)
            == match SetIn(t.content[i].content[n], parts[2..], tv)
               case None => None
               case Some(u) => Some(PlugOne(CrumbAt(t, i), PlugOne(CrumbAt(t.content[i], n), u)))
  {
    match SetIn(t.content[i].content[n], parts[2..], tv)
    case None =>
    case Some(u) =>
      CrumbPlugs(t.content[i], n, u);
      CrumbPlugs(t, i, PlugOne(CrumbAt(t.content[i], n), u));
  }

  method SetRule(root: Node, rules: Node, n: nat, parts: seq<string>, v: Node, ghost f: Frame, ghost c: Crumb,
                 ghost s: Shape, ghost t: Tree, ghost sv: Shape, ghost tv: Tree) returns (ok: bool, ghost r: Shape)
    requires s.node == rules && Carries(s, t) && sv.node == v && Carries(sv, tv) && n < |t.content| && |parts| == 3
    requires FrameCarries(f, c, rules) && f.node == root && Nodes(s) + FrameNodes(f) !! Nodes(sv)
             && Nodes(s) !! FrameNodes(f)
    modifies Nodes(s)
    ensures ok <==> SetIn(t.content[n], parts[2..], tv).Some?
    ensures ok ==> r.node == root
                   && Carries(r, PlugOne(c, PlugOne(CrumbAt(t, n), SetIn(t.content[n], parts[2..], tv).value)))
  {
    hide AllLay, AllSeparate, AllNodes, SetIn;
    r := s;
    ghost var value := Extent(sv);
    ghost var outer := WayExtent([f]);
    OneFrame(f);
    var rule;
    ghost var g, below;
    rule, g, below := Step(rules, n, s, t);
    ghost var inner := WayExtent([g]);
    OneFrame(g);
    ghost var u;
    ok, u := SetUnder(rule, parts[2..], v, below, t.content[n], sv, tv, FrameNodes(f) + FrameNodes(g));
    if ok {
      CloseFrame(g, CrumbAt(t, n), u, SetIn(t.content[n], parts[2..], tv).value);
      CloseFrame(f, c, Closed(g, u), PlugOne(CrumbAt(t, n), SetIn(t.content[n], parts[2..], tv).value));
      r := Closed(f, Closed(g, u));
    }
  }

  lemma OneFrame(f: Frame)
    ensures WayNodes([f]) == FrameNodes(f)
  {
    assert [f][1..] == [];
  }

  // ----- Removing -----

  /** The chain of nodes along a path, none where nothing is there. */
  ghost predicate Chained(chain: seq<Node>, fs: seq<Frame>)
  {
    |chain| == |fs| && (fs == [] || (chain[|chain| - 1] == fs[0].node && Chained(chain[..|chain| - 1], fs[1..])))
  }

  lemma ChainGrows(chain: seq<Node>, fs: seq<Frame>, f: Frame)
    requires Chained(chain, fs)
    ensures Chained(chain + [f.node], [f] + fs)
  {
    assert (chain + [f.node])[..|chain|] == chain && ([f] + fs)[1..] == fs;
  }

  /** The chain leads along a path from the root of `t` to the node that carries `orig`. */
  ghost predicate Led(chain: seq<Node>, fs: seq<Frame>, cs: seq<Crumb>, below: Shape, orig: Tree, path: seq<string>,
                      s: Shape, t: Tree)
    reads Nodes(below), WayNodes(fs)
  {
    && Carries(below, orig) && WayCarries(fs, cs, below.node) && Nodes(below) !! WayNodes(fs)
    && Nodes(below) + WayNodes(fs) == Nodes(s) && Outermost(fs, below.node) == s.node
    && |fs| == |path| && Chained(chain, fs) && Follows(cs, path, orig) && Plug(cs, orig) == t
  }

  lemma LedAtFirst(s: Shape, t: Tree)
    requires Carries(s, t)
    ensures Led([], [], [], s, t, [], s, t)
  {
  }

  lemma LedDown(chain: seq<Node>, fs: seq<Frame>, cs: seq<Crumb>, below: Shape, orig: Tree, path: seq<string>, s: Shape,
                t: Tree,
                key: string, f: Frame, sub: Shape)
    requires Led(chain, fs, cs, below, orig, path, s, t) && ChildAt(orig, key).Some?
    requires var i := ChildAt(orig, key).value;
             Carries(sub, orig.content[i]) && FrameCarries(f, CrumbAt(orig, i), sub.node)
    requires f.node == below.node && Nodes(below) == FrameNodes(f) + Nodes(sub) && FrameNodes(f) !! Nodes(sub)
    ensures var i := ChildAt(orig, key).value;
            Led(chain + [f.node], [f] + fs, [CrumbAt(orig, i)] + cs, sub, orig.content[i], path + [key], s, t)
  {
    hide Carries, Plug, Follows, Chained, WayCarries, WayNodes, Outermost, CrumbAt;
    var i := ChildAt(orig, key).value;
    FollowsDown(cs, path, orig, key);
    Deeper(f, CrumbAt(orig, i), fs, cs, sub.node);
    ChainGrows(chain, fs, f);
  }

  method WalkDown(root: Node, parts: seq<string>, ghost s: Shape, ghost t: Tree)
    returns (ok: bool, chain: seq<Node>, ghost fs: seq<Frame>, ghost cs: seq<Crumb>, ghost below: Shape,
             ghost orig: Tree)
    requires s.node == root && Carries(s, t) && parts != []
    ensures !ok ==> Taken(t, parts, 0) == None
    ensures ok ==> Led(chain, fs, cs, below, orig, parts, s, t)
  {
    hide Led, Taken, CrumbAt, Carries, FrameCarries, WayNodes, Follows;
    chain, fs, cs, below, orig := [], [], [], s, t;
    var n := root;
    LedAtFirst(s, t);
    for i := 0 to |parts|
      invariant below.node == n && Led(chain, fs, cs, below, orig, parts[..i], s, t)
    {
      ghost var way := WayExtent(fs);
      ghost var here := Extent(below);
      LedCarries(chain, fs, cs, below, orig, parts[..i], s, t);
      var next := FindChild(n, parts[i], below, orig);
      if next == None {
        LedNowhere(chain, fs, cs, below, orig, parts, i, s, t);
        return false, chain, fs, cs, below, orig;
      }
      var child;
      ghost var f, sub;
      child, f, sub := Step(n, next.value, below, orig);
      LedDown(chain, fs, cs, below, orig, parts[..i], s, t, parts[i], f, sub);
      assert parts[..i + 1] == parts[..i] + [parts[i]];
      chain, fs, cs := chain + [n], [f] + fs, [CrumbAt(orig, next.value)] + cs;
      below, orig, n := sub, orig.content[next.value], child;
    }
    assert parts[..|parts|] == parts;
    ok := true;
  }

  lemma LedCarries(chain: seq<Node>, fs: seq<Frame>, cs: seq<Crumb>, below: Shape, orig: Tree, path: seq<string>,
                   s: Shape, t: Tree)
    requires Led(chain, fs, cs, below, orig, path, s, t)
    ensures Carries(below, orig)
  {
  }

  lemma LedNowhere(chain: seq<Node>, fs: seq<Frame>, cs: seq<Crumb>, below: Shape, orig: Tree, parts: seq<string>,
                   i: nat, s: Shape, t: Tree)
    requires i < |parts| && Led(chain, fs, cs, below, orig, parts[..i], s, t) && ChildAt(orig, parts[i]) == None
    ensures Taken(t, parts, 0) == None
  {
    hide Taken, Follows, Plug;
    NothingThere(orig, parts[i..], i);
    MissingBelow(cs, parts[..i], orig, parts[i..]);
    assert parts[..i] + parts[i..] == parts;
  }

  lemma NothingThere(t: Tree, rest: seq<string>, depth: nat)
    requires rest != [] && ChildAt(t, rest[0]) == None
    ensures Taken(t, rest, depth) == None
  {
  }

  /** On the way back up: what is carried now is what was taken below, and all of it is to go. */
  ghost predicate Rising(fs: seq<Frame>, cs: seq<Crumb>, now: Shape, tree: Tree, orig: Tree, parts: seq<string>,
                         s: Shape, t: Tree)
    reads Nodes(now), WayNodes(fs)
  {
    && Carries(now, tree) && WayCarries(fs, cs, now.node) && Nodes(now) !! WayNodes(fs)
    && Nodes(now) + WayNodes(fs) <= Nodes(s) && Outermost(fs, now.node) == s.node
    && |fs| <= |parts| && Follows(cs, parts[..|fs|], orig) && Plug(cs, orig) == t
    && (if |fs| == |parts| then tree == orig else Taken(orig, parts[|fs|..], |fs|) == Some((tree, true)))
  }

  /** What is taken at one step, given what was taken below it. */
  lemma TakenHere(c: Crumb, parts: seq<string>, i: nat, tree: Tree, orig: Tree)
    requires i < |parts| && ChildAt(PlugOne(c, orig), parts[i]) == Some(|c.before|)
    requires if i + 1 == |parts| then tree == orig else Taken(orig, parts[i + 1..], i + 1) == Some((tree, true))
    ensures var taken := TakeAway(PlugOne(c, tree), parts[i]);
            Taken(PlugOne(c, orig), parts[i..], i) == Some((taken, i >= 2 && Empty(taken)))
  {
    assert parts[i..] == [parts[i]] + parts[i + 1..];
    if i + 1 < |parts| { TakenAbove(c, parts[i], orig, parts[i + 1..], tree, i); }
  }

  /** The same, with whether what is carried now is to go still open. */
  ghost predicate Resting(fs: seq<Frame>, cs: seq<Crumb>, now: Shape, tree: Tree, orig: Tree, parts: seq<string>,
                          s: Shape, t: Tree)
    reads Nodes(now), WayNodes(fs)
  {
    && Carries(now, tree) && WayCarries(fs, cs, now.node) && Nodes(now) !! WayNodes(fs)
    && Nodes(now) + WayNodes(fs) <= Nodes(s) && Outermost(fs, now.node) == s.node
    && |fs| < |parts| && Follows(cs, parts[..|fs|], orig) && Plug(cs, orig) == t
    && Taken(orig, parts[|fs|..], |fs|) == Some((tree, |fs| >= 2 && Empty(tree)))
  }

  /** What surrounds a node's parent, the parent put together again. */
  lemma ParentOf(fs: seq<Frame>, cs: seq<Crumb>, now: Shape, tree: Tree, orig: Tree, parts: seq<string>, s: Shape,
                 t: Tree)
    requires Rising(fs, cs, now, tree, orig, parts, s, t) && fs != []
    ensures |cs| == |fs| <= |parts|
    ensures var whole := Closed(fs[0], now);
            && whole.node == fs[0].node && Carries(whole, PlugOne(cs[0], tree))
            && WayCarries(fs[1..], cs[1..], whole.node)
            && Nodes(whole) !! WayNodes(fs[1..]) && Nodes(whole) + WayNodes(fs[1..]) <= Nodes(s)
            && Outermost(fs[1..], whole.node) == s.node
  {
    hide Follows, Plug, Taken;
    CloseFrame(fs[0], cs[0], now, tree);
  }

  lemma ParentTaken(fs: seq<Frame>, cs: seq<Crumb>, now: Shape, tree: Tree, orig: Tree, parts: seq<string>, s: Shape,
                    t: Tree)
    requires Rising(fs, cs, now, tree, orig, parts, s, t) && fs != []
    ensures |cs| == |fs| <= |parts|
    ensures var i, above := |fs| - 1, PlugOne(cs[0], orig);
            && Follows(cs[1..], parts[..i], above) && Plug(cs[1..], above) == t
            && var taken := TakeAway(PlugOne(cs[0], tree), parts[i]);
               Taken(above, parts[i..], i) == Some((taken, i >= 2 && Empty(taken)))
  {
    hide Taken, TakeAway, Carries, WayCarries;
    WayLengths(fs, cs, now.node);
    var i := |fs| - 1;
    assert parts[..|fs|][..i] == parts[..i] && parts[..|fs|][i] == parts[i];
    TakenHere(cs[0], parts, i, tree, orig);
  }

  lemma WayLengths(fs: seq<Frame>, cs: seq<Crumb>, hole: Node)
    requires WayCarries(fs, cs, hole)
    ensures |fs| == |cs|
  {
  }

  /** Takes one node away from its parent. */
  method TakeOne(n: Node, key: string, ghost fs: seq<Frame>, ghost cs: seq<Crumb>, ghost now: Shape, ghost tree: Tree,
                 ghost orig: Tree,
                 ghost parts: seq<string>, ghost s: Shape, ghost t: Tree) returns (ghost r: Shape)
    requires Rising(fs, cs, now, tree, orig, parts, s, t) && fs != [] && fs[0].node == n && parts[|fs| - 1] == key
    modifies n
    ensures r.node == n
    ensures Resting(fs[1..], cs[1..], r, TakeAway(PlugOne(cs[0], tree), key), PlugOne(cs[0], orig), parts, s, t)
  {
    hide AllLay, AllSeparate, AllNodes, TakeAway, Taken, Carries, Rising, WayCarries, WayNodes, Follows, Plug, Nodes,
      Outermost;
    ParentOf(fs, cs, now, tree, orig, parts, s, t);
    ParentTaken(fs, cs, now, tree, orig, parts, s, t);
    ghost var way := WayExtent(fs[1..]);
    r := Take(n, key, Closed(fs[0], now), PlugOne(cs[0], tree));
  }

  /** What rests is to go: on the way up again. */
  lemma RisesOn(fs: seq<Frame>, cs: seq<Crumb>, now: Shape, tree: Tree, orig: Tree, parts: seq<string>, s: Shape,
                t: Tree)
    requires Resting(fs, cs, now, tree, orig, parts, s, t) && |fs| >= 2 && Empty(tree)
    ensures Rising(fs, cs, now, tree, orig, parts, s, t)
  {
  }

  /** What rests is to stay: the whole around it. */
  lemma RestsThere(fs: seq<Frame>, cs: seq<Crumb>, now: Shape, tree: Tree, orig: Tree, parts: seq<string>, s: Shape,
                   t: Tree)
    returns (r: Shape)
    requires Resting(fs, cs, now, tree, orig, parts, s, t) && !(|fs| >= 2 && Empty(tree))
    ensures r.node == s.node && Carries(r, Plug(cs, tree)) && Nodes(r) <= Nodes(s)
    ensures Taken(t, parts, 0) == Some((Plug(cs, tree), false))
  {
    hide Taken, Carries, Plug;
    TakenBelow(cs, parts[..|fs|], orig, parts[|fs|..], tree);
    assert parts[..|fs|] + parts[|fs|..] == parts;
    r := CloseWay(fs, cs, now, tree);
  }

  lemma RisesAtFirst(chain: seq<Node>, fs: seq<Frame>, cs: seq<Crumb>, below: Shape, orig: Tree, parts: seq<string>,
                     s: Shape, t: Tree)
    requires Led(chain, fs, cs, below, orig, parts, s, t)
    ensures Rising(fs, cs, below, orig, orig, parts, s, t) && |fs| == |parts| && Chained(chain, fs)
            && WayNodes(fs) <= Nodes(s)
  {
    assert parts[..|parts|] == parts;
  }

  lemma NextUp(fs: seq<Frame>, chain: seq<Node>)
    requires fs != [] && Chained(chain, fs)
    ensures |chain| == |fs| && chain[|chain| - 1] == fs[0].node && Chained(chain[..|chain| - 1], fs[1..])
            && fs[0].node in WayNodes(fs)
  {
  }

  lemma RisingWithin(fs: seq<Frame>, cs: seq<Crumb>, now: Shape, tree: Tree, orig: Tree, parts: seq<string>, s: Shape,
                     t: Tree)
    requires Rising(fs, cs, now, tree, orig, parts, s, t)
    ensures WayNodes(fs) <= Nodes(s) && |cs| == |fs|
  {
  }

  method IsEmpty(n: Node, ghost s: Shape, ghost t: Tree) returns (e: bool)
    requires s.node == n && Carries(s, t)
    ensures e <==> Empty(t)
  {
    Parts(s, t);
    e := (n.kind == Mapping || n.kind == Sequence) && |n.content| == 0;
  }

  lemma RestingCarries(fs: seq<Frame>, cs: seq<Crumb>, now: Shape, tree: Tree, orig: Tree, parts: seq<string>, s: Shape,
                       t: Tree)
    requires Resting(fs, cs, now, tree, orig, parts, s, t)
    ensures Carries(now, tree)
  {
  }

  /** Goes up a chain from its end, taking nodes out for as long as each leaves its parent empty. */
  method TakeUp(chain: seq<Node>, parts: seq<string>, ghost fs0: seq<Frame>, ghost cs0: seq<Crumb>, ghost below: Shape,
                ghost orig0: Tree,
                ghost s: Shape, ghost t: Tree) returns (ghost r: Shape, ghost u: Tree)
    requires parts != [] && Led(chain, fs0, cs0, below, orig0, parts, s, t)
    modifies Nodes(s)
    ensures r.node == s.node && Carries(r, u) && Nodes(r) <= Nodes(s)
    ensures Taken(t, parts, 0) == Some((u, false))
  {
    hide Rising, Resting, Carries, Taken, Plug, TakeAway, Chained, WayNodes, Nodes, Led, Empty;
    ghost var fs, cs, now, tree, orig := fs0, cs0, below, orig0, orig0;
    RisesAtFirst(chain, fs, cs, below, orig, parts, s, t);
    var i := |parts|;
    NextUp(fs, chain);
    assert chain[..i] == chain;
    while true
      invariant 0 < i <= |parts| && i <= |chain| && |fs| == i && Chained(chain[..i], fs)
      invariant Rising(fs, cs, now, tree, orig, parts, s, t)
      decreases i
    {
      RisingWithin(fs, cs, now, tree, orig, parts, s, t);
      NextUp(fs, chain[..i]);
      i := i - 1;
      assert chain[..i + 1][..i] == chain[..i];
      r := TakeOne(chain[i], parts[i], fs, cs, now, tree, orig, parts, s, t);
      fs, cs, now, tree, orig := fs[1..], cs[1..], r, TakeAway(PlugOne(cs[0], tree), parts[i]), PlugOne(cs[0], orig);
      RestingCarries(fs, cs, now, tree, orig, parts, s, t);
      ghost var way := WayExtent(fs);
      ghost var here := Extent(now);
      var emptied := IsEmpty(chain[i], now, tree);
      if i < 2 || !emptied {
        r := RestsThere(fs, cs, now, tree, orig, parts, s, t);
        u := Plug(cs, tree);
        return;
      }
      RisesOn(fs, cs, now, tree, orig, parts, s, t);
    }
  }

  method IsHeld(root: Node, key: string, name: string, ghost s: Shape, ghost t: Tree) returns (held: bool)
    requires s.node == root && Carries(s, t)
    ensures held <==> Trees.Holds(t, key, name)
  {
    var at := FindKey(root, key, s, t);
    if at == None {
      return false;
    }
    var m;
    ghost var f, below;
    m, f, below := Step(root, at.value, s, t);
    var child := FindChild(m, name, below, t.content[at.value]);
    return child.Some?;
  }

  /** Drops the parameters grouped under a name that neither a unit nor a channel has any more. */
  method Ungroup(root: Node, parts: seq<string>, ghost s: Shape, ghost t: Tree) returns (ghost r: Shape)
    requires s.node == root && Carries(s, t)
    modifies Nodes(s)
    ensures r.node == root && Carries(r, Ungrouped(t, parts))
  {
    hide Carries, TakeAway, Nodes;
    r := s;
    if |parts| == 2 && (parts[0] == "units" || parts[0] == "channels") {
      ghost var here := Extent(s);
      var params := FindKey(root, "parameters", s, t);
      var unit := IsHeld(root, "units", parts[1], s, t);
      var channel := IsHeld(root, "channels", parts[1], s, t);
      if params.Some? && !unit && !channel {
        var m;
        ghost var f, below;
        m, f, below := Step(root, params.value, s, t);
        ghost var outer := WayExtent([f]);
        OneFrame(f);
        ghost var left := Take(m, parts[1], below, t.content[params.value]);
        CloseFrame(f, CrumbAt(t, params.value), left, TakeAway(t.content[params.value], parts[1]));
        CrumbPlugs(t, params.value, TakeAway(t.content[params.value], parts[1]));
        r := Closed(f, left);
      }
    }
  }

  /** Edits the nodes so that nothing is left of the path, of what it alone kept from being empty, and of a
      group of parameters that has lost its owners. */
  method Remove(root: Node, parts: seq<string>, ghost s: Shape, ghost t: Tree) returns (ok: bool, ghost r: Shape)
    requires s.node == root && Carries(s, t) && parts != []
    modifies Nodes(s)
    ensures ok <==> RemoveNode(t, parts).Some?
    ensures ok ==> r.node == root && Carries(r, RemoveNode(t, parts).value)
  {
    hide Carries, Taken, Plug, Led;
    ghost var here := Extent(s);
    var chain;
    ghost var fs, cs, below, orig;
    ok, chain, fs, cs, below, orig := WalkDown(root, parts, s, t);
    r := s;
    if !ok {
      return;
    }
    ghost var taken, u;
    taken, u := TakeUp(chain, parts, fs, cs, below, orig, s, t);
    r := Ungroup(root, parts, taken, u);
  }

}
