/** The way down to a node: what surrounds it at each step, and how an edit below shows above. A crumb holds
    a node without one of its children; a way is a sequence of crumbs from the top. Plugging a subtree back
    along the way it was taken from gives the whole again, so an edit in place of one node is an edit of the
    whole tree at that one place. The value-level edits of a document are restated along such ways. */
module Crumbs {
  import opened Prelude
  import opened Trees

  /** A node without one of its children. */
  datatype Crumb = Crumb(kind: Kind, value: string, flow: bool, before: seq<Tree>, after: seq<Tree>)

  function CrumbAt(n: Tree, i: nat): Crumb
    requires i < |n.content|
  {
    Crumb(n.kind, n.value, n.flow, n.content[..i], n.content[i + 1..])
  }

  function PlugOne(c: Crumb, t: Tree): Tree {
    Tree(c.kind, c.value, c.flow, c.before + ([t] + c.after))
  }

  /** The whole tree around a node, the nearest crumb first. */
  function Plug(cs: seq<Crumb>, t: Tree): Tree {
    if cs == [] then t else Plug(cs[1..], PlugOne(cs[0], t))
  }

  lemma CrumbPlugs(n: Tree, i: nat, t: Tree)
    requires i < |n.content|
    ensures PlugOne(CrumbAt(n, i), t) == n.(content := n.content[i := t])
    ensures PlugOne(CrumbAt(n, i), n.content[i]) == n
  {
    assert n.content[..i] + ([t] + n.content[i + 1..]) == n.content[i := t];
    assert n.content[..i] + ([n.content[i]] + n.content[i + 1..]) == n.content;
  }

  // ----- Setting -----

  function PlugSome(cs: seq<Crumb>, t: Option<Tree>): Option<Tree> {
    match t case None => None case Some(x) => Some(Plug(cs, x))
  }

  /** One step of setting: what is made of the mapping below, put back under its key. */
  lemma SetStep(m: Tree, parts: seq<string>, v: Tree, cs: seq<Crumb>)
    requires m.kind == Mapping && |m.content| % 2 == 0 && |parts| > 1 && Under(m, parts[0]).Some?
    ensures var made := Put(m, parts[0], Under(m, parts[0]).value);
            && ChildAt(made, parts[0]).Some?
            && PlugSome(cs, SetIn(m, parts, v))
               == PlugSome([CrumbAt(made, ChildAt(made, parts[0]).value)] + cs,
                           SetIn(Under(m, parts[0]).value, parts[1..], v))
  {
    var next := Under(m, parts[0]).value;
    var made := Put(m, parts[0], next);
    PutTwice(m, parts[0], next, next);
    var i := ChildAt(made, parts[0]).value;
    var c := CrumbAt(made, i);
    assert ([c] + cs)[1..] == cs;
    match SetIn(next, parts[1..], v)
    case None =>
    case Some(t) =>
      PutTwice(m, parts[0], next, t);
      CrumbPlugs(made, i, t);
  }

  // ----- Removing -----

  /** The crumbs lead along the path to `t`. */
  ghost predicate Follows(cs: seq<Crumb>, path: seq<string>, t: Tree)
    decreases |cs|
  {
    && |cs| == |path|
    && (cs != [] ==>
          && ChildAt(PlugOne(cs[0], t), path[|path| - 1]) == Some(|cs[0].before|)
          && Follows(cs[1..], path[..|path| - 1], PlugOne(cs[0], t)))
  }

  lemma ChildStays(n: Tree, key: string, v: Tree)
    requires ChildAt(n, key).Some?
    ensures var i := ChildAt(n, key).value;
            ChildAt(n.(content := n.content[i := v]), key) == Some(i)
            && TakeAway(n.(content := n.content[i := v]), key) == TakeAway(n, key)
  {
    var i := ChildAt(n, key).value;
    if n.kind == Mapping { SeekAfterWrite(n.content, key, key, 0, i, v); }
    assert n.content[i := v][..i] == n.content[..i] && n.content[i := v][i + 1..] == n.content[i + 1..];
    assert n.kind == Mapping ==> n.content[i := v][..i - 1] == n.content[..i - 1];
  }

  lemma FollowsDown(cs: seq<Crumb>, path: seq<string>, t: Tree, key: string)
    requires Follows(cs, path, t) && ChildAt(t, key).Some?
    ensures Follows([CrumbAt(t, ChildAt(t, key).value)] + cs, path + [key], t.content[ChildAt(t, key).value])
    ensures Plug([CrumbAt(t, ChildAt(t, key).value)] + cs, t.content[ChildAt(t, key).value]) == Plug(cs, t)
  {
    var i := ChildAt(t, key).value;
    var c := CrumbAt(t, i);
    CrumbPlugs(t, i, t.content[i]);
    assert ([c] + cs)[1..] == cs && (path + [key])[..|path|] == path;
  }

  /** The path ahead fails below where it fails from the root. */
  lemma {:induction false} MissingBelow(cs: seq<Crumb>, path: seq<string>, t: Tree, rest: seq<string>)
    requires Follows(cs, path, t) && rest != [] && Taken(t, rest, |path|) == None
    ensures Taken(Plug(cs, t), path + rest, 0) == None
    decreases |cs|
  {
    if cs == [] {
      assert path + rest == rest;
    } else {
      var key, front := path[|path| - 1], path[..|path| - 1];
      var n := PlugOne(cs[0], t);
      assert n.content[|cs[0].before|] == t;
      assert ([key] + rest)[1..] == rest;
      MissingBelow(cs[1..], front, n, [key] + rest);
      assert front + ([key] + rest) == path + rest;
    }
  }

  /** What is taken below, where no more goes with it, is all that is taken. */
  lemma {:induction false} TakenBelow(cs: seq<Crumb>, path: seq<string>, t: Tree, rest: seq<string>, u: Tree)
    requires Follows(cs, path, t) && rest != [] && Taken(t, rest, |path|) == Some((u, false))
    ensures Taken(Plug(cs, t), path + rest, 0) == Some((Plug(cs, u), false))
    decreases |cs|
  {
    if cs == [] {
      assert path + rest == rest;
    } else {
      hide TakeAway, ChildAt;
      var key, front := path[|path| - 1], path[..|path| - 1];
      var n := PlugOne(cs[0], t);
      assert n.content[|cs[0].before|] == t && n.content[|cs[0].before| := u] == PlugOne(cs[0], u).content;
      assert ([key] + rest)[1..] == rest;
      TakenBelow(cs[1..], front, n, [key] + rest, PlugOne(cs[0], u));
      assert front + ([key] + rest) == path + rest;
    }
  }

  /** Where what was left is to go as well, its parent loses it. */
  lemma TakenAbove(c: Crumb, key: string, t: Tree, rest: seq<string>, u: Tree, depth: nat)
    requires ChildAt(PlugOne(c, t), key) == Some(|c.before|) && rest != []
             && Taken(t, rest, depth + 1) == Some((u, true))
    ensures var taken := TakeAway(PlugOne(c, u), key);
            Taken(PlugOne(c, t), [key] + rest, depth) == Some((taken, depth >= 2 && Empty(taken)))
  {
    var n := PlugOne(c, t);
    assert ([key] + rest)[1..] == rest && n.content[|c.before|] == t;
    ChildStays(n, key, u);
    assert n.content[|c.before| := u] == PlugOne(c, u).content;
  }
}
