/** What a plugin's Manifest declares, joined to its capabilities, and what of it a grant allows. */
module Grants {
  import opened Prelude

  datatype Object = Object(kind: string, id: string)

  datatype Capability = Capability(name: string, governs: Object)

  datatype Manifest = Manifest(
    capabilities: seq<Capability>,
    streams: seq<string>,
    commands: seq<string>,
    queries: seq<string>,
    occurrences: seq<string>
  )

  datatype Surface = Surface(
    capabilities: seq<string>,
    streams: seq<string>,
    commands: seq<string>,
    queries: seq<string>,
    occurrences: seq<string>
  )

  const NOTHING := Surface([], [], [], [], [])

  /** What a list of a Manifest may hold. */
  const KINDS := {"stream", "command", "query", "occurrence"}

  function ListOf(s: Surface, kind: string): seq<string> {
    match kind
    case "stream" => s.streams
    case "command" => s.commands
    case "query" => s.queries
    case "occurrence" => s.occurrences
    case _ => []
  }

  function Names(cs: seq<Capability>): (r: seq<string>)
    ensures |r| == |cs| && forall i :: 0 <= i < |cs| ==> r[i] == cs[i].name
  {
    if cs == [] then [] else Names(cs[..|cs| - 1]) + [cs[|cs| - 1].name]
  }

  /** What a Manifest declares, as a registration states it. */
  function Declared(m: Manifest): Surface {
    Surface(Names(m.capabilities), m.streams, m.commands, m.queries, m.occurrences)
  }

  // ----- The grant -----

  ghost function Governed(cs: seq<Capability>, grants: set<string>): set<Object> {
    if cs == [] then {}
    else Governed(cs[..|cs| - 1], grants) + (if cs[|cs| - 1].name in grants then {cs[|cs| - 1].governs} else {})
  }

  /** The names granted, or those withheld, in order. */
  ghost function PickedNames(cs: seq<Capability>, grants: set<string>, granted: bool): seq<string> {
    if cs == [] then []
    else PickedNames(cs[..|cs| - 1], grants, granted)
         + (if (cs[|cs| - 1].name in grants) == granted then [cs[|cs| - 1].name] else [])
  }

  ghost function Picked(kind: string, ids: seq<string>, governed: set<Object>, granted: bool): seq<string> {
    if ids == [] then []
    else Picked(kind, ids[..|ids| - 1], governed, granted)
         + (if (Object(kind, ids[|ids| - 1]) in governed) == granted then [ids[|ids| - 1]] else [])
  }

  /** The part of what is declared that is granted, or the part that is withheld. */
  ghost function Part(m: Manifest, grants: set<string>, granted: bool): Surface {
    var governed := Governed(m.capabilities, grants);
    Surface(PickedNames(m.capabilities, grants, granted),
            Picked("stream", m.streams, governed, granted),
            Picked("command", m.commands, governed, granted),
            Picked("query", m.queries, governed, granted),
            Picked("occurrence", m.occurrences, governed, granted))
  }

  // ----- The scope a Session enforces -----

  datatype Verdict = Allowed | Withheld | Undeclared

  class Scope {
    var declared: set<Object>
    var granted: set<Object>

    constructor ()
      ensures declared == {} && granted == {}
    {
      declared, granted := {}, {};
    }

    method Declare(kind: string, id: string)
      modifies this`declared
      ensures declared == old(declared) + {Object(kind, id)}
    {
      declared := declared + {Object(kind, id)};
    }

    method Grant(kind: string, id: string)
      modifies this`granted
      ensures granted == old(granted) + {Object(kind, id)}
    {
      granted := granted + {Object(kind, id)};
    }

    function Check(kind: string, id: string): Verdict
      reads this
    {
      if Object(kind, id) in granted then Allowed
      else if Object(kind, id) in declared then Withheld
      else Undeclared
    }
  }

  /** The scope is the grant as a message is checked against it: what is granted is allowed, what is
      withheld is known as such, and nothing else was ever declared. */
  ghost predicate Enforces(sc: Scope, granted: Surface, withheld: Surface)
    reads sc
  {
    forall kind, id :: kind in KINDS ==>
      && (sc.Check(kind, id) == Allowed <==> id in ListOf(granted, kind))
      && (sc.Check(kind, id) == Withheld <==> id in ListOf(withheld, kind))
  }

  ghost function Objects(kind: string, ids: seq<string>): set<Object> {
    set i | 0 <= i < |ids| :: Object(kind, ids[i])
  }

  /** Divides everything a Manifest declares by whether its capability was authorised, and collects the scope
      that goes with the first half. */
  method Intersect(m: Manifest, grants: seq<string>) returns (granted: Surface, withheld: Surface, sc: Scope)
    ensures granted == Part(m, set g | g in grants, true)
    ensures withheld == Part(m, set g | g in grants, false)
    ensures SplitBy(m, grants, granted, withheld)
    ensures fresh(sc) && Enforces(sc, granted, withheld)
  {
    hide Enforces, Objects, Picked, PickedNames, Governed;
    sc := new Scope();
    var into, out, governed := Authorise(m.capabilities, grants);
    var s, ws := Sort(sc, "stream", m.streams, governed);
    var c, wc := Sort(sc, "command", m.commands, governed);
    var q, wq := Sort(sc, "query", m.queries, governed);
    var o, wo := Sort(sc, "occurrence", m.occurrences, governed);
    granted := Surface(into, s, c, q, o);
    withheld := Surface(out, ws, wc, wq, wo);
    UnionsMeet(Objects("stream", m.streams), Objects("command", m.commands), Objects("query", m.queries),
               Objects("occurrence", m.occurrences), governed);
    ScopeEnforces(sc, m, governed, granted, withheld);
    PartsAreSplit(m, grants);
    hide SplitBy;
  }

  method Authorise(cs: seq<Capability>, grants: seq<string>)
      returns (into: seq<string>, out: seq<string>, governed: set<Object>)
    ensures var allowed := set g | g in grants;
            && governed == Governed(cs, allowed)
            && into == PickedNames(cs, allowed, true) && out == PickedNames(cs, allowed, false)
  {
    ghost var allowed := set g | g in grants;
    into, out, governed := [], [], {};
    for i := 0 to |cs|
      invariant governed == Governed(cs[..i], allowed)
      invariant into == PickedNames(cs[..i], allowed, true) && out == PickedNames(cs[..i], allowed, false)
    {
      var c := cs[i];
      assert cs[..i + 1][..i] == cs[..i];
      if c.name in grants {
        into := into + [c.name];
        governed := governed + {c.governs};
      } else {
        out := out + [c.name];
      }
    }
    assert cs[..|cs|] == cs;
  }

  method Sort(sc: Scope, kind: string, ids: seq<string>, governed: set<Object>)
      returns (into: seq<string>, out: seq<string>)
    modifies sc
    ensures into == Picked(kind, ids, governed, true) && out == Picked(kind, ids, governed, false)
    ensures sc.declared == old(sc.declared) + Objects(kind, ids)
    ensures sc.granted == old(sc.granted) + Objects(kind, ids) * governed
  {
    into, out := [], [];
    for i := 0 to |ids|
      invariant into == Picked(kind, ids[..i], governed, true) && out == Picked(kind, ids[..i], governed, false)
      invariant sc.declared == old(sc.declared) + Objects(kind, ids[..i])
      invariant sc.granted == old(sc.granted) + Objects(kind, ids[..i]) * governed
    {
      var id := ids[i];
      ObjectsGrow(kind, ids, i);
      assert ids[..i + 1][..i] == ids[..i];
      sc.Declare(kind, id);
      if Object(kind, id) in governed {
        sc.Grant(kind, id);
        into := into + [id];
      } else {
        out := out + [id];
      }
    }
    assert ids[..|ids|] == ids;
  }

  lemma ObjectsGrow(kind: string, ids: seq<string>, i: nat)
    requires i < |ids|
    ensures Objects(kind, ids[..i + 1]) == Objects(kind, ids[..i]) + {Object(kind, ids[i])}
  {
    assert ids[..i + 1] == ids[..i] + [ids[i]];
    forall o ensures o in Objects(kind, ids[..i + 1]) <==> o in Objects(kind, ids[..i]) + {Object(kind, ids[i])} {
      if o in Objects(kind, ids[..i]) {
        var k :| 0 <= k < i && o == Object(kind, ids[..i][k]);
        assert o == Object(kind, ids[..i + 1][k]);
      }
      if o == Object(kind, ids[i]) { assert o == Object(kind, ids[..i + 1][i]); }
    }
  }

  lemma {:induction false} PickedIs(kind: string, ids: seq<string>, governed: set<Object>, granted: bool, id: string)
    ensures id in Picked(kind, ids, governed, granted) <==> id in ids && (Object(kind, id) in governed) == granted
  {
    if ids != [] {
      PickedIs(kind, ids[..|ids| - 1], governed, granted, id);
      assert ids == ids[..|ids| - 1] + [ids[|ids| - 1]];
    }
  }

  lemma UnionsMeet(a: set<Object>, b: set<Object>, c: set<Object>, d: set<Object>, g: set<Object>)
    ensures {} + a * g + b * g + c * g + d * g == (a + b + c + d) * g
    ensures {} + a + b + c + d == a + b + c + d
  {
  }

  ghost function AllObjects(m: Manifest): set<Object> {
    Objects("stream", m.streams) + Objects("command", m.commands) + Objects("query", m.queries)
      + Objects("occurrence", m.occurrences)
  }

  lemma ObjectsOf(m: Manifest, kind: string, id: string)
    requires kind in KINDS
    ensures Object(kind, id) in AllObjects(m) <==> id in ListOf(Declared(m), kind)
  {
    var ids := ListOf(Declared(m), kind);
    assert |"stream"| == 6 && |"command"| == 7 && |"query"| == 5 && |"occurrence"| == 10;
    if id in ids {
      var i :| 0 <= i < |ids| && ids[i] == id;
      assert Object(kind, id) in Objects(kind, ids);
    }
  }

  lemma ScopeEnforces(sc: Scope, m: Manifest, governed: set<Object>, granted: Surface, withheld: Surface)
    requires sc.declared == AllObjects(m) && sc.granted == AllObjects(m) * governed
    requires granted.streams == Picked("stream", m.streams, governed, true)
             && withheld.streams == Picked("stream", m.streams, governed, false)
    requires granted.commands == Picked("command", m.commands, governed, true)
             && withheld.commands == Picked("command", m.commands, governed, false)
    requires granted.queries == Picked("query", m.queries, governed, true)
             && withheld.queries == Picked("query", m.queries, governed, false)
    requires granted.occurrences == Picked("occurrence", m.occurrences, governed, true)
    requires withheld.occurrences == Picked("occurrence", m.occurrences, governed, false)
    ensures Enforces(sc, granted, withheld)
  {
    forall kind, id | kind in KINDS
      ensures sc.Check(kind, id) == Allowed <==> id in ListOf(granted, kind)
      ensures sc.Check(kind, id) == Withheld <==> id in ListOf(withheld, kind)
    {
      ObjectsOf(m, kind, id);
      PickedIs(kind, ListOf(Declared(m), kind), governed, true, id);
      PickedIs(kind, ListOf(Declared(m), kind), governed, false, id);
    }
  }

  // ----- What the grant is -----

  /** Two lists that together are `all`, in its order, nothing lost and nothing doubled. */
  ghost predicate Interleaves(all: seq<string>, yes: seq<string>, no: seq<string>) {
    if all == [] then yes == [] && no == []
    else
      var x, rest := all[|all| - 1], all[..|all| - 1];
      || (yes != [] && yes[|yes| - 1] == x && Interleaves(rest, yes[..|yes| - 1], no))
      || (no != [] && no[|no| - 1] == x && Interleaves(rest, yes, no[..|no| - 1]))
  }

  lemma {:induction false} InterleavedIsAll(all: seq<string>, yes: seq<string>, no: seq<string>)
    requires Interleaves(all, yes, no)
    ensures multiset(yes) + multiset(no) == multiset(all)
  {
    if all != [] {
      var x, rest := all[|all| - 1], all[..|all| - 1];
      assert all == rest + [x];
      if yes != [] && yes[|yes| - 1] == x && Interleaves(rest, yes[..|yes| - 1], no) {
        InterleavedIsAll(rest, yes[..|yes| - 1], no);
        assert yes == yes[..|yes| - 1] + [x];
      } else {
        InterleavedIsAll(rest, yes, no[..|no| - 1]);
        assert no == no[..|no| - 1] + [x];
      }
    }
  }

  lemma Appended(all: seq<string>, yes: seq<string>, no: seq<string>, x: string)
    requires Interleaves(all, yes, no)
    ensures Interleaves(all + [x], yes + [x], no) && Interleaves(all + [x], yes, no + [x])
  {
    assert (all + [x])[..|all|] == all && (yes + [x])[..|yes|] == yes && (no + [x])[..|no|] == no;
  }

  lemma {:induction false} PickedInterleaves(kind: string, ids: seq<string>, governed: set<Object>)
    ensures Interleaves(ids, Picked(kind, ids, governed, true), Picked(kind, ids, governed, false))
  {
    if ids != [] {
      var rest, x := ids[..|ids| - 1], ids[|ids| - 1];
      PickedInterleaves(kind, rest, governed);
      var yes, no := Picked(kind, rest, governed, true), Picked(kind, rest, governed, false);
      Appended(rest, yes, no, x);
      assert ids == rest + [x] && yes + [] == yes && no + [] == no;
    }
  }

  lemma {:induction false} PickedNamesInterleave(cs: seq<Capability>, grants: set<string>)
    ensures Interleaves(Names(cs), PickedNames(cs, grants, true), PickedNames(cs, grants, false))
  {
    if cs != [] {
      var rest, x := cs[..|cs| - 1], cs[|cs| - 1].name;
      PickedNamesInterleave(rest, grants);
      var yes, no := PickedNames(rest, grants, true), PickedNames(rest, grants, false);
      Appended(Names(rest), yes, no, x);
      assert yes + [] == yes && no + [] == no;
    }
  }

  /** Granted and withheld split each declared list in order, with nothing lost or doubled. */
  lemma GrantSplitsDeclared(m: Manifest, grants: set<string>)
    ensures var yes, no := Part(m, grants, true), Part(m, grants, false);
            && Interleaves(Names(m.capabilities), yes.capabilities, no.capabilities)
            && Interleaves(m.streams, yes.streams, no.streams)
            && Interleaves(m.commands, yes.commands, no.commands)
            && Interleaves(m.queries, yes.queries, no.queries)
            && Interleaves(m.occurrences, yes.occurrences, no.occurrences)
  {
    var governed := Governed(m.capabilities, grants);
    PickedNamesInterleave(m.capabilities, grants);
    PickedInterleaves("stream", m.streams, governed);
    PickedInterleaves("command", m.commands, governed);
    PickedInterleaves("query", m.queries, governed);
    PickedInterleaves("occurrence", m.occurrences, governed);
  }

  // ----- What of it is granted -----

  /** A capability that governs the object is among the grants. */
  ghost predicate Allows(m: Manifest, grants: seq<string>, o: Object) {
    exists i :: 0 <= i < |m.capabilities| && m.capabilities[i].governs == o && m.capabilities[i].name in grants
  }

  /** One kind's list in two, in its order: what a granted capability governs, and the rest. */
  ghost predicate Splits(m: Manifest, grants: seq<string>, kind: string, yes: seq<string>, no: seq<string>) {
    && Interleaves(ListOf(Declared(m), kind), yes, no)
    && (forall id :: id in yes <==> id in ListOf(Declared(m), kind) && Allows(m, grants, Object(kind, id)))
    && (forall id :: id in no <==> id in ListOf(Declared(m), kind) && !Allows(m, grants, Object(kind, id)))
  }

  /** Everything a Manifest declares in two, in its order: what is granted, and the rest. */
  ghost predicate SplitBy(m: Manifest, grants: seq<string>, granted: Surface, withheld: Surface) {
    && Interleaves(Names(m.capabilities), granted.capabilities, withheld.capabilities)
    && (forall name :: name in granted.capabilities <==> name in Names(m.capabilities) && name in grants)
    && (forall name :: name in withheld.capabilities <==> name in Names(m.capabilities) && name !in grants)
    && Splits(m, grants, "stream", granted.streams, withheld.streams)
    && Splits(m, grants, "command", granted.commands, withheld.commands)
    && Splits(m, grants, "query", granted.queries, withheld.queries)
    && Splits(m, grants, "occurrence", granted.occurrences, withheld.occurrences)
  }

  lemma {:induction false} PickedNamesAre(cs: seq<Capability>, grants: set<string>, granted: bool, name: string)
    ensures name in PickedNames(cs, grants, granted) <==> name in Names(cs) && (name in grants) == granted
  {
    if cs != [] { PickedNamesAre(cs[..|cs| - 1], grants, granted, name); }
  }

  lemma {:induction false} GovernedAre(cs: seq<Capability>, grants: set<string>, o: Object)
    ensures o in Governed(cs, grants)
            <==> exists i :: 0 <= i < |cs| && cs[i].governs == o && cs[i].name in grants
  {
    if cs != [] {
      var rest, last := cs[..|cs| - 1], cs[|cs| - 1];
      GovernedAre(rest, grants, o);
      if i :| 0 <= i < |rest| && rest[i].governs == o && rest[i].name in grants { assert cs[i] == rest[i]; }
      if last.governs == o && last.name in grants { assert cs[|cs| - 1] == last; }
    }
  }

  lemma PartSplits(m: Manifest, grants: seq<string>, kind: string)
    ensures var allowed := set g | g in grants;
            var ids, governed := ListOf(Declared(m), kind), Governed(m.capabilities, allowed);
            Splits(m, grants, kind, Picked(kind, ids, governed, true), Picked(kind, ids, governed, false))
  {
    var allowed := set g | g in grants;
    var ids, governed := ListOf(Declared(m), kind), Governed(m.capabilities, allowed);
    PickedInterleaves(kind, ids, governed);
    forall id
      ensures id in Picked(kind, ids, governed, true) <==> id in ids && Allows(m, grants, Object(kind, id))
      ensures id in Picked(kind, ids, governed, false) <==> id in ids && !Allows(m, grants, Object(kind, id))
    {
      PickedIs(kind, ids, governed, true, id);
      PickedIs(kind, ids, governed, false, id);
      GovernedAre(m.capabilities, allowed, Object(kind, id));
    }
  }

  /** Granted is what is among the grants, or governed by a capability that is; withheld the rest. */
  lemma PartsAreSplit(m: Manifest, grants: seq<string>)
    ensures var allowed := set g | g in grants;
            SplitBy(m, grants, Part(m, allowed, true), Part(m, allowed, false))
  {
    hide Picked, PickedNames, Governed, Splits, Interleaves;
    var allowed := set g | g in grants;
    PartSplits(m, grants, "stream");
    PartSplits(m, grants, "command");
    PartSplits(m, grants, "query");
    PartSplits(m, grants, "occurrence");
    PickedNamesInterleave(m.capabilities, allowed);
    forall name
      ensures name in PickedNames(m.capabilities, allowed, true) <==> name in Names(m.capabilities) && name in grants
      ensures name in PickedNames(m.capabilities, allowed, false) <==> name in Names(m.capabilities) && name !in grants
    {
      PickedNamesAre(m.capabilities, allowed, true, name);
      PickedNamesAre(m.capabilities, allowed, false, name);
    }
  }

  lemma {:induction false} GovernedGrows(cs: seq<Capability>, g: set<string>, h: set<string>)
    requires g <= h
    ensures Governed(cs, g) <= Governed(cs, h)
    ensures multiset(PickedNames(cs, h, false)) <= multiset(PickedNames(cs, g, false))
  {
    if cs != [] { GovernedGrows(cs[..|cs| - 1], g, h); }
  }

  lemma {:induction false} WithheldShrinks(kind: string, ids: seq<string>, g: set<Object>, h: set<Object>)
    requires g <= h
    ensures multiset(Picked(kind, ids, h, false)) <= multiset(Picked(kind, ids, g, false))
  {
    if ids != [] { WithheldShrinks(kind, ids[..|ids| - 1], g, h); }
  }

  /** Adding grants never withholds more. */
  lemma MoreGrantsWithholdNoMore(m: Manifest, g: set<string>, h: set<string>)
    requires g <= h
    ensures var few, many := Part(m, h, false), Part(m, g, false);
            && multiset(few.capabilities) <= multiset(many.capabilities)
            && multiset(few.streams) <= multiset(many.streams)
            && multiset(few.commands) <= multiset(many.commands)
            && multiset(few.queries) <= multiset(many.queries)
            && multiset(few.occurrences) <= multiset(many.occurrences)
  {
    GovernedGrows(m.capabilities, g, h);
    var a, b := Governed(m.capabilities, g), Governed(m.capabilities, h);
    WithheldShrinks("stream", m.streams, a, b);
    WithheldShrinks("command", m.commands, a, b);
    WithheldShrinks("query", m.queries, a, b);
    WithheldShrinks("occurrence", m.occurrences, a, b);
  }

  // ----- The joins -----

  ghost function Governs(cs: seq<Capability>): set<Object> {
    if cs == [] then {} else Governs(cs[..|cs| - 1]) + {cs[|cs| - 1].governs}
  }

  /** Every capability governs something a list declares, or a surface; and everything a list declares is
      governed by a capability. */
  ghost predicate Joined(m: Manifest) {
    && (forall i :: 0 <= i < |m.capabilities| ==>
          m.capabilities[i].governs.kind == "surface" || m.capabilities[i].governs in AllObjects(m))
    && AllObjects(m) <= Governs(m.capabilities)
  }

  datatype Finding = GovernsUndeclared(index: nat, what: Object) | Ungoverned(place: nat, what: Object)

  ghost function UndeclaredFindings(cs: seq<Capability>, declared: set<Object>): seq<Finding> {
    if cs == [] then []
    else
      var o := cs[|cs| - 1].governs;
      UndeclaredFindings(cs[..|cs| - 1], declared)
      + (if o.kind != "surface" && o !in declared then [GovernsUndeclared(|cs| - 1, o)] else [])
  }

  ghost function UngovernedFindings(order: seq<Object>, governed: set<Object>, where: map<Object, nat>): seq<Finding> {
    if order == [] then []
    else
      var o := order[|order| - 1];
      UngovernedFindings(order[..|order| - 1], governed, where)
      + (if o !in governed then [Ungoverned(if o in where then where[o] else 0, o)] else [])
  }

  ghost function Ordered(kind: string, ids: seq<string>): (r: seq<Object>)
    ensures |r| == |ids| && forall i :: 0 <= i < |ids| ==> r[i] == Object(kind, ids[i])
  {
    seq(|ids|, i requires 0 <= i < |ids| => Object(kind, ids[i]))
  }

  ghost function Order(m: Manifest): seq<Object> {
    Ordered("stream", m.streams) + Ordered("command", m.commands) + Ordered("query", m.queries)
      + Ordered("occurrence", m.occurrences)
  }

  /** Where each object is declared, the last place winning. */
  ghost function Placed(kind: string, ids: seq<string>, places: map<Object, nat>): (r: map<Object, nat>)
    ensures r.Keys == places.Keys + Objects(kind, ids)
  {
    if ids == [] then places
    else
      ObjectsGrow(kind, ids, |ids| - 1);
      assert ids[..|ids|] == ids;
      Placed(kind, ids[..|ids| - 1], places)[Object(kind, ids[|ids| - 1]) := |ids| - 1]
  }

  ghost function AllPlaced(m: Manifest): map<Object, nat> {
    Placed("occurrence", m.occurrences, Placed("query", m.queries,
                                               Placed("command", m.commands, Placed("stream", m.streams, map[]))))
  }

  /** Looks for objects a capability governs that no list has, then for listed objects that none governs. */
  method ManifestJoins(m: Manifest) returns (findings: seq<Finding>)
    ensures findings == UndeclaredFindings(m.capabilities, AllObjects(m))
                        + UngovernedFindings(Order(m), Governs(m.capabilities), AllPlaced(m))
    ensures findings == [] <==> Joined(m)
  {
    var declared, order, places := Places(m);
    var first, governed := JoinCapabilities(m.capabilities, declared);
    OrderIsAll(m);
    assert places.Keys == AllObjects(m);
    findings := JoinDeclared(first, order, governed, places);
    JoinedFindsNothing(m, places);
  }

  method Places(m: Manifest) returns (declared: set<Object>, order: seq<Object>, places: map<Object, nat>)
    ensures declared == AllObjects(m) && order == Order(m) && places == AllPlaced(m)
  {
    var d1, o1, p1 := Add("stream", m.streams, {}, [], map[]);
    var d2, o2, p2 := Add("command", m.commands, d1, o1, p1);
    var d3, o3, p3 := Add("query", m.queries, d2, o2, p2);
    declared, order, places := Add("occurrence", m.occurrences, d3, o3, p3);
    assert o1 == Ordered("stream", m.streams);
  }

  method JoinCapabilities(cs: seq<Capability>, declared: set<Object>)
      returns (findings: seq<Finding>, governed: set<Object>)
    ensures findings == UndeclaredFindings(cs, declared) && governed == Governs(cs)
  {
    findings, governed := [], {};
    for i := 0 to |cs|
      invariant governed == Governs(cs[..i]) && findings == UndeclaredFindings(cs[..i], declared)
    {
      var o := cs[i].governs;
      assert cs[..i + 1][..i] == cs[..i];
      governed := governed + {o};
      if o.kind != "surface" && o !in declared {
        findings := findings + [GovernsUndeclared(i, o)];
      }
    }
    assert cs[..|cs|] == cs;
  }

  method JoinDeclared(before: seq<Finding>, order: seq<Object>, governed: set<Object>, places: map<Object, nat>)
    returns (findings: seq<Finding>)
    requires forall i :: 0 <= i < |order| ==> order[i] in places
    ensures findings == before + UngovernedFindings(order, governed, places)
  {
    findings := before;
    for i := 0 to |order|
      invariant findings == before + UngovernedFindings(order[..i], governed, places)
    {
      var o := order[i];
      assert order[..i + 1][..i] == order[..i];
      if o !in governed {
        findings := findings + [Ungoverned(places[o], o)];
      }
    }
    assert order[..|order|] == order;
  }

  method Add(kind: string, ids: seq<string>, declared: set<Object>, order: seq<Object>, places: map<Object, nat>)
    returns (d: set<Object>, o: seq<Object>, p: map<Object, nat>)
    ensures d == declared + Objects(kind, ids) && o == order + Ordered(kind, ids)
    ensures p == Placed(kind, ids, places)
  {
    d, o, p := declared, order, places;
    for i := 0 to |ids|
      invariant d == declared + Objects(kind, ids[..i]) && o == order + Ordered(kind, ids[..i])
      invariant p == Placed(kind, ids[..i], places)
    {
      ObjectsGrow(kind, ids, i);
      assert ids[..i + 1][..i] == ids[..i];
      assert Ordered(kind, ids[..i + 1]) == Ordered(kind, ids[..i]) + [Object(kind, ids[i])];
      d := d + {Object(kind, ids[i])};
      o := o + [Object(kind, ids[i])];
      p := p[Object(kind, ids[i]) := i];
    }
    assert ids[..|ids|] == ids;
  }

  lemma {:induction false} NoneUndeclared(cs: seq<Capability>, declared: set<Object>)
    ensures UndeclaredFindings(cs, declared) == [] <==>
            forall i :: 0 <= i < |cs| ==> cs[i].governs.kind == "surface" || cs[i].governs in declared
  {
    if cs != [] {
      var rest, last := cs[..|cs| - 1], cs[|cs| - 1];
      NoneUndeclared(rest, declared);
      assert forall i :: 0 <= i < |rest| ==> cs[i] == rest[i];
      if UndeclaredFindings(rest, declared) != [] {
        var i :| 0 <= i < |rest| && !(rest[i].governs.kind == "surface" || rest[i].governs in declared);
        assert !(cs[i].governs.kind == "surface" || cs[i].governs in declared);
      }
    }
  }

  lemma {:induction false} NoneUngoverned(order: seq<Object>, governed: set<Object>, where: map<Object, nat>)
    ensures UngovernedFindings(order, governed, where) == [] <==> forall i :: 0 <= i < |order| ==> order[i] in governed
  {
    if order != [] { NoneUngoverned(order[..|order| - 1], governed, where); }
  }

  lemma OrderIsAll(m: Manifest)
    ensures forall o :: o in AllObjects(m) <==> o in Order(m)
  {
    var a, b, c, d := Ordered("stream", m.streams), Ordered("command", m.commands), Ordered("query", m.queries),
        Ordered("occurrence", m.occurrences);
    OrderedIs("stream", m.streams);
    OrderedIs("command", m.commands);
    OrderedIs("query", m.queries);
    OrderedIs("occurrence", m.occurrences);
    assert forall o :: o in Order(m) <==> o in a || o in b || o in c || o in d;
  }

  lemma OrderedIs(kind: string, ids: seq<string>)
    ensures forall o :: o in Objects(kind, ids) <==> o in Ordered(kind, ids)
  {
    forall o | o in Objects(kind, ids)
      ensures o in Ordered(kind, ids)
    {
      var i :| 0 <= i < |ids| && o == Object(kind, ids[i]);
      assert Ordered(kind, ids)[i] == o;
    }
  }

  lemma JoinedFindsNothing(m: Manifest, where: map<Object, nat>)
    ensures UndeclaredFindings(m.capabilities, AllObjects(m))
            + UngovernedFindings(Order(m), Governs(m.capabilities), where) == []
            <==> Joined(m)
  {
    NoneUndeclared(m.capabilities, AllObjects(m));
    NoneUngoverned(Order(m), Governs(m.capabilities), where);
    OrderIsAll(m);
    assert (forall i :: 0 <= i < |Order(m)| ==> Order(m)[i] in Governs(m.capabilities))
           <==> AllObjects(m) <= Governs(m.capabilities) by {
      if AllObjects(m) <= Governs(m.capabilities) {
        forall i | 0 <= i < |Order(m)|
          ensures Order(m)[i] in Governs(m.capabilities)
        {
          assert Order(m)[i] in Order(m);
        }
      }
    }
  }

  // ----- What each finding says -----

  /** What the joins find: a capability, by its index, that governs what no list has, unless it is a surface; and an
      object of a list, by the last place that has it, which no capability governs. */
  ghost predicate IsFault(m: Manifest, f: Finding) {
    match f
    case GovernsUndeclared(i, o) =>
      && i < |m.capabilities| && m.capabilities[i].governs == o && o.kind != "surface"
      && !(o.kind in KINDS && o.id in ListOf(Declared(m), o.kind))
    case Ungoverned(place, o) =>
      && o.kind in KINDS
      && LastAt(ListOf(Declared(m), o.kind), place, o.id)
      && forall i :: 0 <= i < |m.capabilities| ==> m.capabilities[i].governs != o
  }

  ghost predicate LastAt(ids: seq<string>, place: nat, id: string) {
    place < |ids| && ids[place] == id && forall k :: place < k < |ids| ==> ids[k] != id
  }

  lemma {:induction false} UndeclaredAre(cs: seq<Capability>, declared: set<Object>, f: Finding)
    ensures f in UndeclaredFindings(cs, declared)
            <==> f.GovernsUndeclared? && |cs| > f.index && cs[f.index].governs == f.what
                 && f.what.kind != "surface" && f.what !in declared
  {
    if cs != [] { UndeclaredAre(cs[..|cs| - 1], declared, f); }
  }

  lemma {:induction false} UngovernedAre(order: seq<Object>, governed: set<Object>, where: map<Object, nat>, f: Finding)
    requires forall o :: o in order ==> o in where
    ensures f in UngovernedFindings(order, governed, where)
            <==> f.Ungoverned? && f.what in order && f.what !in governed && where[f.what] == f.place
  {
    if order != [] {
      var rest := order[..|order| - 1];
      assert forall o :: o in rest ==> o in order;
      UngovernedAre(rest, governed, where, f);
    }
  }

  lemma {:induction false} GovernsAre(cs: seq<Capability>, o: Object)
    ensures o in Governs(cs) <==> exists i :: 0 <= i < |cs| && cs[i].governs == o
  {
    if cs != [] {
      var rest := cs[..|cs| - 1];
      GovernsAre(rest, o);
      if i :| 0 <= i < |rest| && rest[i].governs == o { assert cs[i] == rest[i]; }
      if cs[|cs| - 1].governs == o { assert cs[|cs| - 1].governs == o; }
    }
  }

  lemma {:induction false} PlacedLast(kind: string, ids: seq<string>, places: map<Object, nat>, o: Object)
    ensures o.kind == kind && o.id in ids ==> LastAt(ids, Placed(kind, ids, places)[o], o.id)
    ensures !(o.kind == kind && o.id in ids) && o in places ==> Placed(kind, ids, places)[o] == places[o]
  {
    if ids != [] {
      var rest := ids[..|ids| - 1];
      assert ids == rest + [ids[|ids| - 1]];
      PlacedLast(kind, rest, places, o);
      if o.kind == kind && o.id in ids && o.id != ids[|ids| - 1] {
        var p := Placed(kind, rest, places)[o];
        assert forall k :: p < k < |rest| ==> ids[k] == rest[k];
      }
    }
  }

  lemma AllPlacedLast(m: Manifest, o: Object)
    requires o in AllObjects(m)
    ensures o in AllPlaced(m) && o.kind in KINDS
    ensures LastAt(ListOf(Declared(m), o.kind), AllPlaced(m)[o], o.id)
  {
    hide Placed, LastAt;
    assert |"stream"| == 6 && |"command"| == 7 && |"query"| == 5 && |"occurrence"| == 10;
    var one := Placed("stream", m.streams, map[]);
    var two := Placed("command", m.commands, one);
    var three := Placed("query", m.queries, two);
    PlacedLast("stream", m.streams, map[], o);
    PlacedLast("command", m.commands, one, o);
    PlacedLast("query", m.queries, two, o);
    PlacedLast("occurrence", m.occurrences, three, o);
  }

  lemma AllArePlaced(m: Manifest)
    ensures AllPlaced(m).Keys == AllObjects(m)
  {
  }

  lemma LastIsThere(ids: seq<string>, i: nat, id: string)
    requires LastAt(ids, i, id)
    ensures id in ids
  {
  }

  lemma LastIsOne(ids: seq<string>, i: nat, j: nat, id: string)
    requires LastAt(ids, i, id) && LastAt(ids, j, id)
    ensures i == j
  {
  }

  /** The findings of the joins are the faults, each by its own index or place. */
  lemma FindingsAreTheFaults(m: Manifest, f: Finding)
    ensures f in UndeclaredFindings(m.capabilities, AllObjects(m))
                 + UngovernedFindings(Order(m), Governs(m.capabilities), AllPlaced(m))
            <==> IsFault(m, f)
  {
    hide LastAt, Governs, UngovernedFindings, UndeclaredFindings, AllObjects, Order, AllPlaced, ListOf;
    var o := f.what;
    OrderIsAll(m);
    if o.kind in KINDS { ObjectsOf(m, o.kind, o.id); }
    if o in AllObjects(m) { AllPlacedLast(m, o); }
    AllArePlaced(m);
    UndeclaredAre(m.capabilities, AllObjects(m), f);
    UngovernedAre(Order(m), Governs(m.capabilities), AllPlaced(m), f);
    GovernsAre(m.capabilities, o);
    if f.Ungoverned? && o.kind in KINDS && LastAt(ListOf(Declared(m), o.kind), f.place, o.id) {
      LastIsThere(ListOf(Declared(m), o.kind), f.place, o.id);
      LastIsOne(ListOf(Declared(m), o.kind), f.place, AllPlaced(m)[o], o.id);
    }
  }

  lemma {:induction false} AllNamed(cs: seq<Capability>, grants: set<string>)
    ensures PickedNames(cs, grants, false) == [] <==> forall i :: 0 <= i < |cs| ==> cs[i].name in grants
    ensures PickedNames(cs, grants, false) == [] ==> Governed(cs, grants) == Governs(cs)
  {
    if cs != [] { AllNamed(cs[..|cs| - 1], grants); }
  }

  lemma {:induction false} NoneWithheld(kind: string, ids: seq<string>, governed: set<Object>)
    ensures Picked(kind, ids, governed, false) == [] <==> Objects(kind, ids) <= governed
  {
    if ids != [] {
      NoneWithheld(kind, ids[..|ids| - 1], governed);
      ObjectsGrow(kind, ids, |ids| - 1);
      assert ids[..|ids|] == ids;
    }
  }

  /** For a Manifest the joins accept, nothing at all is withheld exactly when every declared capability is
      granted. */
  lemma NothingWithheldExactlyWhen(m: Manifest, grants: set<string>)
    requires Joined(m)
    ensures Part(m, grants, false) == NOTHING <==> forall i :: 0 <= i < |m.capabilities| ==>
              m.capabilities[i].name in grants
  {
    var governed := Governed(m.capabilities, grants);
    AllNamed(m.capabilities, grants);
    NoneWithheld("stream", m.streams, governed);
    NoneWithheld("command", m.commands, governed);
    NoneWithheld("query", m.queries, governed);
    NoneWithheld("occurrence", m.occurrences, governed);
  }
}
