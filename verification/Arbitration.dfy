/** Which channels are suspended: declared rules, what holds, what has reclaimed control. The rules form a
    graph, in which an edge turns round when the local channel at its lower end reclaims while holding. */
module Arbitration {
  import opened Prelude

  datatype Rule = Rule(prevails: string, over: seq<string>)

  datatype Reason = Displaced | Reclaimed

  datatype Edge = Edge(prevails: string, over: string, reason: Reason)

  datatype Verdict = Free | Suspended(cause: string, reason: Reason)

  datatype Event =
    | ChannelSuspended(name: string, reason: Reason, cause: string, retains: string)
    | ChannelResumed(name: string)

  /** What the arbiter holds. `reclaimed` are the local channels that reclaimed since they last stopped
      holding, whether or not they hold. */
  datatype Picture = Picture(
    rules: seq<Rule>,
    order: seq<string>,
    grades: map<string, string>,
    local: set<string>,
    holding: set<string>,
    reclaimed: set<string>,
    verdicts: map<string, Verdict>
  ) {
    ghost predicate Valid() {
      && Names(order) == grades.Keys == verdicts.Keys
      && local <= grades.Keys && holding <= grades.Keys && reclaimed <= local
    }

    /** The channels a rule is inverted around. */
    ghost function Taken(): set<string> { reclaimed * holding }
  }

  ghost function Names(order: seq<string>): set<string> {
    if order == [] then {} else Names(order[..|order| - 1]) + {order[|order| - 1]}
  }

  lemma {:induction false} NamesAreThose(order: seq<string>)
    ensures forall n :: n in Names(order) <==> n in order
  {
    if order != [] {
      NamesAreThose(order[..|order| - 1]);
      assert order == order[..|order| - 1] + [order[|order| - 1]];
    }
  }

  lemma {:induction false} NameAt(order: seq<string>, i: nat)
    requires i < |order|
    ensures order[i] in Names(order)
  {
    if i < |order| - 1 { NameAt(order[..|order| - 1], i); }
  }

  lemma {:induction false} NamesOfFront(order: seq<string>, i: nat)
    requires i <= |order|
    ensures Names(order[..i]) <= Names(order)
  {
    if i < |order| {
      assert order[..|order| - 1][..i] == order[..i];
      NamesOfFront(order[..|order| - 1], i);
    } else {
      assert order[..i] == order;
    }
  }

  lemma SameNames(a: seq<string>, b: seq<string>)
    requires multiset(a) == multiset(b)
    ensures Names(a) == Names(b)
  {
    NamesAreThose(a);
    NamesAreThose(b);
    assert forall n :: n in a <==> n in multiset(a);
    assert forall n :: n in b <==> n in multiset(b);
  }

  // ----- The decision, from the rules and two sets -----

  ghost function RuleEdges(prevails: string, over: seq<string>, taken: set<string>): seq<Edge> {
    if over == [] then []
    else
      var d := over[|over| - 1];
      RuleEdges(prevails, over[..|over| - 1], taken)
      + [if d in taken then Edge(d, prevails, Reclaimed) else Edge(prevails, d, Displaced)]
  }

  ghost function Edges(rules: seq<Rule>, taken: set<string>): seq<Edge> {
    if rules == [] then []
    else
      var r := rules[|rules| - 1];
      Edges(rules[..|rules| - 1], taken) + RuleEdges(r.prevails, r.over, taken)
  }

  ghost function FirstAgainst(edges: seq<Edge>, name: string, holding: set<string>): Verdict {
    if edges == [] then Free
    else if edges[0].over == name && edges[0].prevails in holding then Suspended(edges[0].prevails, edges[0].reason)
    else FirstAgainst(edges[1..], name, holding)
  }

  /** A channel's suspension, its cause and its reason: a function of the rules, of what holds and of what
      has reclaimed, and of nothing else. */
  ghost function Decide(rules: seq<Rule>, holding: set<string>, taken: set<string>, name: string): Verdict {
    FirstAgainst(Edges(rules, taken), name, holding)
  }

  ghost function Decisions(s: Picture): map<string, Verdict> {
    map n | n in s.grades :: Decide(s.rules, s.holding, s.Taken(), n)
  }

  ghost predicate Settled(s: Picture) { s.Valid() && s.verdicts == Decisions(s) }

  // ----- The events a change announces -----

  ghost function Announce(name: string, was: Verdict, now: Verdict, grade: string): seq<Event> {
    if now.Suspended? && was != now then [ChannelSuspended(name, now.reason, now.cause, grade)]
    else if now.Free? && was.Suspended? then [ChannelResumed(name)]
    else []
  }

  /** The events of the names from `i` on, where those before it are settled already. */
  ghost function Differences(order: seq<string>, was: map<string, Verdict>, now: map<string, Verdict>,
                             grades: map<string, string>): seq<Event>
    requires Names(order) <= was.Keys && Names(order) <= now.Keys && Names(order) <= grades.Keys
  {
    if order == [] then []
    else
      var n := order[|order| - 1];
      var before := order[..|order| - 1];
      Differences(before, was, now, grades)
      + Announce(n, if n in Names(before) then now[n] else was[n], now[n], grades[n])
  }

  // ----- The two operations -----

  ghost function Recomputed(s: Picture): (r: (Picture, seq<Event>))
    requires s.Valid()
  {
    var now := Decisions(s);
    (s.(verdicts := now), Differences(s.order, s.verdicts, now, s.grades))
  }

  datatype Call = Hold(name: string, holds: bool) | Reclaim(name: string)

  /** The state after a call and the events it emits. */
  ghost function Called(s: Picture, c: Call): (r: (Picture, seq<Event>))
    requires s.Valid()
    ensures r.0.Valid()
    ensures r.0.rules == s.rules && r.0.order == s.order && r.0.grades == s.grades && r.0.local == s.local
  {
    match c
    case Hold(n, holds) =>
      if n !in s.grades then (s, [])
      else if holds then Recomputed(s.(holding := s.holding + {n}))
      else Recomputed(s.(holding := s.holding - {n}, reclaimed := s.reclaimed - {n}))
    case Reclaim(n) =>
      if n !in s.local then (s, []) else Recomputed(s.(reclaimed := s.reclaimed + {n}))
  }

  // ----- Runs -----

  /** An arbiter over declared channels with nothing holding. */
  ghost predicate Fresh(s: Picture) {
    && s.Valid() && s.holding == {} && s.reclaimed == {}
    && forall n :: n in s.verdicts ==> s.verdicts[n] == Free
  }

  ghost function Run(s: Picture, calls: seq<Call>): (r: (Picture, seq<Event>))
    requires s.Valid()
    ensures r.0.Valid()
    ensures r.0.rules == s.rules && r.0.order == s.order && r.0.grades == s.grades && r.0.local == s.local
  {
    if calls == [] then (s, [])
    else
      var before := Run(s, calls[..|calls| - 1]);
      var after := Called(before.0, calls[|calls| - 1]);
      (after.0, before.1 + after.1)
  }

  ghost function Told(table: map<string, Verdict>, e: Event): map<string, Verdict> {
    match e
    case ChannelSuspended(n, reason, cause, _) => table[n := Suspended(cause, reason)]
    case ChannelResumed(n) => table[n := Free]
  }

  /** A table kept by somebody who is told every event and nothing else. */
  ghost function Replay(table: map<string, Verdict>, events: seq<Event>): map<string, Verdict> {
    if events == [] then table else Told(Replay(table, events[..|events| - 1]), events[|events| - 1])
  }

  lemma {:induction false} NothingHolds(edges: seq<Edge>, name: string)
    ensures FirstAgainst(edges, name, {}) == Free
  {
    if edges != [] { NothingHolds(edges[1..], name); }
  }

  /** In every run, every channel's suspension, cause and reason are what the rules and the two sets decide. */
  lemma {:induction false} SuspensionIsDecided(s: Picture, calls: seq<Call>)
    requires Fresh(s)
    ensures Settled(Run(s, calls).0)
  {
    if calls == [] {
      forall n | n in s.grades
        ensures Decide(s.rules, s.holding, s.Taken(), n) == Free
      {
        NothingHolds(Edges(s.rules, s.Taken()), n);
      }
    } else {
      SuspensionIsDecided(s, calls[..|calls| - 1]);
    }
  }

  lemma {:induction false} ReplayAppends(table: map<string, Verdict>, a: seq<Event>, b: seq<Event>)
    ensures Replay(table, a + b) == Replay(Replay(table, a), b)
  {
    if b == [] {
      assert a + b == a;
    } else {
      assert (a + b)[..|a + b| - 1] == a + b[..|b| - 1];
      ReplayAppends(table, a, b[..|b| - 1]);
    }
  }

  lemma AnnouncedIsTold(table: map<string, Verdict>, n: string, now: Verdict, grade: string)
    requires n in table
    ensures Replay(table, Announce(n, table[n], now, grade)) == table[n := now]
  {
    var told := Announce(n, table[n], now, grade);
    if told == [] {
      assert table == table[n := now];
    } else {
      assert told[..|told| - 1] == [];
      assert Replay(table, told) == Told(table, told[0]);
    }
  }

  /** The new verdicts of the names in `order`, the old ones elsewhere. */
  ghost function Partly(order: seq<string>, was: map<string, Verdict>, now: map<string, Verdict>): map<string, Verdict>
    requires was.Keys == now.Keys
  {
    map n | n in was :: if n in Names(order) then now[n] else was[n]
  }

  lemma {:induction false} DifferencesRebuild(order: seq<string>, was: map<string, Verdict>, now: map<string, Verdict>,
                                              grades: map<string, string>)
    requires Names(order) <= was.Keys && Names(order) <= now.Keys && Names(order) <= grades.Keys
    requires was.Keys == now.Keys
    ensures Replay(was, Differences(order, was, now, grades)) == Partly(order, was, now)
  {
    if order == [] {
      assert was == Partly(order, was, now);
    } else {
      var before := order[..|order| - 1];
      var n := order[|order| - 1];
      DifferencesRebuild(before, was, now, grades);
      var table := Partly(before, was, now);
      ReplayAppends(was, Differences(before, was, now, grades), Announce(n, table[n], now[n], grades[n]));
      AnnouncedIsTold(table, n, now[n], grades[n]);
      PartlyExtends(order, was, now);
    }
  }

  lemma DifferencesExtend(order: seq<string>, was: map<string, Verdict>, now: map<string, Verdict>,
                          grades: map<string, string>)
    requires was.Keys == now.Keys && order != [] && Names(order) <= was.Keys && Names(order) <= grades.Keys
    ensures var n, before := order[|order| - 1], order[..|order| - 1];
            && Names(before) <= Names(order) && n in Names(order)
            && Differences(order, was, now, grades)
               == Differences(before, was, now, grades) + Announce(n, Partly(before, was, now)[n], now[n], grades[n])
  {
  }

  lemma NonePartly(order: seq<string>, was: map<string, Verdict>, now: map<string, Verdict>,
                   grades: map<string, string>)
    requires was.Keys == now.Keys
    ensures Partly(order[..0], was, now) == was && Differences(order[..0], was, now, grades) == []
  {
  }

  lemma AllPartly(order: seq<string>, was: map<string, Verdict>, now: map<string, Verdict>)
    requires was.Keys == now.Keys == Names(order)
    ensures Partly(order, was, now) == now
  {
  }

  lemma PartlyExtends(order: seq<string>, was: map<string, Verdict>, now: map<string, Verdict>)
    requires was.Keys == now.Keys && order != [] && order[|order| - 1] in was
    ensures var n := order[|order| - 1];
            Partly(order[..|order| - 1], was, now)[n := now[n]] == Partly(order, was, now)
  {
  }

  lemma RecomputedRebuilds(s: Picture)
    requires s.Valid()
    ensures Replay(s.verdicts, Recomputed(s).1) == Recomputed(s).0.verdicts
  {
    var now := Decisions(s);
    DifferencesRebuild(s.order, s.verdicts, now, s.grades);
    assert now == Partly(s.order, s.verdicts, now);
  }

  /** Whoever replays every event emitted so far holds the arbiter's own table. */
  lemma {:induction false} ReplayingRebuildsTheTable(s: Picture, calls: seq<Call>)
    requires Fresh(s)
    ensures Replay(s.verdicts, Run(s, calls).1) == Run(s, calls).0.verdicts
  {
    if calls != [] {
      var before := Run(s, calls[..|calls| - 1]);
      var c := calls[|calls| - 1];
      ReplayingRebuildsTheTable(s, calls[..|calls| - 1]);
      ReplayAppends(s.verdicts, before.1, Called(before.0, c).1);
      match c
      case Hold(n, holds) =>
        if n in before.0.grades {
          RecomputedRebuilds(before.0.(holding := before.0.holding + {n}));
          RecomputedRebuilds(before.0.(holding := before.0.holding - {n}, reclaimed := before.0.reclaimed - {n}));
        }
      case Reclaim(n) =>
        if n in before.0.local { RecomputedRebuilds(before.0.(reclaimed := before.0.reclaimed + {n})); }
    }
  }

  lemma {:induction false} NoDifference(order: seq<string>, v: map<string, Verdict>, grades: map<string, string>)
    requires Names(order) <= v.Keys && Names(order) <= grades.Keys
    ensures Differences(order, v, v, grades) == []
  {
    if order != [] { NoDifference(order[..|order| - 1], v, grades); }
  }

  /** A call repeated emits nothing and changes nothing. */
  lemma RepeatingIsSilent(s: Picture, calls: seq<Call>, c: Call)
    requires Fresh(s)
    ensures var once := Called(Run(s, calls).0, c).0; Called(once, c) == (once, [])
  {
    FreshIsValid(s);
    assert (calls + [c])[..|calls + [c]| - 1] == calls;
    SuspensionIsDecided(s, calls + [c]);
    CalledAgain(Run(s, calls).0, c);
    hide Called, Settled, Fresh;
  }

  lemma SettledIsSilent(s: Picture)
    requires Settled(s)
    ensures Recomputed(s) == (s, [])
  {
    hide Differences, Names, Decide;
    NoDifference(s.order, s.verdicts, s.grades);
  }

  lemma CalledAgain(s: Picture, c: Call)
    requires s.Valid() && Settled(Called(s, c).0)
    ensures var once := Called(s, c).0; Called(once, c) == (once, [])
  {
    hide Differences, Names, Decisions;
    var once := Called(s, c).0;
    SettledIsSilent(once);
    hide Settled;
    match c
    case Hold(n, holds) =>
      if n in s.grades {
        if holds {
          assert once.(holding := once.holding + {n}) == once;
        } else {
          assert once.(holding := once.holding - {n}, reclaimed := once.reclaimed - {n}) == once;
        }
      }
    case Reclaim(n) =>
      if n in s.local { assert once.(reclaimed := once.reclaimed + {n}) == once; }
  }

  // ----- Acyclic rules never suspend everything that holds -----

  ghost predicate Declares(rules: seq<Rule>, a: string, b: string) {
    exists r :: r in rules && r.prevails == a && b in r.over
  }

  ghost predicate DeclaredWalk(rules: seq<Rule>, w: seq<string>) {
    forall k :: 0 <= k < |w| - 1 ==> Declares(rules, w[k], w[k + 1])
  }

  ghost predicate ClosedWalk(rules: seq<Rule>, w: seq<string>) {
    |w| >= 2 && w[0] == w[|w| - 1] && DeclaredWalk(rules, w)
  }

  /** The declared rules have no cycle. */
  ghost predicate Acyclic(rules: seq<Rule>) { forall w :: !ClosedWalk(rules, w) }

  /** An edge once rules are inverted around `taken`. */
  ghost predicate Links(rules: seq<Rule>, taken: set<string>, a: string, b: string) {
    (Declares(rules, a, b) && b !in taken) || (Declares(rules, b, a) && a in taken)
  }

  lemma {:induction false} RuleEdgesLink(prevails: string, over: seq<string>, taken: set<string>, e: Edge)
    requires e in RuleEdges(prevails, over, taken)
    ensures (e.prevails == prevails && e.over in over && e.over !in taken)
         || (e.over == prevails && e.prevails in over && e.prevails in taken)
  {
    if over != [] {
      if e in RuleEdges(prevails, over[..|over| - 1], taken) { RuleEdgesLink(prevails, over[..|over| - 1], taken, e); }
    }
  }

  lemma {:induction false} EdgesLink(rules: seq<Rule>, taken: set<string>, e: Edge)
    requires e in Edges(rules, taken)
    ensures Links(rules, taken, e.prevails, e.over)
  {
    if rules != [] {
      var r := rules[|rules| - 1];
      assert r in rules;
      if e in Edges(rules[..|rules| - 1], taken) {
        EdgesLink(rules[..|rules| - 1], taken, e);
      } else {
        RuleEdgesLink(r.prevails, r.over, taken, e);
      }
    }
  }

  lemma {:induction false} SuspendedByALink(edges: seq<Edge>, name: string, holding: set<string>)
    requires FirstAgainst(edges, name, holding).Suspended?
    ensures FirstAgainst(edges, name, holding).cause in holding
    ensures exists e :: e in edges && e.prevails == FirstAgainst(edges, name, holding).cause && e.over == name
  {
    if edges[0].over == name && edges[0].prevails in holding {
      assert edges[0] in edges;
    } else {
      SuspendedByALink(edges[1..], name, holding);
    }
  }

  /** Where every holder is suspended, a walk backwards through holders never ends. */
  lemma {:induction false} Backwards(rules: seq<Rule>, holding: set<string>, taken: set<string>, length: nat)
    returns (w: seq<string>)
    requires holding != {}
    requires forall n :: n in holding ==> Decide(rules, holding, taken, n).Suspended?
    ensures |w| == length + 1
    ensures forall k :: 0 <= k < |w| ==> w[k] in holding
    ensures forall k :: 0 <= k < length ==> Links(rules, taken, w[k], w[k + 1])
  {
    if length == 0 {
      var n :| n in holding;
      w := [n];
    } else {
      var rest := Backwards(rules, holding, taken, length - 1);
      var edges := Edges(rules, taken);
      SuspendedByALink(edges, rest[0], holding);
      var e :| e in edges && e.prevails == Decide(rules, holding, taken, rest[0]).cause && e.over == rest[0];
      EdgesLink(rules, taken, e);
      w := [e.prevails] + rest;
      forall k | 0 <= k < length
        ensures Links(rules, taken, w[k], w[k + 1])
      {
        if k > 0 { assert w[k] == rest[k - 1] && w[k + 1] == rest[k]; }
      }
    }
  }

  /** No edge enters the inverted channels from outside them. */
  lemma {:induction false} EnteringStaysTaken(rules: seq<Rule>, taken: set<string>, w: seq<string>, k: nat)
    requires k < |w| && w[k] in taken
    requires forall i :: 0 <= i < |w| - 1 ==> Links(rules, taken, w[i], w[i + 1])
    ensures forall i :: 0 <= i <= k ==> w[i] in taken
  {
    if k > 0 {
      assert Links(rules, taken, w[k - 1], w[k - 1 + 1]);
      EnteringStaysTaken(rules, taken, w, k - 1);
    }
  }

  ghost function Reversed(w: seq<string>): (r: seq<string>)
    ensures |r| == |w| && forall i :: 0 <= i < |w| ==> r[i] == w[|w| - 1 - i]
  {
    if w == [] then [] else Reversed(w[1..]) + [w[0]]
  }

  /** A closed walk through inverted rules lies wholly inside the reclaimed channels or wholly outside, and
      is a declared one, run backwards or as it is. */
  lemma InvertedCycleIsDeclared(rules: seq<Rule>, taken: set<string>, w: seq<string>) returns (c: seq<string>)
    requires |w| >= 2 && w[0] == w[|w| - 1]
    requires forall i :: 0 <= i < |w| - 1 ==> Links(rules, taken, w[i], w[i + 1])
    ensures ClosedWalk(rules, c)
  {
    if k :| 0 <= k < |w| && w[k] in taken {
      EnteringStaysTaken(rules, taken, w, k);
      EnteringStaysTaken(rules, taken, w, |w| - 1);
      c := Reversed(w);
      forall i | 0 <= i < |c| - 1
        ensures Declares(rules, c[i], c[i + 1])
      {
        var j := |w| - 2 - i;
        assert Links(rules, taken, w[j], w[j + 1]);
      }
    } else {
      c := w;
      forall i | 0 <= i < |c| - 1
        ensures Declares(rules, c[i], c[i + 1])
      {
        assert Links(rules, taken, w[i], w[i + 1]);
      }
    }
  }

  /** Inverting rules around reclaimed channels never closes a cycle. */
  lemma InvertingClosesNoCycle(rules: seq<Rule>, taken: set<string>, w: seq<string>)
    requires Acyclic(rules)
    requires |w| >= 2 && w[0] == w[|w| - 1]
    ensures exists i :: 0 <= i < |w| - 1 && !Links(rules, taken, w[i], w[i + 1])
  {
    if forall i :: 0 <= i < |w| - 1 ==> Links(rules, taken, w[i], w[i + 1]) {
      var c := InvertedCycleIsDeclared(rules, taken, w);
      assert false;
    }
  }

  lemma AllSuspendedIsACycle(rules: seq<Rule>, holding: set<string>, taken: set<string>) returns (closed: seq<string>)
    requires holding != {}
    requires forall n :: n in holding ==> Decide(rules, holding, taken, n).Suspended?
    ensures |closed| >= 2 && closed[0] == closed[|closed| - 1]
    ensures forall k :: 0 <= k < |closed| - 1 ==> Links(rules, taken, closed[k], closed[k + 1])
  {
    var w := Backwards(rules, holding, taken, |holding|);
    var i, j := Pigeonhole(w, holding);
    closed := w[i..j + 1];
    forall k | 0 <= k < |closed| - 1
      ensures Links(rules, taken, closed[k], closed[k + 1])
    {
      assert closed[k] == w[i + k] && closed[k + 1] == w[i + k + 1];
    }
  }

  lemma SomeHolderPrevails(rules: seq<Rule>, holding: set<string>, taken: set<string>)
    requires Acyclic(rules) && holding != {}
    ensures exists n :: n in holding && Decide(rules, holding, taken, n) == Free
  {
    if forall n :: n in holding ==> Decide(rules, holding, taken, n).Suspended? {
      var closed := AllSuspendedIsACycle(rules, holding, taken);
      InvertingClosesNoCycle(rules, taken, closed);
      assert false;
    }
  }

  /** Where the declared rules have no cycle, in every reachable state in which some channel holds, some
      holding channel is not suspended. */
  lemma SomeHoldingChannelIsFree(s: Picture, calls: seq<Call>)
    requires Fresh(s) && Acyclic(s.rules)
    requires Run(s, calls).0.holding != {}
    ensures exists n :: n in Run(s, calls).0.holding && Run(s, calls).0.verdicts[n] == Free
  {
    var now := Run(s, calls).0;
    SuspensionIsDecided(s, calls);
    SomeHolderPrevails(now.rules, now.holding, now.Taken());
    var n :| n in now.holding && Decide(now.rules, now.holding, now.Taken(), n) == Free;
    assert now.verdicts[n] == Free;
  }

  // ----- When a channel is suspended, by which and why -----

  /** The pair of a rule and one channel it is over puts a channel that holds over `name`: the rule's own, or the
      other where that is inverted around. */
  ghost predicate Bears(prevails: string, over: string, taken: set<string>, holding: set<string>, name: string) {
    if over in taken then prevails == name && over in holding else over == name && prevails in holding
  }

  ghost function Borne(prevails: string, over: string, taken: set<string>): Verdict {
    if over in taken then Suspended(over, Reclaimed) else Suspended(prevails, Displaced)
  }

  ghost predicate BearsAt(s: Picture, i: nat, j: nat, name: string) {
    && i < |s.rules| && j < |s.rules[i].over|
    && Bears(s.rules[i].prevails, s.rules[i].over[j], s.reclaimed * s.holding, s.holding, name)
  }

  /** The first rule declared, and in it the first place, that does. */
  ghost predicate BearsFirst(s: Picture, i: nat, j: nat, name: string) {
    && BearsAt(s, i, j, name)
    && (forall k: nat, l: nat :: k < i || (k == i && l < j) ==> !BearsAt(s, k, l, name))
  }

  lemma {:induction false} AgainstBoth(a: seq<Edge>, b: seq<Edge>, name: string, holding: set<string>)
    ensures FirstAgainst(a + b, name, holding)
            == if FirstAgainst(a, name, holding).Suspended? then FirstAgainst(a, name, holding)
               else FirstAgainst(b, name, holding)
  {
    if a == [] {
      assert a + b == b;
    } else {
      assert (a + b)[1..] == a[1..] + b;
      AgainstBoth(a[1..], b, name, holding);
    }
  }

  lemma {:induction false} FirstOfARule(prevails: string, over: seq<string>, taken: set<string>, holding: set<string>,
                                        name: string)
    ensures var v := FirstAgainst(RuleEdges(prevails, over, taken), name, holding);
            && (v.Free? <==> forall j :: 0 <= j < |over| ==> !Bears(prevails, over[j], taken, holding, name))
            && forall j :: 0 <= j < |over| && Bears(prevails, over[j], taken, holding, name)
                           && (forall k :: 0 <= k < j ==> !Bears(prevails, over[k], taken, holding, name))
                           ==> v == Borne(prevails, over[j], taken)
  {
    if over != [] {
      var before, d := over[..|over| - 1], over[|over| - 1];
      FirstOfARule(prevails, before, taken, holding, name);
      var e := if d in taken then Edge(d, prevails, Reclaimed) else Edge(prevails, d, Displaced);
      AgainstBoth(RuleEdges(prevails, before, taken), [e], name, holding);
      assert [e][1..] == [];
      assert forall j :: 0 <= j < |before| ==> over[j] == before[j];
    }
  }

  lemma FreeOfTheLast(s: Picture, rules: seq<Rule>, name: string)
    requires rules != [] && rules <= s.rules
    ensures var r, taken := rules[|rules| - 1], s.reclaimed * s.holding;
            && FirstAgainst(Edges(rules, taken), name, s.holding)
               == FirstAgainst(Edges(rules[..|rules| - 1], taken)
                               + RuleEdges(r.prevails, r.over, taken), name, s.holding)
            && (FirstAgainst(RuleEdges(r.prevails, r.over, taken), name, s.holding).Free?
                <==> forall i: nat, j: nat :: i == |rules| - 1 ==> !BearsAt(s, i, j, name))
  {
    var r, taken := rules[|rules| - 1], s.reclaimed * s.holding;
    FirstOfARule(r.prevails, r.over, taken, s.holding, name);
    LastRule(s, rules, name);
  }

  lemma {:induction false} FreeWhereNoneBears(s: Picture, rules: seq<Rule>, name: string)
    requires rules <= s.rules
    ensures FirstAgainst(Edges(rules, s.reclaimed * s.holding), name, s.holding).Free?
            <==> forall i: nat, j: nat :: i < |rules| ==> !BearsAt(s, i, j, name)
  {
    if rules != [] {
      var before, r, taken := rules[..|rules| - 1], rules[|rules| - 1], s.reclaimed * s.holding;
      FreeWhereNoneBears(s, before, name);
      AgainstBoth(Edges(before, taken), RuleEdges(r.prevails, r.over, taken), name, s.holding);
      FreeOfTheLast(s, rules, name);
      hide *;
    }
  }

  lemma {:induction false} TheFirstDecides(s: Picture, rules: seq<Rule>, i: nat, j: nat, name: string)
    requires rules <= s.rules && i < |rules| && BearsFirst(s, i, j, name)
    ensures FirstAgainst(Edges(rules, s.reclaimed * s.holding), name, s.holding)
            == Borne(s.rules[i].prevails, s.rules[i].over[j], s.reclaimed * s.holding)
  {
    var before, r, taken := rules[..|rules| - 1], rules[|rules| - 1], s.reclaimed * s.holding;
    AgainstBoth(Edges(before, taken), RuleEdges(r.prevails, r.over, taken), name, s.holding);
    if i < |before| {
      TheFirstDecides(s, before, i, j, name);
    } else {
      FreeWhereNoneBears(s, before, name);
      FirstOfARule(r.prevails, r.over, taken, s.holding, name);
      LastRule(s, rules, name);
    }
  }

  lemma LastRule(s: Picture, rules: seq<Rule>, name: string)
    requires rules != [] && rules <= s.rules
    ensures var r, taken := rules[|rules| - 1], s.reclaimed * s.holding;
            && s.rules[|rules| - 1] == r
            && forall j: nat :: BearsAt(s, |rules| - 1, j, name)
                                <==> j < |r.over| && Bears(r.prevails, r.over[j], taken, s.holding, name)
  {
  }

  /** In every run, a channel is suspended exactly where one that holds is linked against it by the declared rules,
      inverted around the local channels that reclaimed and hold; and by which and why is what the first rule
      declared says, and in it the first place, that puts a channel that holds over it. */
  lemma SuspendedExactlyWhen(s: Picture, calls: seq<Call>, name: string)
    requires Fresh(s) && name in s.grades
    ensures var now := Run(s, calls).0;
            && (now.verdicts[name].Suspended?
                <==> exists a :: a in now.holding && Links(s.rules, now.reclaimed * now.holding, a, name))
            && forall i: nat, j: nat :: BearsFirst(now, i, j, name) ==>
                 var over := s.rules[i].over[j];
                 now.verdicts[name] == if over in now.reclaimed && over in now.holding then Suspended(over, Reclaimed)
                                       else Suspended(s.rules[i].prevails, Displaced)
  {
    SuspensionIsDecided(s, calls);
    DecidingMeans(Run(s, calls).0, name);
  }

  lemma DecidingMeans(s: Picture, name: string)
    ensures var v := Decide(s.rules, s.holding, s.Taken(), name);
            && (v.Suspended? <==> exists a :: a in s.holding && Links(s.rules, s.reclaimed * s.holding, a, name))
            && forall i: nat, j: nat :: BearsFirst(s, i, j, name) ==>
                 v == Borne(s.rules[i].prevails, s.rules[i].over[j], s.reclaimed * s.holding)
  {
    FreeWhereNoneBears(s, s.rules, name);
    BearsWhereLinked(s, name);
    forall i: nat, j: nat | BearsFirst(s, i, j, name)
      ensures Decide(s.rules, s.holding, s.Taken(), name)
              == Borne(s.rules[i].prevails, s.rules[i].over[j], s.reclaimed * s.holding)
    {
      TheFirstDecides(s, s.rules, i, j, name);
    }
  }

  /** The channels suspended are those that a channel that holds is linked against. */
  ghost predicate LinkedAgainst(s: Picture) {
    forall n :: n in s.verdicts ==>
      (s.verdicts[n].Suspended? <==> exists a :: a in s.holding && Links(s.rules, s.reclaimed * s.holding, a, n))
  }

  lemma DecisionsLink(s: Picture)
    requires s.Valid()
    ensures LinkedAgainst(s.(verdicts := Decisions(s)))
  {
    hide Links, Decide;
    forall n | n in s.grades
      ensures Decide(s.rules, s.holding, s.Taken(), n).Suspended?
              <==> exists a :: a in s.holding && Links(s.rules, s.reclaimed * s.holding, a, n)
    {
      DecidingMeans(s, n);
    }
  }

  lemma BearsWhereLinked(s: Picture, name: string)
    ensures (exists a :: a in s.holding && Links(s.rules, s.reclaimed * s.holding, a, name))
            <==> exists i: nat, j: nat :: BearsAt(s, i, j, name)
  {
    var taken := s.reclaimed * s.holding;
    if i: nat, j: nat :| BearsAt(s, i, j, name) {
      var r, d := s.rules[i], s.rules[i].over[j];
      assert r in s.rules && d in r.over && Declares(s.rules, r.prevails, d);
      assert Links(s.rules, taken, if d in taken then d else r.prevails, name);
    }
    if a :| a in s.holding && Links(s.rules, taken, a, name) {
      var declared := Declares(s.rules, a, name) && name !in taken;
      var up, down := if declared then a else name, if declared then name else a;
      var r :| r in s.rules && r.prevails == up && down in r.over;
      var i: nat :| i < |s.rules| && s.rules[i] == r;
      var j: nat :| j < |r.over| && r.over[j] == down;
      assert BearsAt(s, i, j, name);
    }
  }

  /** It was said, and since then not that the channel does not hold. */
  ghost predicate Stands(calls: seq<Call>, said: Call) {
    exists i :: 0 <= i < |calls| && calls[i] == said
                && forall j :: i < j < |calls| ==> calls[j] != Hold(said.name, false)
  }

  /** What holds is what was last said to; what has reclaimed is what did so since it was last said not to hold. */
  lemma {:induction false} TheLastWordStands(s: Picture, calls: seq<Call>, n: string)
    requires Fresh(s)
    ensures n in Run(s, calls).0.holding <==> n in s.grades && Stands(calls, Hold(n, true))
    ensures n in Run(s, calls).0.reclaimed <==> n in s.local && Stands(calls, Reclaim(n))
  {
    if calls != [] {
      var before, c := calls[..|calls| - 1], calls[|calls| - 1];
      TheLastWordStands(s, before, n);
      LastWord(before, c, Hold(n, true));
      LastWord(before, c, Reclaim(n));
      assert before + [c] == calls;
      CalledHolds(Run(s, before).0, c, n);
      hide Called, Fresh, Stands;
    }
  }

  lemma CalledHolds(s: Picture, c: Call, n: string)
    requires s.Valid()
    ensures n in Called(s, c).0.holding
            <==> n in s.grades && (c == Hold(n, true) || (n in s.holding && c != Hold(n, false)))
    ensures n in Called(s, c).0.reclaimed
            <==> n in s.local && (c == Reclaim(n) || (n in s.reclaimed && c != Hold(n, false)))
  {
    hide Decisions, Differences, Names;
  }

  lemma LastWord(before: seq<Call>, c: Call, said: Call)
    requires said != Hold(said.name, false)
    ensures Stands(before + [c], said) <==> c == said || (c != Hold(said.name, false) && Stands(before, said))
  {
    var calls := before + [c];
    if c == said { assert calls[|before|] == said; }
    if Stands(before, said) && c != Hold(said.name, false) {
      var i :| 0 <= i < |before| && before[i] == said
               && forall j :: i < j < |before| ==> before[j] != Hold(said.name, false);
      assert calls[i] == said;
    }
    if Stands(calls, said) {
      var i :| 0 <= i < |calls| && calls[i] == said
               && forall j :: i < j < |calls| ==> calls[j] != Hold(said.name, false);
      if i < |before| {
        assert before[i] == said && calls[|before|] == c;
        assert forall j :: i < j < |before| ==> before[j] == calls[j];
      }
    }
  }

  /** That the channel's suspension became another one, with the grade it leaves. */
  ghost predicate Tells(e: Event, was: map<string, Verdict>, now: map<string, Verdict>, grades: map<string, string>)
    requires was.Keys == now.Keys == grades.Keys
  {
    && e.name in was && was[e.name] != now[e.name]
    && match e
       case ChannelSuspended(n, reason, cause, retains) =>
         now[n] == Suspended(cause, reason) && retains == grades[n]
       case ChannelResumed(n) => now[n] == Free
  }

  /** No two of them are about the same channel. */
  ghost predicate OneEach(events: seq<Event>) {
    forall i, j :: 0 <= i < j < |events| ==> events[i].name != events[j].name
  }

  /** A call emits one event for each channel whose suspension it changed, and no other. */
  lemma EventsAreTheChanges(s: Picture, calls: seq<Call>, c: Call, e: Event)
    requires Fresh(s)
    ensures var before, after := Run(s, calls).0, Called(Run(s, calls).0, c);
            && (e in after.1 <==> Tells(e, before.verdicts, after.0.verdicts, s.grades))
            && OneEach(after.1)
  {
    var before := Run(s, calls).0;
    var after := Called(before, c);
    DifferencesTell(s.order, before.verdicts, after.0.verdicts, s.grades, e);
    DifferencesOnce(s.order, before.verdicts, after.0.verdicts, s.grades);
    hide OneEach;
  }

  lemma {:induction false} DifferencesTell(order: seq<string>, was: map<string, Verdict>, now: map<string, Verdict>,
                                           grades: map<string, string>, e: Event)
    requires was.Keys == now.Keys == grades.Keys && Names(order) <= was.Keys
    ensures e in Differences(order, was, now, grades) <==> e.name in Names(order) && Tells(e, was, now, grades)
  {
    if order != [] { DifferencesTell(order[..|order| - 1], was, now, grades, e); }
  }

  lemma {:induction false} DifferencesOnce(order: seq<string>, was: map<string, Verdict>, now: map<string, Verdict>,
                                           grades: map<string, string>)
    requires was.Keys == now.Keys == grades.Keys && Names(order) <= was.Keys
    ensures OneEach(Differences(order, was, now, grades))
  {
    if order != [] {
      var before := order[..|order| - 1];
      DifferencesOnce(before, was, now, grades);
      var d := Differences(before, was, now, grades);
      forall i | 0 <= i < |d|
        ensures d[i].name in Names(before)
      {
        assert d[i] in d;
        DifferencesTell(before, was, now, grades, d[i]);
      }
      var n := order[|order| - 1];
      var last := Announce(n, if n in Names(before) then now[n] else was[n], now[n], grades[n]);
      assert Differences(order, was, now, grades) == d + last;
      forall i, j | 0 <= i < j < |d + last|
        ensures (d + last)[i].name != (d + last)[j].name
      {
        if j == |d| { assert (d + last)[j].name == n && n !in Names(before); }
      }
    }
  }

  // ----- The arbiter itself -----

  datatype Channel = Channel(name: string, address: Option<string>, onSuspend: string)

  class Arbitrated {
    ghost const name: string
    const local: bool
    const grade: string
    var holding: bool
    var reclaimed: bool
    var suspended: bool
    var cause: string
    var reason: Reason

    constructor (ghost name: string, local: bool, grade: string)
      ensures this.name == name && this.local == local && this.grade == grade
      ensures !holding && !reclaimed && !suspended
    {
      this.name, this.local, this.grade := name, local, grade;
      holding, reclaimed, suspended, cause, reason := false, false, false, "", Displaced;
    }

    ghost function Verdict(): Verdict
      reads this
    {
      if suspended then Suspended(cause, reason) else Free
    }

    /** Takes a verdict, and announces it where it is another. */
    method Become(name: string, verdict: Verdict) returns (events: seq<Event>)
      modifies this
      ensures holding == old(holding) && reclaimed == old(reclaimed) && Verdict() == verdict
      ensures events == Announce(name, old(Verdict()), verdict, grade)
    {
      events := [];
      if verdict.Suspended? && (!suspended || cause != verdict.cause || reason != verdict.reason) {
        events := [ChannelSuspended(name, verdict.reason, verdict.cause, grade)];
      } else if verdict.Free? && suspended {
        events := [ChannelResumed(name)];
      }
      suspended := verdict.Suspended?;
      cause := if verdict.Suspended? then verdict.cause else "";
      reason := if verdict.Suspended? then verdict.reason else Displaced;
    }

    /** The channel is what the picture says of it. */
    ghost predicate Shows(p: Picture)
      reads this
    {
      && name in p.grades && p.grades[name] == grade
      && (name in p.local <==> local)
      && (name in p.holding <==> holding)
      && (name in p.reclaimed <==> reclaimed)
      && name in p.verdicts && p.verdicts[name] == Verdict()
    }
  }

  /** The picture with one channel more, or declared anew, that is free and holds nothing. */
  ghost function Added(s: Picture, name: string, local: bool, grade: string): Picture {
    s.(order := s.order + [name], grades := s.grades[name := grade], verdicts := s.verdicts[name := Free],
       local := if local then s.local + {name} else s.local - {name})
  }

  lemma AddedIsFresh(s: Picture, name: string, local: bool, grade: string)
    requires Fresh(s)
    ensures Fresh(Added(s, name, local, grade))
  {
    assert (s.order + [name])[..|s.order|] == s.order;
  }

  lemma FreshIsValid(s: Picture)
    requires Fresh(s)
    ensures s.Valid() && s.holding == {} && s.reclaimed == {}
  {
  }

  lemma AddedShows(c: Arbitrated, s: Picture, name: string, local: bool, grade: string)
    requires Fresh(s)
    requires if c.name == name then c.local == local && c.grade == grade && !c.holding && !c.reclaimed && !c.suspended
             else c.Shows(s)
    ensures c.Shows(Added(s, name, local, grade))
  {
  }

  class Arbiter {
    const rules: seq<Rule>
    var channels: map<string, Arbitrated>
    var order: seq<string>
    var published: seq<Event>
    ghost var view: Picture
    ghost var cells: set<Arbitrated>

    ghost predicate Valid()
      reads this, cells
    {
      && view.Valid()
      && view.rules == rules && view.order == order && view.grades.Keys == channels.Keys
      && forall n :: n in channels ==> channels[n] in cells && channels[n].name == n && channels[n].Shows(view)
    }

    constructor (declared: seq<Channel>, rules: seq<Rule>)
      ensures Valid() && fresh(cells) && published == []
      ensures Fresh(view) && view.rules == rules && Ascending(order)
    {
      this.rules := rules;
      channels, order, published, cells := map[], [], [], {};
      view := Picture(rules, [], map[], {}, {}, {}, map[]);
      new;
      for i := 0 to |declared|
        invariant Valid() && fresh(cells) && Fresh(view) && published == []
      {
        var ch := declared[i];
        var grade := if ch.onSuspend == "" then "read-only" else ch.onSuspend;
        Add(ch.name, ch.address == None || ch.address == Some("local"), grade);
      }
      Arrange();
    }

    method Arrange()
      requires Valid() && Fresh(view)
      modifies this`order, this`view
      ensures Valid() && Fresh(view) && Ascending(order)
    {
      ghost var names := order;
      order := Sorted(order);
      SameNames(names, order);
      view := view.(order := order);
      forall n | n in channels
        ensures channels[n] in cells && channels[n].name == n && channels[n].Shows(view)
      {
        assert old(channels[n].Shows(view));
      }
    }

    /** A channel declared: it holds nothing and is free. A name declared again takes its last declaration. */
    method Add(name: string, local: bool, grade: string)
      requires Valid() && Fresh(view)
      modifies this
      ensures Valid() && Fresh(view) && fresh(cells - old(cells)) && published == old(published)
      ensures order == old(order) + [name] && name in view.grades && view.grades[name] == grade
    {
      hide Names, Fresh, Arbitrated.Shows;
      AddedIsFresh(view, name, local, grade);
      FreshIsValid(Added(view, name, local, grade));
      FreshIsValid(view);
      var c := new Arbitrated(name, local, grade);
      channels := channels[name := c];
      order := order + [name];
      cells := cells + {c};
      forall n | n in channels
        ensures channels[n] in cells && channels[n].name == n && channels[n].Shows(Added(view, name, local, grade))
      {
        if n != name { assert old(n in channels && channels[n].Shows(view)); }
        AddedShows(channels[n], view, name, local, grade);
      }
      view := Added(view, name, local, grade);
    }

    method Mark(name: string, holds: bool)
      requires Valid() && name in channels
      modifies this`view, cells
      ensures Valid()
      ensures view == if holds then old(view).(holding := old(view).holding + {name})
                      else old(view).(holding := old(view).holding - {name}, reclaimed := old(view).reclaimed - {name})
    {
      var c := channels[name];
      c.holding := holds;
      if !holds {
        c.reclaimed := false;
      }
      view := if holds then view.(holding := view.holding + {name})
              else view.(holding := view.holding - {name}, reclaimed := view.reclaimed - {name});
      forall n | n in channels
        ensures channels[n] in cells && channels[n].name == n && channels[n].Shows(view)
      {
        assert old(channels[n].Shows(view));
      }
    }

    method Take(name: string)
      requires Valid() && name in channels && channels[name].local
      modifies this`view, cells
      ensures Valid()
      ensures view == old(view).(reclaimed := old(view).reclaimed + {name})
    {
      var c := channels[name];
      c.reclaimed := true;
      view := view.(reclaimed := view.reclaimed + {name});
      forall n | n in channels
        ensures channels[n] in cells && channels[n].name == n && channels[n].Shows(view)
      {
        assert old(channels[n].Shows(view));
      }
    }

    /** Sets whether a channel holds, and forgets its reclaiming when it does not. */
    method Hold(name: string, holds: bool)
      requires Valid()
      modifies this`published, this`view, cells
      ensures Valid()
      ensures view == Called(old(view), Call.Hold(name, holds)).0
      ensures published == old(published) + Called(old(view), Call.Hold(name, holds)).1
    {
      hide Recomputed, Names, Arbitrated.Shows, LinkedAgainst;
      if name !in channels { return; }
      Mark(name, holds);
      var events := Recompute();
      Tell(events);
    }

    /** A local channel reclaims; the answer is whether any verdict is another one now. */
    method Reclaim(name: string) returns (changed: bool)
      requires Valid()
      modifies this`published, this`view, cells
      ensures Valid()
      ensures view == Called(old(view), Call.Reclaim(name)).0
      ensures published == old(published) + Called(old(view), Call.Reclaim(name)).1
      ensures changed <==> Called(old(view), Call.Reclaim(name)).1 != []
    {
      hide Recomputed, Names, LinkedAgainst;
      if name !in channels || !channels[name].local { return false; }
      hide Arbitrated.Shows;
      Take(name);
      var events := Recompute();
      Tell(events);
      return |events| > 0;
    }

    method State(name: string) returns (suspended: bool, grade: string, cause: string, reason: Option<Reason>)
      requires Valid()
      ensures suspended <==> name in channels && view.verdicts[name].Suspended?
      ensures suspended ==>
                reason.Some? && view.verdicts[name] == Suspended(cause, reason.value) && grade == view.grades[name]
      ensures !suspended ==> grade == "" && cause == "" && reason == None
    {
      if name !in channels || !channels[name].suspended { return false, "", "", None; }
      var c := channels[name];
      return true, c.grade, c.cause, Some(c.reason);
    }

    /** The suspensions from the rules, and the events for what changed. */
    method Recompute() returns (events: seq<Event>)
      requires Valid()
      modifies this`view, cells
      ensures Valid()
      ensures view == Recomputed(old(view)).0
      ensures events == Recomputed(old(view)).1
      ensures LinkedAgainst(view)
    {
      var edges := Gather();
      DecisionsLink(view);
      hide LinkedAgainst, FirstAgainst, Arbitrated.Shows;
      events := SettleAll(edges, Decisions(view));
    }

    method SettleAll(edges: seq<Edge>, ghost now: map<string, Verdict>) returns (events: seq<Event>)
      requires Valid() && now.Keys == view.grades.Keys
      requires forall n :: n in now ==> now[n] == FirstAgainst(edges, n, view.holding)
      modifies this`view, cells
      ensures Valid()
      ensures view == old(view).(verdicts := now)
      ensures events == Differences(order, old(view).verdicts, now, view.grades)
    {
      hide Partly, Announce, Differences, FirstAgainst, Names, Arbitrated.Shows;
      NamesOfFront(order, 0);
      ghost var s := view;
      events := [];
      NonePartly(order, s.verdicts, now, s.grades);
      assert s.verdicts == Partly(order[..0], s.verdicts, now);
      for i := 0 to |order|
        invariant Valid() && Names(order[..i]) <= now.Keys
        invariant view == s.(verdicts := Partly(order[..i], s.verdicts, now))
        invariant events == Differences(order[..i], s.verdicts, now, s.grades)
      {
        var name := order[i];
        NameAt(order, i);
        NamesOfFront(order, i + 1);
        var verdict := Against(edges, name);
        assert order[..i + 1][..i] == order[..i];
        PartlyExtends(order[..i + 1], s.verdicts, now);
        DifferencesExtend(order[..i + 1], s.verdicts, now, s.grades);
        var told := Settle(name, verdict);
        events := events + told;
      }
      assert order[..|order|] == order;
      AllPartly(order, s.verdicts, now);
    }

    method Settle(name: string, verdict: Verdict) returns (events: seq<Event>)
      requires Valid() && name in channels
      modifies this`view, cells
      ensures Valid()
      ensures view == old(view).(verdicts := old(view).verdicts[name := verdict])
      ensures events == Announce(name, old(view).verdicts[name], verdict, view.grades[name])
    {
      var c := channels[name];
      events := c.Become(name, verdict);
      view := view.(verdicts := view.verdicts[name := verdict]);
      forall n | n in channels
        ensures channels[n] in cells && channels[n].name == n && channels[n].Shows(view)
      {
        assert old(channels[n].Shows(view));
      }
    }

    /** One edge for every pair of a rule, pointing up where the lower channel is taken. */
    method Gather() returns (edges: seq<Edge>)
      requires Valid()
      ensures edges == Edges(rules, view.Taken())
    {
      ghost var taken := view.Taken();
      edges := [];
      for i := 0 to |rules|
        invariant edges == Edges(rules[..i], taken)
      {
        var r := rules[i];
        ghost var sofar := edges;
        for j := 0 to |r.over|
          invariant edges == sofar + RuleEdges(r.prevails, r.over[..j], taken)
        {
          var d := r.over[j];
          assert r.over[..j + 1][..j] == r.over[..j];
          if d in channels && channels[d].reclaimed && channels[d].local && channels[d].holding {
            edges := edges + [Edge(d, r.prevails, Reclaimed)];
          } else {
            edges := edges + [Edge(r.prevails, d, Displaced)];
          }
        }
        assert r.over[..|r.over|] == r.over;
        assert rules[..i + 1][..i] == rules[..i];
      }
      assert rules[..|rules|] == rules;
    }

    method Against(edges: seq<Edge>, name: string) returns (v: Verdict)
      requires Valid()
      ensures v == FirstAgainst(edges, name, view.holding)
    {
      ghost var holding := view.holding;
      v := Free;
      for i := 0 to |edges|
        invariant v == Free
        invariant FirstAgainst(edges, name, holding) == FirstAgainst(edges[i..], name, holding)
      {
        var e := edges[i];
        assert edges[i..][1..] == edges[i + 1..];
        if e.over == name && e.prevails in channels && channels[e.prevails].holding {
          return Suspended(e.prevails, e.reason);
        }
      }
    }

    method Tell(events: seq<Event>)
      modifies this`published
      ensures published == old(published) + events
    {
      for i := 0 to |events|
        invariant published == old(published) + events[..i]
      {
        published := published + [events[i]];
      }
    }
  }
}
