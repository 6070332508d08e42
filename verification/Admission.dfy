/** How a process that runs becomes a unit that takes part: single-use tokens, nine stages, and the two maps
    of the units that are live. */
module Admission {
  import opened Prelude
  import Grants

  datatype Stage =
    | Structural | Identity | AdministrativeState | Authentication
    | Compatibility | DeclarationConsistency | UnitConflict | SessionPreparation

  datatype Code =
    | Malformed | UnknownPlugin | UnknownUnit | Disabled | Invalid | Expired
    | Consumed | Unsupported | Divergent | UnitLive | Unavailable

  const PROTOCOLS: seq<int> := [1]

  datatype Request = Request(plugin: string, unit: string, token: string, protocol: int, declared: Grants.Surface)

  datatype Reading = Unreadable | Unknown | Known(enabled: bool, grants: seq<string>)

  datatype Terms = Terms(interval: int, tolerance: int)

  datatype Composed = Composed(plugin: string, terms: Terms)

  /** What a request is decided against besides the gate's own state, as each was read for it. */
  datatype Host = Host(plugin: Reading, composed: Option<Composed>, manifest: Option<Grants.Manifest>, now: int,
                       window: int)

  datatype Token = Token(value: string, at: int, spent: bool)

  datatype Session = Session(id: string, unit: string, plugin: string, granted: Grants.Surface, terms: Terms)

  /** A registration past its seventh stage, not yet holding the lock of the eighth. */
  datatype Pending = Pending(request: Request, granted: Grants.Surface, withheld: Grants.Surface, terms: Terms,
                             examined: bool)

  datatype Answer =
    | Refused(stage: Stage, code: Code, examined: bool)
    | Passed(pending: Pending)
    | Accepted(session: Session, withheld: Grants.Surface, restricted: bool)
    | Done

  /** The gate's state; `values` and `ids` are the tokens and the identities ever handed out. */
  datatype Gate = Gate(
    waived: bool,
    issued: map<string, Token>,
    live: map<string, string>,
    sessions: map<string, Session>,
    waiting: seq<Pending>,
    values: set<string>,
    ids: set<string>
  )

  ghost predicate Fresh(g: Gate) {
    g.issued == map[] && g.live == map[] && g.sessions == map[] && g.waiting == [] && g.values == {} && g.ids == {}
  }

  // ----- The stages -----

  /** The first fault found in a token and its unit, if there is one. */
  function Fault(issued: map<string, Token>, unit: string, value: string, now: int, window: int): Option<Code> {
    if unit !in issued || value == "" || issued[unit].value != value then Some(Invalid)
    else if issued[unit].spent then Some(Consumed)
    else if now - issued[unit].at > window then Some(Expired)
    else None
  }

  /** The stages before the credential is examined. */
  function Untrusted(r: Request, h: Host): Option<Answer> {
    if r.plugin == "" || r.unit == "" then Some(Refused(Structural, Malformed, false))
    else if !h.plugin.Known? then Some(Refused(Identity, UnknownPlugin, false))
    else if h.composed == None then Some(Refused(Identity, UnknownUnit, false))
    else if !h.plugin.enabled then Some(Refused(AdministrativeState, Disabled, false))
    else None
  }

  function Unproven(g: Gate, r: Request, h: Host): Option<Answer>
    requires Untrusted(r, h) == None
  {
    if g.waived then None
    else if h.composed.value.plugin != r.plugin then Some(Refused(Authentication, Invalid, true))
    else match Fault(g.issued, r.unit, r.token, h.now, h.window)
      case Some(code) => Some(Refused(Authentication, code, true))
      case None => None
  }

  function Incompatible(r: Request, h: Host, examined: bool): Option<Answer> {
    if r.protocol !in PROTOCOLS then Some(Refused(Compatibility, Unsupported, examined))
    else if h.manifest == None || !Agree(r.declared, Grants.Declared(h.manifest.value))
    then Some(Refused(DeclarationConsistency, Divergent, examined))
    else None
  }

  /** The same lists, whatever their order. */
  predicate Agree(got: Grants.Surface, want: Grants.Surface) {
    && multiset(got.capabilities) == multiset(want.capabilities)
    && multiset(got.streams) == multiset(want.streams)
    && multiset(got.commands) == multiset(want.commands)
    && multiset(got.queries) == multiset(want.queries)
    && multiset(got.occurrences) == multiset(want.occurrences)
  }

  ghost function PendingOf(g: Gate, r: Request, h: Host): Pending
    requires Untrusted(r, h) == None && h.manifest.Some?
  {
    var grants := set s | s in h.plugin.grants;
    Pending(r, Grants.Part(h.manifest.value, grants, true), Grants.Part(h.manifest.value, grants, false),
            h.composed.value.terms, !g.waived)
  }

  // ----- The steps, each under one lock -----

  datatype Step =
    | Issue(unit: string, value: string, at: int)
    | Present(request: Request, host: Host)
    | Commit(place: nat, id: Option<string>, recorded: bool)
    | Release(unit: string)

  ghost predicate Possible(g: Gate, step: Step) {
    match step
    case Issue(_, value, _) => value != "" && value !in g.values
    case Present(_, _) => true
    case Commit(place, id, _) => place < |g.waiting| && (id.Some? ==> id.value != "" && id.value !in g.ids)
    case Release(_) => true
  }

  ghost function Spent(g: Gate, unit: string): Gate {
    if g.waived || unit !in g.issued then g else g.(issued := g.issued[unit := g.issued[unit].(spent := true)])
  }

  ghost function Presented(g: Gate, r: Request, h: Host): (Gate, Answer) {
    match Untrusted(r, h)
    case Some(refusal) => (g, refusal)
    case None =>
      match Unproven(g, r, h)
      case Some(refusal) => (g, refusal)
      case None =>
        var after := Spent(g, r.unit);
        match Incompatible(r, h, !g.waived)
        case Some(refusal) => (after, refusal)
        case None =>
          var p := PendingOf(g, r, h);
          (after.(waiting := g.waiting + [p]), Passed(p))
  }

  ghost function SessionOf(p: Pending, id: string): Session {
    Session(id, p.request.unit, p.request.plugin, p.granted, p.terms)
  }

  ghost function Committed(g: Gate, place: nat, id: Option<string>, recorded: bool): (Gate, Answer)
    requires place < |g.waiting|
  {
    var p := g.waiting[place];
    var left := g.(waiting := g.waiting[..place] + g.waiting[place + 1..]);
    if p.request.unit in g.live then (left, Refused(UnitConflict, UnitLive, p.examined))
    else if id == None then (left, Refused(SessionPreparation, Unavailable, p.examined))
    else if !recorded then (left.(ids := g.ids + {id.value}), Refused(SessionPreparation, Unavailable, p.examined))
    else
      var s := SessionOf(p, id.value);
      (left.(live := g.live[s.unit := s.id], sessions := g.sessions[s.id := s], ids := g.ids + {s.id}),
       Accepted(s, p.withheld, p.withheld != Grants.NOTHING))
  }

  /** A missing unit holds the empty identity, which no Session has. */
  function Holder(live: map<string, string>, unit: string): string {
    if unit in live then live[unit] else ""
  }

  ghost function Next(g: Gate, step: Step): (Gate, Answer)
    requires Possible(g, step)
  {
    match step
    case Issue(unit, value, at) =>
      (g.(issued := g.issued[unit := Token(value, at, false)], values := g.values + {value}), Done)
    case Present(r, h) => Presented(g, r, h)
    case Commit(place, id, recorded) => Committed(g, place, id, recorded)
    case Release(unit) => (g.(sessions := g.sessions - {Holder(g.live, unit)}, live := g.live - {unit}), Done)
  }

  ghost predicate IsRun(g: Gate, steps: seq<Step>)
    decreases |steps|, 0
  {
    steps == [] || (IsRun(g, steps[..|steps| - 1]) && Possible(Run(g, steps[..|steps| - 1]), steps[|steps| - 1]))
  }

  ghost function Run(g: Gate, steps: seq<Step>): Gate
    requires IsRun(g, steps)
    decreases |steps|, 1
  {
    if steps == [] then g else Next(Run(g, steps[..|steps| - 1]), steps[|steps| - 1]).0
  }

  lemma {:induction false} PrefixIsRun(g: Gate, steps: seq<Step>, n: nat)
    requires IsRun(g, steps) && n <= |steps|
    ensures IsRun(g, steps[..n])
    ensures n < |steps| ==> Possible(Run(g, steps[..n]), steps[n])
    ensures n < |steps| ==> IsRun(g, steps[..n + 1]) && Run(g, steps[..n + 1]) == Next(Run(g, steps[..n]), steps[n]).0
  {
    if n < |steps| {
      var front := steps[..|steps| - 1];
      if n == |front| {
        assert steps[..n + 1] == steps && steps[..n] == front;
      } else {
        PrefixIsRun(g, front, n);
        assert front[..n] == steps[..n] && front[..n + 1] == steps[..n + 1];
      }
    } else {
      assert steps[..n] == steps;
    }
  }

  /** What step `n` of a run was answered. */
  ghost function AnswerAt(g: Gate, steps: seq<Step>, n: nat): Answer
    requires IsRun(g, steps) && n < |steps|
  {
    PrefixIsRun(g, steps, n);
    Next(Run(g, steps[..n]), steps[n]).1
  }

  // ----- The two maps -----

  ghost predicate Inverse(g: Gate) {
    && (forall u :: u in g.live ==> g.live[u] in g.sessions && g.sessions[g.live[u]].unit == u)
    && (forall id :: id in g.sessions ==>
          g.sessions[id].id == id && g.sessions[id].unit in g.live && g.live[g.sessions[id].unit] == id)
    && g.sessions.Keys <= g.ids && "" !in g.ids
  }

  lemma NextKeepsInverse(g: Gate, step: Step)
    requires Possible(g, step) && Inverse(g)
    ensures Inverse(Next(g, step).0)
  {
    var after := Next(g, step).0;
    if step.Commit? {
      var p := g.waiting[step.place];
      if p.request.unit !in g.live && step.id.Some? && step.recorded {
        assert step.id.value !in g.sessions;
      }
    } else if step.Release? {
      forall id | id in after.sessions
        ensures after.sessions[id].unit in after.live && after.live[after.sessions[id].unit] == id
      {
        assert g.sessions[id].unit != step.unit;
      }
    }
  }

  /** Over every run the unit-to-Session and Session maps are inverse, so no unit has two Sessions. */
  lemma {:induction false} MapsStayInverse(g: Gate, steps: seq<Step>)
    requires Fresh(g) && IsRun(g, steps)
    ensures Inverse(Run(g, steps))
  {
    if steps != [] {
      var front := steps[..|steps| - 1];
      MapsStayInverse(g, front);
      NextKeepsInverse(Run(g, front), steps[|steps| - 1]);
    }
  }

  // ----- What a refusal changes -----

  /** No refusal changes who is live; one before or at authentication changes nothing at all, and any later
      one, if the credential was examined, comes after it was spent. The refusals told to the unit are
      exactly those. */
  lemma RefusalSpends(g: Gate, r: Request, h: Host)
    requires Presented(g, r, h).1.Refused?
    ensures var (after, answer) := Presented(g, r, h);
            && after.live == g.live && after.sessions == g.sessions
            && (answer.stage in {Structural, Identity, AdministrativeState, Authentication} ==> after == g)
            && (answer.stage in {Compatibility, DeclarationConsistency} && answer.examined <==> after != g)
            && (after != g ==> Fault(g.issued, r.unit, r.token, h.now, h.window) == None && after == Spent(g, r.unit))
  {
    if Untrusted(r, h) == None && Unproven(g, r, h) == None && !g.waived {
      var spent := Spent(g, r.unit);
      assert !g.issued[r.unit].spent && spent.issued[r.unit].spent;
    }
  }

  lemma LateRefusalChangesNoSession(g: Gate, place: nat, id: Option<string>, recorded: bool)
    requires place < |g.waiting|
    ensures var (after, answer) := Committed(g, place, id, recorded);
            answer.Refused? ==> after.live == g.live && after.sessions == g.sessions && after.issued == g.issued
  {
  }

  // ----- Tokens over a run -----

  /** The tokens of the registrations accepted so far. */
  ghost function AcceptedTokens(g: Gate, steps: seq<Step>): set<string>
    requires IsRun(g, steps)
  {
    if steps == [] then {}
    else
      var front, last := steps[..|steps| - 1], steps[|steps| - 1];
      AcceptedTokens(g, front)
      + (if Next(Run(g, front), last).1.Accepted? then {Run(g, front).waiting[last.place].request.token} else {})
  }

  /** A token is in one place: unspent with its unit, spent by one waiting registration, accepted, or lost. */
  ghost predicate OnePlace(g: Gate, accepted: set<string>) {
    && !g.waived
    && accepted <= g.values
    && (forall i :: 0 <= i < |g.waiting| ==> Held(g, accepted, g.waiting[i].request.token))
    && (forall i, j :: 0 <= i < j < |g.waiting| ==> g.waiting[i].request.token != g.waiting[j].request.token)
    && (forall u :: u in g.issued ==> g.issued[u].value in g.values)
    && (forall u :: u in g.issued && !g.issued[u].spent ==> g.issued[u].value !in accepted)
    && (forall u, v :: u in g.issued && v in g.issued && u != v ==> g.issued[u].value != g.issued[v].value)
  }

  ghost predicate Held(g: Gate, accepted: set<string>, token: string) {
    && token in g.values && token !in accepted
    && (forall u :: u in g.issued && g.issued[u].value == token ==> g.issued[u].spent)
  }

  lemma IssueKeepsOnePlace(g: Gate, accepted: set<string>, unit: string, value: string, at: int)
    requires OnePlace(g, accepted) && Possible(g, Issue(unit, value, at))
    ensures OnePlace(Next(g, Issue(unit, value, at)).0, accepted)
  {
    var after := Next(g, Issue(unit, value, at)).0;
    forall i | 0 <= i < |after.waiting|
      ensures Held(after, accepted, after.waiting[i].request.token)
    {
      assert Held(g, accepted, g.waiting[i].request.token);
    }
  }

  ghost predicate Joined(before: seq<Pending>, after: seq<Pending>, token: string) {
    |after| == |before| + 1 && after[..|before|] == before && after[|before|].request.token == token
  }

  /** A presentation that changes anything spends an unspent token and may add itself to those waiting. */
  lemma PresentSpends(g: Gate, r: Request, h: Host)
    requires !g.waived && Presented(g, r, h).0 != g
    ensures var after := Presented(g, r, h).0;
            && r.unit in g.issued && g.issued[r.unit].value == r.token && !g.issued[r.unit].spent
            && after == g.(issued := g.issued[r.unit := g.issued[r.unit].(spent := true)], waiting := after.waiting)
            && (after.waiting == g.waiting || Joined(g.waiting, after.waiting, r.token))
  {
  }

  lemma PresentKeepsOnePlace(g: Gate, accepted: set<string>, r: Request, h: Host)
    requires OnePlace(g, accepted)
    ensures OnePlace(Presented(g, r, h).0, accepted)
  {
    hide Presented;
    var after := Presented(g, r, h).0;
    if after != g {
      PresentSpends(g, r, h);
      forall i | 0 <= i < |g.waiting|
        ensures Held(after, accepted, g.waiting[i].request.token) && g.waiting[i].request.token != r.token
        ensures after.waiting[i] == g.waiting[i]
      {
        assert Held(g, accepted, g.waiting[i].request.token);
        if after.waiting != g.waiting { assert after.waiting[..|g.waiting|][i] == g.waiting[i]; }
      }
      assert Held(after, accepted, r.token);
    }
  }

  lemma CommitLeaves(g: Gate, place: nat, id: Option<string>, recorded: bool)
    requires place < |g.waiting|
    ensures var after := Committed(g, place, id, recorded).0;
            && after.waiting == g.waiting[..place] + g.waiting[place + 1..]
            && after.issued == g.issued && after.values == g.values && after.waived == g.waived
  {
  }

  lemma CommitKeepsOnePlace(g: Gate, accepted: set<string>, place: nat, id: Option<string>, recorded: bool)
    requires OnePlace(g, accepted) && Possible(g, Commit(place, id, recorded))
    ensures var (after, answer) := Committed(g, place, id, recorded);
            OnePlace(after, accepted + (if answer.Accepted? then {g.waiting[place].request.token} else {}))
  {
    hide Committed;
    CommitLeaves(g, place, id, recorded);
    var (after, answer) := Committed(g, place, id, recorded);
    var token := g.waiting[place].request.token;
    var now := accepted + (if answer.Accepted? then {token} else {});
    assert Held(g, accepted, token);
    forall i | 0 <= i < |after.waiting|
      ensures Held(after, now, after.waiting[i].request.token)
    {
      var k := if i < place then i else i + 1;
      assert after.waiting[i] == g.waiting[k];
      assert Held(g, accepted, g.waiting[k].request.token);
      assert g.waiting[k].request.token != token;
    }
    forall i, j | 0 <= i < j < |after.waiting|
      ensures after.waiting[i].request.token != after.waiting[j].request.token
    {
      var k, l := if i < place then i else i + 1, if j < place then j else j + 1;
      assert after.waiting[i] == g.waiting[k] && after.waiting[j] == g.waiting[l];
    }
  }

  lemma {:induction false} TokensAreInOnePlace(g: Gate, steps: seq<Step>)
    requires Fresh(g) && !g.waived && IsRun(g, steps)
    ensures OnePlace(Run(g, steps), AcceptedTokens(g, steps))
  {
    if steps != [] {
      var front, last := steps[..|steps| - 1], steps[|steps| - 1];
      TokensAreInOnePlace(g, front);
      var before, accepted := Run(g, front), AcceptedTokens(g, front);
      assert accepted + {} == accepted;
      match last
      case Issue(unit, value, at) => IssueKeepsOnePlace(before, accepted, unit, value, at);
      case Present(r, h) => PresentKeepsOnePlace(before, accepted, r, h);
      case Commit(place, id, recorded) => CommitKeepsOnePlace(before, accepted, place, id, recorded);
      case Release(_) =>
    }
  }

  /** The token an accepted registration presented. */
  ghost function TokenAt(g: Gate, steps: seq<Step>, n: nat): string
    requires IsRun(g, steps) && n < |steps| && AnswerAt(g, steps, n).Accepted?
  {
    PrefixIsRun(g, steps, n);
    Run(g, steps[..n]).waiting[steps[n].place].request.token
  }

  lemma PrefixAnswers(g: Gate, steps: seq<Step>, n: nat, i: nat)
    requires IsRun(g, steps) && i < n <= |steps|
    ensures IsRun(g, steps[..n]) && AnswerAt(g, steps[..n], i) == AnswerAt(g, steps, i)
    ensures AnswerAt(g, steps, i).Accepted? ==> TokenAt(g, steps[..n], i) == TokenAt(g, steps, i)
  {
    PrefixIsRun(g, steps, n);
    assert steps[..n][..i] == steps[..i];
  }

  lemma {:induction false} AcceptedIsKept(g: Gate, steps: seq<Step>, n: nat)
    requires IsRun(g, steps) && n < |steps| && AnswerAt(g, steps, n).Accepted?
    ensures TokenAt(g, steps, n) in AcceptedTokens(g, steps)
  {
    hide Next, Possible;
    var front := steps[..|steps| - 1];
    if n == |front| {
      assert steps[..n] == front;
    } else {
      PrefixAnswers(g, steps, |front|, n);
      AcceptedIsKept(g, front, n);
    }
  }

  lemma AcceptedIsNew(g: Gate, steps: seq<Step>, n: nat)
    requires Fresh(g) && !g.waived && IsRun(g, steps) && n < |steps| && AnswerAt(g, steps, n).Accepted?
    ensures IsRun(g, steps[..n]) && TokenAt(g, steps, n) !in AcceptedTokens(g, steps[..n])
  {
    PrefixIsRun(g, steps, n);
    TokensAreInOnePlace(g, steps[..n]);
    assert Held(Run(g, steps[..n]), AcceptedTokens(g, steps[..n]), TokenAt(g, steps, n));
  }

  /** No token is accepted twice, however registrations interleave. */
  lemma EachTokenIsAcceptedOnce(g: Gate, steps: seq<Step>, i: nat, j: nat)
    requires Fresh(g) && !g.waived && IsRun(g, steps)
    requires i < j < |steps| && AnswerAt(g, steps, i).Accepted? && AnswerAt(g, steps, j).Accepted?
    ensures TokenAt(g, steps, i) != TokenAt(g, steps, j)
  {
    AcceptedIsNew(g, steps, j);
    PrefixAnswers(g, steps, j, i);
    AcceptedIsKept(g, steps[..j], i);
  }

  // ----- What an acceptance rests on -----

  /** A unit's token is the one its latest issue gave. */
  lemma {:induction false} IssuedLast(g: Gate, steps: seq<Step>, unit: string) returns (k: nat)
    requires Fresh(g) && IsRun(g, steps) && unit in Run(g, steps).issued
    ensures k < |steps| && steps[k].Issue? && steps[k].unit == unit
    ensures Run(g, steps).issued[unit].value == steps[k].value && Run(g, steps).issued[unit].at == steps[k].at
    ensures forall m :: k < m < |steps| && steps[m].Issue? ==> steps[m].unit != unit
  {
    var front, last := steps[..|steps| - 1], steps[|steps| - 1];
    if last.Issue? && last.unit == unit {
      k := |front|;
    } else {
      KeepsToken(Run(g, front), last, unit);
      k := IssuedLast(g, front, unit);
      assert forall m :: 0 <= m < |front| ==> steps[m] == front[m];
    }
  }

  lemma KeepsToken(g: Gate, step: Step, unit: string)
    requires Possible(g, step) && !(step.Issue? && step.unit == unit) && unit in Next(g, step).0.issued
    ensures unit in g.issued && Next(g, step).0.issued[unit].value == g.issued[unit].value
    ensures Next(g, step).0.issued[unit].at == g.issued[unit].at
  {
    hide PendingOf, Incompatible, Untrusted, SessionOf;
  }

  /** Where a registration that waits after a step was before it, if it was not the step that passed it. */
  lemma WaitedBefore(g: Gate, step: Step, n: nat) returns (k: nat)
    requires Possible(g, step) && n < |Next(g, step).0.waiting|
    ensures k < |g.waiting| ==> Next(g, step).0.waiting[n] == g.waiting[k]
    ensures k >= |g.waiting| ==> step.Present? && Next(g, step).1 == Passed(Next(g, step).0.waiting[n])
  {
    k := if step.Commit? && n >= step.place then n + 1 else n;
  }

  /** A registration that waits passed its seventh stage at an earlier step. */
  lemma {:induction false} WaitingPassed(g: Gate, steps: seq<Step>, n: nat) returns (i: nat)
    requires Fresh(g) && IsRun(g, steps) && n < |Run(g, steps).waiting|
    ensures i < |steps| && steps[i].Present? && AnswerAt(g, steps, i) == Passed(Run(g, steps).waiting[n])
  {
    hide Next, Possible;
    var front, last := steps[..|steps| - 1], steps[|steps| - 1];
    var k := WaitedBefore(Run(g, front), last, n);
    if k < |Run(g, front).waiting| {
      i := WaitingPassed(g, front, k);
      PrefixAnswers(g, steps, |front|, i);
    } else {
      i := |front|;
    }
  }

  /** Behind every acceptance stand an issue of the token for that very unit, and after it the presentation
      that passed: no newer token had been issued for the unit, the token was within its window, and the
      plugin the unit is composed of was enabled. */
  lemma AcceptedWasVouchedFor(g: Gate, steps: seq<Step>, j: nat) returns (k: nat, i: nat)
    requires Fresh(g) && !g.waived && IsRun(g, steps) && j < |steps| && AnswerAt(g, steps, j).Accepted?
    ensures k < i < j && steps[k].Issue? && steps[i].Present?
    ensures var s, r, h := AnswerAt(g, steps, j).session, steps[i].request, steps[i].host;
            && s.unit == r.unit == steps[k].unit && s.plugin == r.plugin
            && TokenAt(g, steps, j) == r.token == steps[k].value != ""
            && (forall m :: k < m < i && steps[m].Issue? ==> steps[m].unit != s.unit)
            && h.now - steps[k].at <= h.window
            && h.composed.Some? && h.composed.value.plugin == s.plugin
            && h.plugin.Known? && h.plugin.enabled
  {
    hide Next, Possible, Presented;
    i := PresentedBefore(g, steps, j);
    PrefixIsRun(g, steps, i);
    StaysUnwaived(g, steps[..i]);
    PassedMeans(Run(g, steps[..i]), steps[i]);
    k := IssuedLast(g, steps[..i], steps[i].request.unit);
    assert forall m :: 0 <= m < i ==> steps[..i][m] == steps[m];
  }

  lemma PassedMeans(g: Gate, step: Step)
    requires Possible(g, step) && Next(g, step).1.Passed?
    ensures step.Present? && Next(g, step).1.pending.request == step.request
    ensures var r, h := step.request, step.host;
            !g.waived ==>
              && h.composed.Some? && h.composed.value.plugin == r.plugin && h.plugin.Known? && h.plugin.enabled
              && r.token != "" && Fault(g.issued, r.unit, r.token, h.now, h.window) == None
  {
  }

  lemma AcceptedMeans(g: Gate, step: Step)
    requires Possible(g, step) && Next(g, step).1.Accepted?
    ensures step.Commit? && step.place < |g.waiting|
    ensures var r, s := g.waiting[step.place].request, Next(g, step).1.session; s.unit == r.unit && s.plugin == r.plugin
  {
  }

  lemma PresentedBefore(g: Gate, steps: seq<Step>, j: nat) returns (i: nat)
    requires Fresh(g) && IsRun(g, steps) && j < |steps| && AnswerAt(g, steps, j).Accepted?
    ensures i < j && steps[i].Present? && AnswerAt(g, steps, i).Passed?
    ensures var r, s := steps[i].request, AnswerAt(g, steps, j).session;
            s.unit == r.unit && s.plugin == r.plugin && TokenAt(g, steps, j) == r.token
  {
    hide Next, Possible;
    PrefixIsRun(g, steps, j);
    AcceptedMeans(Run(g, steps[..j]), steps[j]);
    i := WaitingPassed(g, steps[..j], steps[j].place);
    PrefixAnswers(g, steps, j, i);
    PrefixIsRun(g, steps, i);
    PassedMeans(Run(g, steps[..i]), steps[i]);
  }

  lemma {:induction false} StaysUnwaived(g: Gate, steps: seq<Step>)
    requires IsRun(g, steps)
    ensures Run(g, steps).waived == g.waived
  {
    if steps != [] { StaysUnwaived(g, steps[..|steps| - 1]); }
  }

  // ----- One registration with none between -----

  ghost function Decided(g: Gate, r: Request, h: Host, id: Option<string>, recorded: bool): (Gate, Answer) {
    var (mid, answer) := Presented(g, r, h);
    if answer.Passed? then Committed(mid, |g.waiting|, id, recorded) else (mid, answer)
  }

  function Rank(stage: Stage): nat {
    match stage
    case Structural => 1
    case Identity => 2
    case AdministrativeState => 3
    case Authentication => 4
    case Compatibility => 5
    case DeclarationConsistency => 6
    case UnitConflict => 8
    case SessionPreparation => 9
  }

  /** What each stage demands, on its own. */
  ghost predicate Meets(g: Gate, r: Request, h: Host, id: Option<string>, recorded: bool, stage: Stage) {
    match stage
    case Structural => r.plugin != "" && r.unit != ""
    case Identity => h.plugin.Known? && h.composed.Some?
    case AdministrativeState => h.plugin.Known? && h.plugin.enabled
    case Authentication =>
      || g.waived
      || (&& h.composed.Some? && h.composed.value.plugin == r.plugin && r.token != ""
          && r.unit in g.issued && g.issued[r.unit].value == r.token
          && !g.issued[r.unit].spent && h.now - g.issued[r.unit].at <= h.window)
    case Compatibility => r.protocol in PROTOCOLS
    case DeclarationConsistency => h.manifest.Some? && Agree(r.declared, Grants.Declared(h.manifest.value))
    case UnitConflict => r.unit !in g.live
    case SessionPreparation => id.Some? && recorded
  }

  /** Accepted exactly when every stage is met, and otherwise refused at the first that is not. */
  lemma DecidedAtTheFirstUnmet(g: Gate, r: Request, h: Host, id: Option<string>, recorded: bool)
    ensures var answer := Decided(g, r, h, id, recorded).1;
            && (answer.Accepted? <==> forall stage :: Meets(g, r, h, id, recorded, stage))
            && (!answer.Accepted? ==>
                  && answer.Refused? && !Meets(g, r, h, id, recorded, answer.stage)
                  && forall stage :: Rank(stage) < Rank(answer.stage) ==> Meets(g, r, h, id, recorded, stage))
  {
    hide Presented;
    StagesBeforeTheGrant(g, r, h, id, recorded);
    var early := Presented(g, r, h).1;
    assert early.Passed? || !Meets(g, r, h, id, recorded, early.stage);
    assert r.unit !in g.live <==> Meets(g, r, h, id, recorded, UnitConflict);
    assert id.Some? && recorded <==> Meets(g, r, h, id, recorded, SessionPreparation);
    assert forall stage :: Rank(stage) <= 6 || stage == UnitConflict || stage == SessionPreparation;
  }

  lemma StagesBeforeTheGrant(g: Gate, r: Request, h: Host, id: Option<string>, recorded: bool)
    ensures var answer := Presented(g, r, h).1;
            && (answer.Passed? ==>
                  && answer.pending.request == r && Presented(g, r, h).0.waiting == g.waiting + [answer.pending]
                  && forall stage :: Rank(stage) <= 6 ==> Meets(g, r, h, id, recorded, stage))
            && (!answer.Passed? ==>
                  && answer.Refused? && Rank(answer.stage) <= 6 && !Meets(g, r, h, id, recorded, answer.stage)
                  && forall stage :: Rank(stage) < Rank(answer.stage) ==> Meets(g, r, h, id, recorded, stage))
    ensures Presented(g, r, h).0.live == g.live
  {
    hide Agree, Grants.Declared, Grants.Part;
  }

  /** The outcome is restricted exactly when some declared capability was not granted. */
  lemma RestrictedExactlyWhen(g: Gate, r: Request, h: Host, id: Option<string>, recorded: bool)
    requires Decided(g, r, h, id, recorded).1.Accepted? && h.manifest.Some? && Grants.Joined(h.manifest.value)
    ensures h.plugin.Known?
    ensures var answer, m := Decided(g, r, h, id, recorded).1, h.manifest.value;
            answer.restricted <==> exists i :: 0 <= i < |m.capabilities| && m.capabilities[i].name !in h.plugin.grants
  {
    StagesBeforeTheGrant(g, r, h, id, recorded);
    var grants := set s | s in h.plugin.grants;
    var p := Presented(g, r, h).1.pending;
    assert p == PendingOf(g, r, h);
    Grants.NothingWithheldExactlyWhen(h.manifest.value, grants);
  }

  // ----- What an accepted unit is given -----

  /** The Session of an acceptance: the unit's and the plugin's own, with the terms it is composed under, granted what
      the plugin's grants allow of the Manifest, and found under its identity and its unit. */
  ghost predicate GivenSession(r: Request, h: Host, before: Gate, after: Gate, answer: Answer) {
    && answer.Accepted? && h.manifest.Some? && h.plugin.Known? && h.composed.Some?
    && var s := answer.session;
       && s.unit == r.unit && s.plugin == r.plugin && s.terms == h.composed.value.terms
       && Grants.SplitBy(h.manifest.value, h.plugin.grants, s.granted, answer.withheld)
       && (answer.restricted <==> answer.withheld != Grants.NOTHING)
       && s.id !in before.ids && s.unit !in before.live
       && after.sessions == before.sessions[s.id := s] && after.live == before.live[s.unit := s.id]
  }

  lemma PassedIsSplit(g: Gate, r: Request, h: Host)
    requires Presented(g, r, h).1.Passed?
    ensures var p := Presented(g, r, h).1.pending;
            && h.manifest.Some? && h.plugin.Known? && h.composed.Some?
            && p.request == r && p.terms == h.composed.value.terms && p.examined == !g.waived
            && Grants.SplitBy(h.manifest.value, h.plugin.grants, p.granted, p.withheld)
            && Presented(g, r, h).0.waiting == g.waiting + [p] && Presented(g, r, h).0.ids == g.ids
            && Presented(g, r, h).0.sessions == g.sessions && Presented(g, r, h).0.live == g.live
  {
    hide Grants.Part, Grants.SplitBy, Agree, Fault;
    Grants.PartsAreSplit(h.manifest.value, h.plugin.grants);
  }

  lemma CommittedGives(g: Gate, place: nat, id: Option<string>, recorded: bool)
    requires Possible(g, Commit(place, id, recorded)) && Committed(g, place, id, recorded).1.Accepted?
    ensures var p, (after, answer) := g.waiting[place], Committed(g, place, id, recorded);
            var s := answer.session;
            && id == Some(s.id) && s.unit == p.request.unit && s.plugin == p.request.plugin && s.terms == p.terms
            && s.granted == p.granted && answer.withheld == p.withheld
            && (answer.restricted <==> answer.withheld != Grants.NOTHING)
            && s.id !in g.ids && s.unit !in g.live
            && after.sessions == g.sessions[s.id := s] && after.live == g.live[s.unit := s.id]
  {
  }

  /** One registration with none between. */
  lemma AcceptedIsGiven(g: Gate, r: Request, h: Host, id: Option<string>, recorded: bool)
    requires id.Some? ==> id.value != "" && id.value !in g.ids
    requires Decided(g, r, h, id, recorded).1.Accepted?
    ensures var (after, answer) := Decided(g, r, h, id, recorded);
            id == Some(answer.session.id) && GivenSession(r, h, g, after, answer)
  {
    hide Presented, Committed, Grants.SplitBy, Meets;
    var mid := Presented(g, r, h).0;
    StagesBeforeTheGrant(g, r, h, id, recorded);
    PassedIsSplit(g, r, h);
    CommittedGives(mid, |g.waiting|, id, recorded);
  }

  /** And every acceptance of every run, of the presentation it rests on. */
  lemma EveryAcceptanceIsGiven(g: Gate, steps: seq<Step>, j: nat) returns (i: nat)
    requires Fresh(g) && IsRun(g, steps) && j < |steps| && AnswerAt(g, steps, j).Accepted?
    ensures i < j && steps[i].Present?
    ensures IsRun(g, steps[..j]) && IsRun(g, steps[..j + 1])
    ensures GivenSession(steps[i].request, steps[i].host, Run(g, steps[..j]), Run(g, steps[..j + 1]),
                         AnswerAt(g, steps, j))
  {
    hide Possible, Presented, Committed, Grants.SplitBy;
    PrefixIsRun(g, steps, j);
    var before := Run(g, steps[..j]);
    AcceptedMeans(before, steps[j]);
    i := WaitingPassed(g, steps[..j], steps[j].place);
    PrefixAnswers(g, steps, j, i);
    PrefixIsRun(g, steps, i);
    PassedMeans(Run(g, steps[..i]), steps[i]);
    PassedIsSplit(Run(g, steps[..i]), steps[i].request, steps[i].host);
    CommittedGives(before, steps[j].place, steps[j].id, steps[j].recorded);
  }

  /** A release takes the unit and its Session out of the two maps, and nothing else. */
  lemma ReleaseTakesTheUnit(g: Gate, steps: seq<Step>, j: nat)
    requires Fresh(g) && IsRun(g, steps) && j < |steps| && steps[j].Release?
    ensures IsRun(g, steps[..j]) && IsRun(g, steps[..j + 1])
    ensures var before, after, unit := Run(g, steps[..j]), Run(g, steps[..j + 1]), steps[j].unit;
            && after == before.(live := after.live, sessions := after.sessions)
            && (forall u :: u in after.live <==> u in before.live && u != unit)
            && (forall u :: u in after.live ==> after.live[u] == before.live[u])
            && (forall id :: id in after.sessions <==> id in before.sessions && before.sessions[id].unit != unit)
            && (forall id :: id in after.sessions ==> after.sessions[id] == before.sessions[id])
  {
    PrefixIsRun(g, steps, j);
    MapsStayInverse(g, steps[..j]);
    hide Presented, Committed;
  }

  // ----- What a refusal says -----

  /** The token presented is the newest of its unit. */
  ghost predicate Newest(g: Gate, r: Request) {
    r.token != "" && r.unit in g.issued && g.issued[r.unit].value == r.token
  }

  /** The credential of a registration was issued for that very pair. */
  ghost predicate Paired(g: Gate, r: Request, h: Host) {
    h.composed.Some? && h.composed.value.plugin == r.plugin && Newest(g, r)
  }

  /** The code of a refusal is the one of what was at fault, and the credential was examined from authentication on. */
  ghost predicate NamesTheFault(g: Gate, r: Request, h: Host, answer: Answer)
    requires answer.Refused?
  {
    && (answer.code == Malformed <==> answer.stage == Structural)
    && (answer.code == UnknownPlugin <==> answer.stage == Identity && !h.plugin.Known?)
    && (answer.code == UnknownUnit <==> answer.stage == Identity && h.plugin.Known?)
    && (answer.code == Disabled <==> answer.stage == AdministrativeState)
    && (answer.code == Invalid <==> answer.stage == Authentication && !Paired(g, r, h))
    && (answer.code == Consumed <==> answer.stage == Authentication && Paired(g, r, h) && g.issued[r.unit].spent)
    && (answer.code == Expired <==> answer.stage == Authentication && Paired(g, r, h) && !g.issued[r.unit].spent)
    && (answer.code == Unsupported <==> answer.stage == Compatibility)
    && (answer.code == Divergent <==> answer.stage == DeclarationConsistency)
    && (answer.code == UnitLive <==> answer.stage == UnitConflict)
    && (answer.code == Unavailable <==> answer.stage == SessionPreparation)
    && (answer.examined <==> !g.waived && Rank(answer.stage) >= Rank(Authentication))
  }

  lemma EarlyCodes(g: Gate, r: Request, h: Host)
    requires Presented(g, r, h).1.Refused?
    ensures NamesTheFault(g, r, h, Presented(g, r, h).1)
  {
    hide Agree, PendingOf, Spent, Grants.Declared;
  }

  lemma LateCodes(g: Gate, r: Request, h: Host, place: nat, id: Option<string>, recorded: bool, before: Gate)
    requires place < |g.waiting| && Committed(g, place, id, recorded).1.Refused?
    requires g.waiting[place].examined == !before.waived
    ensures NamesTheFault(before, r, h, Committed(g, place, id, recorded).1)
  {
    hide Paired;
  }

  lemma EachCodeNamesTheFault(g: Gate, r: Request, h: Host, id: Option<string>, recorded: bool)
    requires Decided(g, r, h, id, recorded).1.Refused?
    ensures NamesTheFault(g, r, h, Decided(g, r, h, id, recorded).1)
  {
    hide Presented, Committed, NamesTheFault, Grants.SplitBy;
    if Presented(g, r, h).1.Passed? {
      PassedIsSplit(g, r, h);
      LateCodes(Presented(g, r, h).0, r, h, |g.waiting|, id, recorded, g);
    } else {
      EarlyCodes(g, r, h);
    }
  }

  // ----- What spends a token -----

  /** A presentation of the unit, refused by no stage up to authentication. */
  ghost predicate Pays(step: Step, answer: Answer, unit: string) {
    && step.Present? && step.request.unit == unit
    && (answer.Passed? || (answer.Refused? && answer.stage in {Compatibility, DeclarationConsistency}))
  }

  ghost predicate IssuesTo(step: Step, unit: string) { step.Issue? && step.unit == unit }

  /** Some step paid, and none issued anew since. */
  ghost predicate PaidSince(g: Gate, steps: seq<Step>, unit: string)
    requires IsRun(g, steps)
  {
    exists n: nat :: n < |steps| && Pays(steps[n], AnswerAt(g, steps, n), unit)
                     && forall k :: n < k < |steps| ==> !IssuesTo(steps[k], unit)
  }

  ghost predicate IssuedIn(steps: seq<Step>, unit: string) {
    exists k :: 0 <= k < |steps| && IssuesTo(steps[k], unit)
  }

  lemma TokenAfter(g: Gate, step: Step, unit: string)
    requires Possible(g, step) && !g.waived
    ensures var (after, answer) := Next(g, step);
            && (unit in after.issued <==> unit in g.issued || IssuesTo(step, unit))
            && (unit in after.issued ==>
                  (after.issued[unit].spent
                   <==> !IssuesTo(step, unit) && (g.issued[unit].spent || Pays(step, answer, unit))))
  {
    hide Agree, PendingOf;
  }

  lemma LastAnswer(g: Gate, steps: seq<Step>)
    requires IsRun(g, steps) && steps != []
    ensures var front := steps[..|steps| - 1];
            && IsRun(g, front) && Possible(Run(g, front), steps[|front|])
            && AnswerAt(g, steps, |front|) == Next(Run(g, front), steps[|front|]).1
  {
    assert steps[..|steps| - 1] == steps[..|steps[..|steps| - 1]|];
    hide Next, Possible;
  }

  /** Payment at one more step. */
  lemma PaidSinceBefore(g: Gate, steps: seq<Step>, unit: string)
    requires IsRun(g, steps) && steps != []
    ensures IsRun(g, steps[..|steps| - 1])
    ensures var last := |steps| - 1;
            PaidSince(g, steps, unit)
            <==> !IssuesTo(steps[last], unit)
                 && (PaidSince(g, steps[..last], unit) || Pays(steps[last], AnswerAt(g, steps, last), unit))
  {
    hide Next, Pays, Possible, IssuesTo, AnswerAt, Run;
    var last := |steps| - 1;
    var front := steps[..last];
    LastAnswer(g, steps);
    PaysIssuesNothing(steps[last], AnswerAt(g, steps, last), unit);
    if PaidSince(g, front, unit) && !IssuesTo(steps[last], unit) { PaidLater(g, steps, unit); }
    if PaidSince(g, steps, unit) { PaidEarlier(g, steps, unit); }
  }

  lemma PaidLater(g: Gate, steps: seq<Step>, unit: string)
    requires IsRun(g, steps) && steps != [] && IsRun(g, steps[..|steps| - 1])
    requires PaidSince(g, steps[..|steps| - 1], unit) && !IssuesTo(steps[|steps| - 1], unit)
    ensures PaidSince(g, steps, unit)
  {
    hide Next, Pays, Possible, IssuesTo, AnswerAt, Run, IsRun;
    var last := |steps| - 1;
    var front := steps[..last];
    var n: nat :| n < last && Pays(front[n], AnswerAt(g, front, n), unit)
                  && forall k :: n < k < last ==> !IssuesTo(front[k], unit);
    PrefixAnswers(g, steps, last, n);
    assert Pays(steps[n], AnswerAt(g, steps, n), unit);
  }

  lemma PaidEarlier(g: Gate, steps: seq<Step>, unit: string)
    requires IsRun(g, steps) && steps != [] && IsRun(g, steps[..|steps| - 1])
    requires PaidSince(g, steps, unit)
    ensures var last := |steps| - 1;
            || Pays(steps[last], AnswerAt(g, steps, last), unit)
            || (!IssuesTo(steps[last], unit) && PaidSince(g, steps[..last], unit))
  {
    hide Next, Pays, Possible, IssuesTo, AnswerAt, Run, IsRun;
    var last := |steps| - 1;
    var front := steps[..last];
    var n: nat :| n < |steps| && Pays(steps[n], AnswerAt(g, steps, n), unit)
                  && forall k :: n < k < |steps| ==> !IssuesTo(steps[k], unit);
    if n < last {
      PrefixAnswers(g, steps, last, n);
      assert Pays(front[n], AnswerAt(g, front, n), unit) && !IssuesTo(steps[last], unit);
      assert forall k :: n < k < last ==> front[k] == steps[k];
    }
  }

  lemma IssuedInBefore(steps: seq<Step>, unit: string)
    requires steps != []
    ensures IssuedIn(steps, unit) <==> IssuedIn(steps[..|steps| - 1], unit) || IssuesTo(steps[|steps| - 1], unit)
  {
    var front := steps[..|steps| - 1];
    if k :| 0 <= k < |front| && IssuesTo(front[k], unit) { assert IssuesTo(steps[k], unit); }
    if k :| 0 <= k < |steps| && IssuesTo(steps[k], unit) { assert k < |front| ==> IssuesTo(front[k], unit); }
  }

  lemma PaysIssuesNothing(step: Step, answer: Answer, unit: string)
    ensures Pays(step, answer, unit) ==> !IssuesTo(step, unit)
  {
  }

  /** A unit has a token once one was issued to it, and it is spent exactly when a presentation of the unit came
      past authentication since the last issue. */
  lemma {:induction false} SpentExactlyWhen(g: Gate, steps: seq<Step>, unit: string)
    requires Fresh(g) && !g.waived && IsRun(g, steps)
    ensures unit in Run(g, steps).issued <==> IssuedIn(steps, unit)
    ensures unit in Run(g, steps).issued ==> (Run(g, steps).issued[unit].spent <==> PaidSince(g, steps, unit))
  {
    if steps != [] {
      var front, last := steps[..|steps| - 1], steps[|steps| - 1];
      SpentExactlyWhen(g, front, unit);
      StaysUnwaived(g, front);
      LastAnswer(g, steps);
      TokenAfter(Run(g, front), last, unit);
      PaidSinceBefore(g, steps, unit);
      IssuedInBefore(steps, unit);
      hide Next, Pays, PaidSince, Possible, AnswerAt, IssuedIn, IssuesTo, Fresh;
    }
  }

  // ----- Comparing what is declared -----

  /** Two lists are the same set when they are equal once sorted: that is, as multisets. */
  method SameSet(a: seq<string>, b: seq<string>) returns (same: bool)
    ensures same <==> multiset(a) == multiset(b)
  {
    var x, y := Sorted(a), Sorted(b);
    if multiset(a) == multiset(b) { AscendingIsUnique(x, y); }
    same := x == y;
  }

  function Lists(s: Grants.Surface): seq<seq<string>> {
    [s.capabilities, s.streams, s.commands, s.queries, s.occurrences]
  }

  method Matches(got: Grants.Surface, want: Grants.Surface) returns (same: bool)
    ensures same <==> Agree(got, want)
  {
    var a, b := Lists(got), Lists(want);
    for i := 0 to |a|
      invariant forall k :: 0 <= k < i ==> multiset(a[k]) == multiset(b[k])
    {
      var equal := SameSet(a[i], b[i]);
      if !equal {
        return false;
      }
    }
    assert multiset(a[0]) == multiset(b[0]) && multiset(a[1]) == multiset(b[1]) && multiset(a[2]) == multiset(b[2]);
    assert multiset(a[3]) == multiset(b[3]) && multiset(a[4]) == multiset(b[4]);
    return true;
  }

  // ----- The tokens and the gate themselves -----

  class Bootstrap {
    const unit: string
    const value: string
    const at: int
    var spent: bool

    constructor (unit: string, value: string, at: int)
      ensures this.unit == unit && this.value == value && this.at == at && !spent
    {
      this.unit, this.value, this.at, spent := unit, value, at, false;
    }

    ghost function Value(): Token
      reads this
    {
      Token(value, at, spent)
    }
  }

  class Tokens {
    var issued: map<string, Bootstrap>
    ghost var cells: set<Bootstrap>
    ghost var view: map<string, Token>

    ghost predicate Valid()
      reads this, cells
    {
      && issued.Keys == view.Keys
      && (forall u :: u in issued ==> issued[u] in cells && issued[u].unit == u && view[u] == issued[u].Value())
    }

    constructor ()
      ensures Valid() && view == map[] && cells == {}
    {
      issued, cells, view := map[], {}, map[];
    }

    /** A new token replaces whatever the unit had been issued before. */
    method Issue(unit: string, value: string, now: int)
      requires Valid()
      modifies this
      ensures Valid() && fresh(cells - old(cells))
      ensures view == old(view)[unit := Token(value, now, false)]
    {
      var t := new Bootstrap(unit, value, now);
      issued := issued[unit := t];
      cells := cells + {t};
      view := view[unit := Token(value, now, false)];
    }

    /** Spends a token if it is good, and says why it is not otherwise. */
    method Spend(unit: string, value: string, now: int, window: int) returns (fault: Option<Code>)
      requires Valid()
      modifies this`view, cells
      ensures Valid() && cells == old(cells)
      ensures fault == Fault(old(view), unit, value, now, window)
      ensures view == if fault == None then old(view)[unit := old(view)[unit].(spent := true)] else old(view)
    {
      if unit !in issued || value == "" || issued[unit].value != value {
        return Some(Invalid);
      }
      var t := issued[unit];
      if t.spent {
        return Some(Consumed);
      }
      if now - t.at > window {
        return Some(Expired);
      }
      t.spent := true;
      view := view[unit := view[unit].(spent := true)];
      return None;
    }
  }

  class Admitter {
    const waived: bool
    const tokens: Tokens
    var live: map<string, string>
    var sessions: map<string, Session>
    ghost var view: Gate

    ghost predicate Valid()
      reads this, tokens, tokens.cells
    {
      && tokens.Valid() && Inverse(view)
      && view.waived == waived && view.issued == tokens.view && view.live == live && view.sessions == sessions
    }

    constructor (waived: bool, tokens: Tokens)
      requires tokens.Valid() && tokens.view == map[]
      ensures Valid() && Fresh(view) && this.waived == waived && this.tokens == tokens
    {
      this.waived, this.tokens, live, sessions := waived, tokens, map[], map[];
      view := Gate(waived, map[], map[], map[], [], {}, {});
    }

    method Issue(unit: string, value: string, now: int)
      requires Valid() && Possible(view, Step.Issue(unit, value, now))
      modifies this`view, tokens
      ensures Valid() && view == Next(old(view), Step.Issue(unit, value, now)).0
      ensures fresh(tokens.cells - old(tokens.cells))
    {
      tokens.Issue(unit, value, now);
      view := Next(view, Step.Issue(unit, value, now)).0;
    }

    /** A registration that passed waits for its Session. */
    ghost method Await(p: Pending)
      requires Valid()
      modifies this`view
      ensures Valid() && view == old(view).(waiting := old(view).waiting + [p])
    {
      view := view.(waiting := view.waiting + [p]);
    }

    /** The first seven stages; only the fourth takes a lock, the tokens' own. */
    method Present(r: Request, h: Host) returns (answer: Answer)
      requires Valid()
      modifies this`view, tokens`view, tokens.cells
      ensures Valid() && tokens.cells == old(tokens.cells)
      ensures (view, answer) == Presented(old(view), r, h)
    {
      var refusal := Name(r, h);
      if refusal == None {
        refusal := Prove(r, h);
        if refusal == None {
          answer := Weigh(r, h, !waived);
          if answer.Passed? { Await(answer.pending); }
          return;
        }
      }
      return refusal.value;
    }

    method Name(r: Request, h: Host) returns (refusal: Option<Answer>)
      ensures refusal == Untrusted(r, h)
    {
      if r.plugin == "" || r.unit == "" {
        return Some(Refused(Structural, Malformed, false));
      }
      if !h.plugin.Known? {
        return Some(Refused(Identity, UnknownPlugin, false));
      }
      if h.composed == None {
        return Some(Refused(Identity, UnknownUnit, false));
      }
      if !h.plugin.enabled {
        return Some(Refused(AdministrativeState, Disabled, false));
      }
      return None;
    }

    /** The stage of the credential: it must be the newest of its unit, in its window and unspent, and is spent
        here. */
    method Prove(r: Request, h: Host) returns (refusal: Option<Answer>)
      requires Valid() && Untrusted(r, h) == None
      modifies this`view, tokens`view, tokens.cells
      ensures Valid() && tokens.cells == old(tokens.cells)
      ensures refusal == Unproven(old(view), r, h)
      ensures view == if refusal == None then Spent(old(view), r.unit) else old(view)
    {
      if waived {
        return None;
      }
      if h.composed.value.plugin != r.plugin {
        return Some(Refused(Authentication, Invalid, true));
      }
      var fault := tokens.Spend(r.unit, r.token, h.now, h.window);
      match fault {
        case Some(code) => return Some(Refused(Authentication, code, true));
        case None =>
          view := Spent(view, r.unit);
          return None;
      }
    }

    /** What follows the credential: compatibility, consistency and the grant. */
    method Weigh(r: Request, h: Host, examined: bool) returns (answer: Answer)
      requires h.plugin.Known? && h.composed.Some?
      ensures match Incompatible(r, h, examined)
              case Some(refusal) => answer == refusal
              case None =>
                && h.manifest.Some?
                && var grants := set s | s in h.plugin.grants;
                   answer == Passed(Pending(r, Grants.Part(h.manifest.value, grants, true),
                                            Grants.Part(h.manifest.value, grants, false), h.composed.value.terms,
                                              examined))
      ensures answer.Passed? ==>
                && h.manifest.Some?
                && Grants.SplitBy(h.manifest.value, h.plugin.grants, answer.pending.granted, answer.pending.withheld)
    {
      hide Grants.SplitBy;
      if r.protocol !in PROTOCOLS {
        return Refused(Compatibility, Unsupported, examined);
      }
      if h.manifest == None {
        return Refused(DeclarationConsistency, Divergent, examined);
      }
      var m := h.manifest.value;
      var same := Matches(r.declared, Grants.Declared(m));
      if !same {
        return Refused(DeclarationConsistency, Divergent, examined);
      }
      var granted, withheld, scope := Grants.Intersect(m, h.plugin.grants);
      return Passed(Pending(r, granted, withheld, h.composed.value.terms, examined));
    }

    /** The last two stages, under the gate's lock: a commitment, made last. */
    method Commit(p: Pending, id: Option<string>, recorded: bool, ghost place: nat) returns (answer: Answer)
      requires Valid() && place < |view.waiting| && view.waiting[place] == p
      requires Possible(view, Step.Commit(place, id, recorded))
      modifies this
      ensures Valid() && tokens.view == old(tokens.view)
      ensures (view, answer) == Committed(old(view), place, id, recorded)
      ensures answer.Accepted? ==>
                var s := answer.session;
                && id == Some(s.id) && s.unit == p.request.unit && s.plugin == p.request.plugin
                && s.granted == p.granted && s.terms == p.terms && answer.withheld == p.withheld
                && live == old(live)[s.unit := s.id] && sessions == old(sessions)[s.id := s]
    {
      NextKeepsInverse(view, Step.Commit(place, id, recorded));
      ghost var after := Committed(view, place, id, recorded);
      if p.request.unit in live {
        answer := Refused(UnitConflict, UnitLive, p.examined);
      } else if id == None || !recorded {
        answer := Refused(SessionPreparation, Unavailable, p.examined);
      } else {
        var s := Session(id.value, p.request.unit, p.request.plugin, p.granted, p.terms);
        live := live[p.request.unit := id.value];
        sessions := sessions[id.value := s];
        answer := Accepted(s, p.withheld, p.withheld != Grants.NOTHING);
      }
      view := after.0;
    }

    /** Takes a unit that was live out of both maps. */
    method Release(unit: string)
      requires Valid()
      modifies this
      ensures Valid() && view == Next(old(view), Step.Release(unit)).0
      ensures unit !in live
    {
      NextKeepsInverse(view, Step.Release(unit));
      sessions := sessions - {Holder(live, unit)};
      live := live - {unit};
      view := Next(view, Step.Release(unit)).0;
    }

    method Lookup(id: string) returns (s: Option<Session>)
      requires Valid()
      ensures s.Some? <==> exists u :: u in live && live[u] == id
      ensures s.Some? ==> id in view.sessions && s.value == view.sessions[id]
      ensures s.Some? ==> s.value.id == id && s.value.unit in live && live[s.value.unit] == id
    {
      if id in sessions {
        return Some(sessions[id]);
      }
      return None;
    }
  }
}
