/** The clients attached to a channel, which of their pictures are current, and the count of those. An
    attachment flips in one step and tells its surface in a later one. */
module Attachments {
  import opened Prelude
  import Arbitration

  datatype Attachment = Attachment(client: string, stale: bool, finished: bool)

  /** A surface, its attachments by some key, and the changes to the count that are decided and not yet
      told: `rising` of them up, `falling` of them down. `holds` is what the arbiter was last told. */
  datatype Surface<K> = Surface(
    single: bool,
    clients: seq<string>,
    attachments: map<K, Attachment>,
    rising: nat,
    falling: nat,
    current: int,
    holds: bool
  )

  datatype Step<K> =
    | Begin(key: K, client: string)
    | Tick(key: K)
    | Confirm(key: K)
    | Finish(key: K)
    | Count(up: bool)

  ghost function Live<K>(s: Surface<K>): set<K> { set k | k in s.attachments && !s.attachments[k].stale }

  ghost function Unfinished<K>(s: Surface<K>): set<K> { set k | k in s.attachments && !s.attachments[k].finished }

  ghost function Without(clients: seq<string>, client: string): (r: seq<string>)
    ensures |r| <= |clients|
  {
    if clients == [] then []
    else if clients[0] == client then clients[1..]
    else [clients[0]] + Without(clients[1..], client)
  }

  /** One step; a step that is not enabled changes nothing. A tick is one that found the subscription past
      its tolerance. A confirmation may arrive after the attachment finished, as a control request can. */
  ghost function Next<K>(s: Surface<K>, step: Step<K>): Surface<K> {
    match step
    case Begin(k, client) =>
      if k in s.attachments || (s.single && |s.clients| > 0) then s
      else s.(clients := s.clients + [client], attachments := s.attachments[k := Attachment(client, false, false)],
              rising := s.rising + 1)
    case Tick(k) =>
      if k !in s.attachments || s.attachments[k].finished || s.attachments[k].stale then s
      else s.(attachments := s.attachments[k := s.attachments[k].(stale := true)], falling := s.falling + 1)
    case Confirm(k) =>
      if k !in s.attachments || !s.attachments[k].stale then s
      else s.(attachments := s.attachments[k := s.attachments[k].(stale := false)], rising := s.rising + 1)
    case Finish(k) =>
      if k !in s.attachments || s.attachments[k].finished then s
      else
        var a := s.attachments[k];
        s.(clients := Without(s.clients, a.client),
           attachments := s.attachments[k := a.(stale := true, finished := true)],
           falling := if a.stale then s.falling else s.falling + 1)
    case Count(up) =>
      if up && s.rising > 0 then s.(rising := s.rising - 1, current := s.current + 1, holds := s.current + 1 > 0)
      else if !up && s.falling > 0 then s.(falling := s.falling - 1, current := s.current - 1,
                                           holds := s.current - 1 > 0)
      else s
  }

  ghost function Run<K>(s: Surface<K>, steps: seq<Step<K>>): Surface<K> {
    if steps == [] then s else Next(Run(s, steps[..|steps| - 1]), steps[|steps| - 1])
  }

  ghost predicate Fresh<K>(s: Surface<K>) {
    s.attachments == map[] && s.clients == [] && s.rising == 0 && s.falling == 0 && s.current == 0 && !s.holds
  }

  /** What is counted and what is still to be told make up the attachments that are not stale; the arbiter's
      flag is the count's sign. */
  ghost predicate Conserved<K>(s: Surface<K>) {
    && s.current + s.rising - s.falling == |Live(s)|
    && (s.holds <==> s.current > 0)
  }

  lemma LiveAdds<K>(s: Surface<K>, k: K, a: Attachment)
    requires !a.stale && (k !in s.attachments || s.attachments[k].stale)
    ensures |Live(s.(attachments := s.attachments[k := a]))| == |Live(s)| + 1
  {
    assert Live(s.(attachments := s.attachments[k := a])) == Live(s) + {k};
  }

  lemma LiveDrops<K>(s: Surface<K>, k: K, a: Attachment)
    requires k in s.attachments && a.stale
    ensures |Live(s.(attachments := s.attachments[k := a]))|
            == if s.attachments[k].stale then |Live(s)| else |Live(s)| - 1
  {
    assert Live(s.(attachments := s.attachments[k := a])) == Live(s) - {k};
    if s.attachments[k].stale { assert Live(s) - {k} == Live(s); }
  }

  lemma NextConserves<K>(s: Surface<K>, step: Step<K>)
    requires Conserved(s)
    ensures Conserved(Next(s, step))
  {
    var t := Next(s, step);
    match step
    case Begin(k, client) =>
      if t != s { LiveAdds(s, k, t.attachments[k]); assert Live(t) == Live(s.(attachments := t.attachments)); }
    case Tick(k) =>
      if t != s { LiveDrops(s, k, t.attachments[k]); assert Live(t) == Live(s.(attachments := t.attachments)); }
    case Confirm(k) =>
      if t != s { LiveAdds(s, k, t.attachments[k]); assert Live(t) == Live(s.(attachments := t.attachments)); }
    case Finish(k) =>
      if t != s { LiveDrops(s, k, t.attachments[k]); assert Live(t) == Live(s.(attachments := t.attachments)); }
    case Count(up) =>
      assert Live(t) == Live(s);
  }

  /** In every interleaving of attachments, ticks, confirmations, ends and their countings. */
  lemma {:induction false} CountIsConserved<K>(s: Surface<K>, steps: seq<Step<K>>)
    requires Fresh(s)
    ensures Conserved(Run(s, steps))
  {
    if steps == [] {
      assert Live(s) == {};
    } else {
      CountIsConserved(s, steps[..|steps| - 1]);
      NextConserves(Run(s, steps[..|steps| - 1]), steps[|steps| - 1]);
    }
  }

  lemma {:induction false} Smaller<K>(a: set<K>, b: set<K>)
    requires a <= b
    ensures |a| <= |b|
    decreases a
  {
    if a != {} {
      var k :| k in a;
      Smaller(a - {k}, b - {k});
    }
  }

  /** No confirmation reaches an attachment after it finished, as on a projection whose calls and whose end
      are one thread's. */
  ghost predicate Timely<K>(s: Surface<K>, steps: seq<Step<K>>) {
    steps == [] ||
    (var before := Run(s, steps[..|steps| - 1]);
     var last := steps[|steps| - 1];
     && Timely(s, steps[..|steps| - 1])
     && (last.Confirm? && last.key in before.attachments ==> !before.attachments[last.key].finished))
  }

  ghost predicate EndedIsStale<K>(s: Surface<K>) {
    forall k :: k in s.attachments && s.attachments[k].finished ==> s.attachments[k].stale
  }

  /** Only an untimely confirmation leaves an ended attachment current, and nothing afterwards makes it stale
      again. */
  lemma {:induction false} TimelyLeavesNoneCurrent<K>(s: Surface<K>, steps: seq<Step<K>>)
    requires Fresh(s)
    ensures EndedIsStale(Run(s, steps)) <==> Timely(s, steps)
  {
    if steps != [] {
      TimelyLeavesNoneCurrent(s, steps[..|steps| - 1]);
      StepLeavesNoneCurrent(Run(s, steps[..|steps| - 1]), steps[|steps| - 1]);
    }
  }

  lemma StepLeavesNoneCurrent<K>(s: Surface<K>, step: Step<K>)
    ensures EndedIsStale(Next(s, step))
            <==> EndedIsStale(s) && (step.Confirm? && step.key in s.attachments ==> !s.attachments[step.key].finished)
  {
    var t := Next(s, step);
    if k :| k in s.attachments && s.attachments[k].finished && !s.attachments[k].stale {
      assert k in t.attachments && t.attachments[k] == s.attachments[k];
    } else if step.Confirm? && step.key in s.attachments && s.attachments[step.key].finished {
      assert t.attachments[step.key].finished && !t.attachments[step.key].stale;
    }
  }

  /** What is counted and what is still to be told make up the attachments that are unfinished and not stale,
      if and only if no confirmation reached an attachment after it finished. */
  lemma CountIsExactExactlyWhenTimely<K>(s: Surface<K>, steps: seq<Step<K>>)
    requires Fresh(s)
    ensures var t := Run(s, steps); t.current + t.rising - t.falling == |Live(t) * Unfinished(t)| <==> Timely(s, steps)
  {
    CountIsConserved(s, steps);
    TimelyLeavesNoneCurrent(s, steps);
    var t := Run(s, steps);
    var part := Live(t) * Unfinished(t);
    if EndedIsStale(t) {
      assert part == Live(t);
    } else {
      var k :| k in t.attachments && t.attachments[k].finished && !t.attachments[k].stale;
      assert k in Live(t) && part <= Live(t) - {k};
      Smaller(part, Live(t) - {k});
    }
  }

  /** Once everything decided was told, the count is never negative, the channel holds while some attachment
      is current, and the count is the number of unfinished attachments that are not stale if and only if
      every confirmation was timely. */
  lemma SettledCount<K>(s: Surface<K>, steps: seq<Step<K>>)
    requires Fresh(s)
    ensures var t := Run(s, steps);
            t.rising == t.falling ==>
              && t.current >= 0
              && (t.holds <==> Live(t) != {})
              && (t.current == |Live(t) * Unfinished(t)| <==> Timely(s, steps))
  {
    CountIsConserved(s, steps);
    CountIsExactExactlyWhenTimely(s, steps);
  }

  /** A confirmation after the end leaves the channel holding with nobody attached. */
  lemma LateConfirmationLeaks()
    ensures var s: Surface<nat> := Surface(false, [], map[], 0, 0, 0, false);
            var t := Run(s, [Begin(0, "a"), Count(true), Finish(0), Count(false), Confirm(0), Count(true)]);
            t.clients == [] && Unfinished(t) == {} && t.rising == t.falling == 0 && t.current == 1 && t.holds
  {
    var s: Surface<nat> := Surface(false, [], map[], 0, 0, 0, false);
    var steps := [Begin(0, "a"), Count(true), Finish(0), Count(false), Confirm(0), Count(true)];
    assert steps[..5][..4] == steps[..4] && steps[..4][..3] == steps[..3] && steps[..3][..2] == steps[..2];
    assert steps[..2][..1] == steps[..1] && steps[..1][..0] == [];
    assert Run(s, steps[..1]) == Next(s, steps[0]);
    assert Run(s, steps[..2]) == Next(Run(s, steps[..1]), steps[1]);
    assert Run(s, steps[..3]) == Next(Run(s, steps[..2]), steps[2]);
    assert Run(s, steps[..4]) == Next(Run(s, steps[..3]), steps[3]);
    assert Run(s, steps[..5]) == Next(Run(s, steps[..4]), steps[4]);
  }

  /** A single channel never has two clients. */
  lemma {:induction false} SingleHasOneClient<K>(s: Surface<K>, steps: seq<Step<K>>)
    requires Fresh(s) && s.single
    ensures Run(s, steps).single && |Run(s, steps).clients| <= 1
  {
    if steps != [] { SingleHasOneClient(s, steps[..|steps| - 1]); }
  }

  // ----- What each attachment is, by what happened to it -----

  ghost predicate Attaches<K>(s: Surface<K>, step: Step<K>, k: K) {
    step.Begin? && step.key == k && k !in s.attachments && !(s.single && s.clients != [])
  }

  /** The act puts the attachment down: past its tolerance, or at its end. */
  ghost predicate Downs<K>(s: Surface<K>, step: Step<K>, k: K) {
    (step == Tick(k) || step == Finish(k)) && k in s.attachments && !s.attachments[k].finished
  }

  lemma StepOnAttachment<K>(s: Surface<K>, step: Step<K>, k: K)
    ensures var t := Next(s, step);
            && (k in t.attachments <==> k in s.attachments || Attaches(s, step, k))
            && (k in t.attachments && k !in s.attachments ==> t.attachments[k] == Attachment(step.client, false, false))
            && (k in s.attachments ==>
                  && t.attachments[k].client == s.attachments[k].client
                  && t.attachments[k].finished == (s.attachments[k].finished || step == Finish(k))
                  && t.attachments[k].stale == (step != Confirm(k) && (s.attachments[k].stale || Downs(s, step, k))))
  {
  }

  ghost predicate DownSince<K>(s: Surface<K>, steps: seq<Step<K>>, k: K) {
    exists i :: 0 <= i < |steps| && Downs(Run(s, steps[..i]), steps[i], k)
                && forall j :: i < j < |steps| ==> steps[j] != Confirm(k)
  }

  ghost predicate BeganIn<K>(s: Surface<K>, steps: seq<Step<K>>, k: K) {
    exists i :: 0 <= i < |steps| && Attaches(Run(s, steps[..i]), steps[i], k)
  }

  ghost predicate EndedIn<K>(s: Surface<K>, steps: seq<Step<K>>, k: K) {
    exists i :: 0 <= i < |steps| && steps[i] == Finish(k) && k in Run(s, steps[..i]).attachments
  }

  lemma DownSinceBefore<K>(s: Surface<K>, steps: seq<Step<K>>, k: K)
    requires steps != []
    ensures var last := |steps| - 1;
            DownSince(s, steps, k)
            <==> steps[last] != Confirm(k)
                 && (DownSince(s, steps[..last], k) || Downs(Run(s, steps[..last]), steps[last], k))
  {
    var last := |steps| - 1;
    if DownSince(s, steps[..last], k) && steps[last] != Confirm(k) { DownLater(s, steps, k); }
    if Downs(Run(s, steps[..last]), steps[last], k) { NoConfirmationDowns(Run(s, steps[..last]), steps[last], k); }
    if DownSince(s, steps, k) { DownEarlier(s, steps, k); }
    hide Run, Downs;
  }

  lemma DownLater<K>(s: Surface<K>, steps: seq<Step<K>>, k: K)
    requires steps != [] && DownSince(s, steps[..|steps| - 1], k) && steps[|steps| - 1] != Confirm(k)
    ensures DownSince(s, steps, k)
  {
    hide Run, Downs;
    var last := |steps| - 1;
    var front := steps[..last];
    var i :| 0 <= i < last && Downs(Run(s, front[..i]), front[i], k)
             && forall j :: i < j < last ==> front[j] != Confirm(k);
    assert front[..i] == steps[..i] && front[i] == steps[i];
  }

  lemma DownEarlier<K>(s: Surface<K>, steps: seq<Step<K>>, k: K)
    requires steps != [] && DownSince(s, steps, k)
    ensures var last := |steps| - 1;
            || Downs(Run(s, steps[..last]), steps[last], k)
            || (steps[last] != Confirm(k) && DownSince(s, steps[..last], k))
  {
    hide Run, Downs;
    var last := |steps| - 1;
    var front := steps[..last];
    var i :| 0 <= i < |steps| && Downs(Run(s, steps[..i]), steps[i], k)
             && forall j :: i < j < |steps| ==> steps[j] != Confirm(k);
    if i < last { assert front[..i] == steps[..i] && front[i] == steps[i]; }
  }

  lemma NoConfirmationDowns<K>(s: Surface<K>, step: Step<K>, k: K)
    ensures Downs(s, step, k) ==> step != Confirm(k)
  {
  }

  lemma BeganInBefore<K>(s: Surface<K>, steps: seq<Step<K>>, k: K)
    requires steps != []
    ensures var last := |steps| - 1;
            BeganIn(s, steps, k) <==> BeganIn(s, steps[..last], k) || Attaches(Run(s, steps[..last]), steps[last], k)
    ensures var last := |steps| - 1;
            EndedIn(s, steps, k)
            <==> EndedIn(s, steps[..last], k)
                 || (steps[last] == Finish(k) && k in Run(s, steps[..last]).attachments)
  {
    hide Run, Attaches;
    var last := |steps| - 1;
    var front := steps[..last];
    assert forall i :: 0 <= i < last ==> front[..i] == steps[..i] && front[i] == steps[i];
    if i :| 0 <= i < last && Attaches(Run(s, front[..i]), front[i], k) {
      assert Attaches(Run(s, steps[..i]), steps[i], k);
    }
    if i :| 0 <= i < last && front[i] == Finish(k) && k in Run(s, front[..i]).attachments {
      assert steps[i] == Finish(k) && k in Run(s, steps[..i]).attachments;
    }
    if steps[last] == Finish(k) && k in Run(s, front).attachments { assert steps[..last] == front; }
  }

  /** In every run: an attachment is there once it began, which a single channel with a client refuses; it is finished
      once it ended; and it is stale exactly when it lapsed or ended, unfinished until then, and no confirmation came
      since. */
  lemma {:induction false} AttachmentsAreWhatHappened<K>(s: Surface<K>, steps: seq<Step<K>>, k: K)
    requires Fresh(s)
    ensures var t := Run(s, steps);
            && (k in t.attachments <==> BeganIn(s, steps, k))
            && (k in t.attachments ==>
                  && (t.attachments[k].finished <==> EndedIn(s, steps, k))
                  && (t.attachments[k].stale <==> DownSince(s, steps, k)))
            && (k !in t.attachments ==> !DownSince(s, steps, k) && !EndedIn(s, steps, k))
  {
    if steps != [] {
      var last := |steps| - 1;
      AttachmentsAreWhatHappened(s, steps[..last], k);
      StepOnAttachment(Run(s, steps[..last]), steps[last], k);
      DownSinceBefore(s, steps, k);
      BeganInBefore(s, steps, k);
      hide Next, DownSince, BeganIn, EndedIn;
    }
  }

  // ----- The clients of a channel -----

  lemma {:induction false} TakenAt(clients: seq<string>, client: string, i: nat)
    requires i < |clients| && clients[i] == client && client !in clients[..i]
    ensures Without(clients, client) == clients[..i] + clients[i + 1..]
  {
    if i == 0 {
      assert clients[..0] + clients[1..] == clients[1..];
    } else {
      var rest := clients[1..];
      assert clients[0] in clients[..i] && rest[..i - 1] == clients[..i][1..];
      TakenAt(rest, client, i - 1);
      assert clients[..i] == [clients[0]] + rest[..i - 1] && clients[i + 1..] == rest[i..];
    }
  }

  lemma {:induction false} NoneTaken(clients: seq<string>, client: string)
    requires client !in clients
    ensures Without(clients, client) == clients
  {
    if clients != [] { NoneTaken(clients[1..], client); }
  }

  lemma {:induction false} FirstOf(clients: seq<string>, client: string) returns (i: nat)
    requires client in clients
    ensures i < |clients| && clients[i] == client && client !in clients[..i]
  {
    if clients[0] == client {
      i := 0;
    } else {
      i := FirstOf(clients[1..], client);
      i := i + 1;
      assert clients[..i] == [clients[0]] + clients[1..][..i - 1];
    }
  }

  lemma OneLess(clients: seq<string>, i: nat)
    requires i < |clients|
    ensures multiset(clients[..i] + clients[i + 1..]) == multiset(clients) - multiset{clients[i]}
  {
    assert clients == clients[..i] + [clients[i]] + clients[i + 1..];
  }

  /** One occurrence goes, the first. */
  lemma TheFirstGoes(clients: seq<string>, client: string)
    ensures client !in clients ==> Without(clients, client) == clients
    ensures client in clients ==>
              exists i :: 0 <= i < |clients| && clients[i] == client && client !in clients[..i]
                          && Without(clients, client) == clients[..i] + clients[i + 1..]
    ensures multiset(Without(clients, client)) == multiset(clients) - multiset{client}
  {
    if client in clients {
      var i := FirstOf(clients, client);
      TakenAt(clients, client, i);
      OneLess(clients, i);
    } else {
      NoneTaken(clients, client);
    }
    hide Without;
  }

  ghost function AttachedBy<K>(s: Surface<K>, client: string): set<K> {
    set k | k in s.attachments && !s.attachments[k].finished && s.attachments[k].client == client
  }

  lemma ClientsBegin<K>(s: Surface<K>, k: K, who: string, client: string)
    requires k !in s.attachments && !(s.single && s.clients != [])
    ensures var t := Next(s, Begin(k, who));
            && multiset(t.clients)[client] == multiset(s.clients)[client] + (if who == client then 1 else 0)
            && |AttachedBy(t, client)| == |AttachedBy(s, client)| + (if who == client then 1 else 0)
  {
    var t := Next(s, Begin(k, who));
    assert AttachedBy(t, client) == if who == client then AttachedBy(s, client) + {k} else AttachedBy(s, client);
  }

  lemma AttachedEnds<K>(s: Surface<K>, k: K, a: Attachment, client: string)
    requires k in s.attachments && a.finished && a.client == s.attachments[k].client
    ensures |AttachedBy(s.(attachments := s.attachments[k := a]), client)|
            == |AttachedBy(s, client)| - (if k in AttachedBy(s, client) then 1 else 0)
  {
    assert AttachedBy(s.(attachments := s.attachments[k := a]), client) == AttachedBy(s, client) - {k};
  }

  lemma SameAttached<K>(s: Surface<K>, t: Surface<K>, client: string)
    requires s.attachments.Keys == t.attachments.Keys
    requires forall k :: k in s.attachments ==>
               s.attachments[k].finished == t.attachments[k].finished
                 && s.attachments[k].client == t.attachments[k].client
    ensures AttachedBy(s, client) == AttachedBy(t, client)
  {
  }

  lemma ClientsStep<K>(s: Surface<K>, step: Step<K>, client: string)
    requires multiset(s.clients)[client] == |AttachedBy(s, client)|
    ensures multiset(Next(s, step).clients)[client] == |AttachedBy(Next(s, step), client)|
  {
    hide AttachedBy, Without;
    var t := Next(s, step);
    match step
    case Begin(k, who) => if t != s { ClientsBegin(s, k, who, client); }
    case Finish(k) => if t != s { ClientsFinish(s, k, client); }
    case _ => SameAttached(s, t, client);
  }

  lemma ClientsFinish<K>(s: Surface<K>, k: K, client: string)
    requires multiset(s.clients)[client] == |AttachedBy(s, client)|
    requires k in s.attachments && !s.attachments[k].finished
    ensures multiset(Next(s, Finish(k)).clients)[client] == |AttachedBy(Next(s, Finish(k)), client)|
  {
    var t := Next(s, Finish(k));
    TheFirstGoes(s.clients, s.attachments[k].client);
    AttachedEnds(s, k, t.attachments[k], client);
    SameAttached(t, s.(attachments := t.attachments), client);
    hide Without;
  }

  /** A channel's clients are those of its attachments that did not end, each as often as it is attached. */
  lemma {:induction false} ClientsAreTheAttached<K>(s: Surface<K>, steps: seq<Step<K>>, client: string)
    requires Fresh(s)
    ensures multiset(Run(s, steps).clients)[client] == |AttachedBy(Run(s, steps), client)|
  {
    if steps == [] {
      assert AttachedBy(s, client) == {};
    } else {
      ClientsAreTheAttached(s, steps[..|steps| - 1], client);
      ClientsStep(Run(s, steps[..|steps| - 1]), steps[|steps| - 1], client);
    }
  }

  /** A decision and its counting, where nothing else is to be told. */
  lemma Told<K>(s: Surface<K>, step: Step<K>, up: bool) returns (t: Surface<K>)
    requires Conserved(s) && s.rising == s.falling == 0
    requires Next(s, step).rising == (if up then 1 else 0) && Next(s, step).falling == (if up then 0 else 1)
    ensures t == Next(Next(s, step), Count(up)) && Conserved(t)
    ensures t == Next(s, step).(rising := 0, falling := 0, current := t.current, holds := t.current > 0)
    ensures t.current == if up then s.current + 1 else s.current - 1
  {
    NextConserves(s, step);
    NextConserves(Next(s, step), Count(up));
    t := Next(Next(s, step), Count(up));
  }

  /** The end of a stale attachment, which is not counted. */
  lemma Departed<K>(s: Surface<K>, k: K) returns (t: Surface<K>)
    requires Conserved(s) && s.rising == s.falling == 0
    requires k in s.attachments && s.attachments[k].stale && !s.attachments[k].finished
    ensures t == Next(s, Finish(k)) && Conserved(t)
    ensures t == s.(clients := Without(s.clients, s.attachments[k].client),
                    attachments := s.attachments[k := s.attachments[k].(finished := true)])
  {
    NextConserves(s, Finish(k));
    t := Next(s, Finish(k));
  }

  // ----- The surface and its attachments themselves -----

  class Attached {
    const client: string
    var last: int
    var stale: bool
    ghost var finished: bool

    constructor (client: string, now: int)
      ensures this.client == client && last == now && !stale && !finished
    {
      this.client, last, stale, finished := client, now, false, false;
    }

    /** Past the time allowed with no confirmation the attachment is stale. */
    method Lapse(now: int, allowed: int) returns (due: bool)
      modifies this`stale
      ensures due <==> !old(stale) && now - last > allowed
      ensures stale == (old(stale) || due)
    {
      due := !stale && now - last > allowed;
      if due {
        stale := true;
      }
    }

    method Renew(now: int) returns (wasStale: bool)
      modifies this`last, this`stale
      ensures wasStale == old(stale) && last == now && !stale
    {
      wasStale := stale;
      last, stale := now, false;
    }

    method End() returns (wasCurrent: bool)
      modifies this`stale, this`finished
      ensures wasCurrent == !old(stale) && stale && finished
    {
      wasCurrent := !stale;
      stale, finished := true, true;
    }

    ghost function Value(): Attachment
      reads this
    {
      Attachment(client, stale, finished)
    }
  }

  class Terminator {
    const name: string
    const single: bool
    const every: int
    const tolerance: int
    const arbiter: Arbitration.Arbiter
    var clients: seq<string>
    var current: int
    ghost var view: Surface<Attached>

    ghost predicate Valid()
      reads this, arbiter, arbiter.cells, view.attachments.Keys
    {
      && arbiter.Valid()
      && view.single == single && view.clients == clients && view.current == current && view.rising == view.falling == 0
      && Conserved(view)
      && (name in arbiter.view.grades ==> (name in arbiter.view.holding <==> view.holds))
      && forall a :: a in view.attachments ==> view.attachments[a] == a.Value()
    }

    constructor (name: string, single: bool, every: int, tolerance: int, arbiter: Arbitration.Arbiter)
      requires arbiter.Valid() && name !in arbiter.view.holding
      ensures Valid() && Fresh(view) && this.arbiter == arbiter
    {
      this.name, this.single, this.every, this.tolerance, this.arbiter := name, single, every, tolerance, arbiter;
      clients, current := [], 0;
      view := Surface(single, [], map[], 0, 0, 0, false);
      new;
      assert Live(view) == {};
    }

    /** Moves the count by one attachment, and passes its sign on to the arbiter. */
    method Hold(delta: int, ghost counted: Surface<Attached>)
      requires arbiter.Valid() && Conserved(counted) && counted.rising == counted.falling == 0
      requires counted.single == single && counted.clients == clients && counted.current == current + delta
      requires forall a :: a in counted.attachments ==> counted.attachments[a] == a.Value()
      modifies this`current, this`view, arbiter`published, arbiter`view, arbiter.cells
      ensures Valid() && view == counted && current == old(current) + delta
      ensures arbiter.view.grades == old(arbiter.view.grades)
      ensures arbiter.view.holding - {name} == old(arbiter.view.holding) - {name}
    {
      current := current + delta;
      Tell(current > 0);
      view := counted;
    }

    method Tell(holds: bool)
      requires arbiter.Valid()
      modifies arbiter`published, arbiter`view, arbiter.cells
      ensures arbiter.Valid()
      ensures arbiter.view.grades == old(arbiter.view.grades)
      ensures arbiter.view.holding - {name} == old(arbiter.view.holding) - {name}
      ensures name in arbiter.view.grades ==> (name in arbiter.view.holding <==> holds)
    {
      arbiter.Hold(name, holds);
    }

    /** Attaches a client, or refuses where the channel takes one and has it. */
    method Begin(client: string, now: int) returns (a: Option<Attached>)
      requires Valid()
      modifies this, arbiter`published, arbiter`view, arbiter.cells
      ensures Valid()
      ensures a == None <==> single && old(clients) != []
      ensures a == None ==> view == old(view)
      ensures a.Some? ==> fresh(a.value) && view == Next(Next(old(view), Step.Begin(a.value, client)), Count(true))
    {
      if single && |clients| > 0 { return None; }
      clients := clients + [client];
      var attached := new Attached(client, now);
      ghost var counted := Told(view, Step.Begin(attached, client), true);
      Hold(1, counted);
      return Some(attached);
    }

    /** One tick: an attachment nobody confirmed for as many intervals as are tolerated goes stale and is
        counted down. */
    method Tick(a: Attached, now: int) returns (due: bool)
      requires Valid() && a in view.attachments && !a.finished
      modifies this, a, arbiter`published, arbiter`view, arbiter.cells
      ensures Valid()
      ensures due <==> !old(a.stale) && now - old(a.last) > every * tolerance
      ensures view == if due then Next(Next(old(view), Step.Tick(a)), Count(false)) else old(view)
    {
      due := a.Lapse(now, every * tolerance);
      if due {
        ghost var counted := Told(view, Step.Tick(a), false);
        Hold(-1, counted);
      }
    }

    method Confirm(a: Attached, now: int)
      requires Valid() && a in view.attachments
      modifies this, a, arbiter`published, arbiter`view, arbiter.cells
      ensures Valid()
      ensures view == if old(a.stale) then Next(Next(old(view), Step.Confirm(a)), Count(true)) else old(view)
    {
      var wasStale := a.Renew(now);
      if wasStale {
        ghost var counted := Told(view, Step.Confirm(a), true);
        Hold(1, counted);
      }
    }

    /** Ends an attachment: its place in the channel, and then arbitration. */
    method Finish(a: Attached)
      requires Valid() && a in view.attachments && !a.finished
      modifies this, a, arbiter`published, arbiter`view, arbiter.cells
      ensures Valid()
      ensures view == if old(a.stale) then Next(old(view), Step.Finish(a))
              else Next(Next(old(view), Step.Finish(a)), Count(false))
    {
      hide Arbitration.Arbiter.Valid, Conserved;
      Detach(a.client);
      var wasCurrent := a.End();
      if wasCurrent {
        ghost var counted := Told(view, Step.Finish(a), false);
        Hold(-1, counted);
      } else {
        ghost var uncounted := Departed(view, a);
        Adopt(uncounted);
      }
    }

    ghost method Adopt(t: Surface<Attached>)
      requires arbiter.Valid() && Conserved(t) && t.rising == t.falling == 0
      requires t.single == single && t.clients == clients && t.current == current
      requires name in arbiter.view.grades ==> (name in arbiter.view.holding <==> t.holds)
      requires forall a :: a in t.attachments ==> t.attachments[a] == a.Value()
      modifies this`view
      ensures Valid() && view == t
    {
      view := t;
    }

    method Detach(client: string)
      modifies this`clients
      ensures clients == Without(old(clients), client)
    {
      for i := 0 to |clients|
        invariant clients == old(clients)
        invariant Without(clients, client) == clients[..i] + Without(clients[i..], client)
      {
        assert clients[i..][1..] == clients[i + 1..];
        if clients[i] == client {
          clients := clients[..i] + clients[i + 1..];
          return;
        }
        assert clients[..i + 1] == clients[..i] + [clients[i]];
      }
    }
  }
}
