/** What the guardian derives about the instances it acts on, as one value, and what every event does to it.
    Records are edited by outsiders at any time; a pending timer may fire at any time, in any order; a Core
    ends at any time. */
module GuardianModel {
  import opened Prelude
  import Backoff

  datatype State = Unset | Starting | Observable | Stopping | Waiting | Refused | Running

  datatype Policy = Policy(
    interval: int, tolerance: nat, startup: int, stop: int, backoff: int, ceiling: int, stability: int
  ) {
    /** How long a silence is tolerated. */
    function Silence(): int { interval * (tolerance + 1) }
  }

  const SECOND := 1_000_000_000
  const DEFAULTS := Policy(10 * SECOND, 3, 30 * SECOND, 10 * SECOND, 5 * SECOND, 300 * SECOND, 60 * SECOND)

  /** A watch. `cmd` says it has a process; `pid` may also be a foreign holder's. `killed` says its Core was
      killed in this execution, and `asked` that this guardian asked it to stop. */
  datatype Standing = Standing(
    state: State,
    attempt: nat,
    wait: int,
    cmd: bool,
    pid: nat,
    gen: nat,
    run: nat,
    policy: Policy,
    ephemeral: bool,
    beats: nat,
    silent: bool,
    killed: bool,
    asked: bool
  )

  const UNWATCHED := Standing(Unset, 0, 0, false, 0, 0, 0, DEFAULTS, false, 0, false, false, false)

  datatype Record = Record(running: bool, failed: bool, autostart: bool, ephemeral: bool)

  datatype Alarm = NoBeat | Retry | Stable | Kill | Silence(beats: nat)

  /** A pending timer: what it is about, whose it is, and how long it was set for. */
  datatype Timer = Timer(alarm: Alarm, name: string, run: nat, after: int)

  /** What the outside answers while one name is reconciled: the process holding its lock, or zero; the
      gate's policy, or a refusal; the process started, or zero. */
  datatype Answers = Answers(holder: nat, gate: Option<Policy>, started: nat)

  /** `cores` are the Cores executed whose end the guardian has not handled. */
  datatype Model = Model(
    watched: map<string, Standing>,
    runs: nat,
    records: map<string, Record>,
    timers: multiset<Timer>,
    cores: set<(string, nat)>
  )

  ghost function Put(g: Model, name: string, w: Standing): Model { g.(watched := g.watched[name := w]) }

  ghost function Dropped(g: Model, name: string): Model { g.(watched := g.watched - {name}) }

  ghost function Armed(g: Model, t: Timer): Model { g.(timers := g.timers + multiset{t}) }

  ghost function Stopped(g: Model, name: string): Model
    requires name in g.watched
  {
    var w := g.watched[name];
    Armed(Put(g, name, w.(state := Stopping, asked := true)), Timer(Kill, name, w.run, w.policy.stop))
  }

  ghost function Heard(g: Model, name: string): Model
    requires name in g.watched
  {
    var w := g.watched[name];
    Armed(Put(g, name, w.(beats := w.beats + 1)), Timer(Silence(w.beats + 1), name, w.run, w.policy.Silence()))
  }

  ghost function Failed(g: Model, name: string): Model
    requires name in g.watched
  {
    var w := g.watched[name];
    if w.ephemeral then
      Dropped(if name in g.records then g.(records := g.records[name := g.records[name].(failed := true)]) else g, name)
    else
      var wait := Backoff.WaitFor(w.policy.backoff, w.policy.ceiling, w.attempt + 1);
      Armed(Put(g, name, w.(attempt := w.attempt + 1, wait := wait, state := Waiting)), Timer(Retry, name, w.run, wait))
  }

  /** The next execution, numbered and not yet a process. */
  ghost function Numbered(g: Model, name: string, rec: Record, policy: Policy): Model
    requires name in g.watched
  {
    var w := g.watched[name];
    var run := g.runs + 1;
    Put(g, name, w.(ephemeral := rec.ephemeral, policy := policy, gen := w.gen + 1, run := run, beats := 0,
                    killed := false, asked := false))
      .(runs := run)
  }

  ghost function Executed(g: Model, name: string, pid: nat): Model
    requires name in g.watched
  {
    var w := g.watched[name];
    Armed(Put(g, name, w.(cmd := true, pid := pid, state := Starting)).(cores := g.cores + {(name, w.run)}),
          Timer(NoBeat, name, w.run, w.policy.startup))
  }

  ghost function Started(g: Model, name: string, rec: Record, ans: Answers): Model
    requires name in g.watched
  {
    if ans.gate.None? then Put(g, name, g.watched[name].(ephemeral := rec.ephemeral, state := Refused, pid := 0))
    else
      var h := Numbered(g, name, rec, ans.gate.value);
      if ans.started == 0 then Failed(h, name) else Executed(h, name, ans.started)
  }

  ghost function Watching(g: Model, name: string): Model {
    if name in g.watched then g else Put(g, name, UNWATCHED)
  }

  ghost function Reconciled(g: Model, name: string, explicit: bool, boot: bool, ans: Answers): Model {
    var ours := name in g.watched && g.watched[name].cmd;
    if name !in g.records then
      if ours && g.watched[name].state != Stopping then Stopped(g, name)
      else if name in g.watched && !ours then Dropped(g, name)
      else g
    else
      var rec := g.records[name];
      var want := rec.running && !rec.failed && (boot ==> rec.autostart && !rec.ephemeral);
      if ours then
        if !want && g.watched[name].state != Stopping then Stopped(g, name) else g
      else if ans.holder != 0 then
        var h := Watching(g, name);
        Put(h, name, h.watched[name].(state := Running, pid := ans.holder))
      else if want then
        if name in g.watched && ((g.watched[name].state == Refused && !explicit) || g.watched[name].state == Waiting)
        then g
        else Started(Watching(g, name), name, rec, ans)
      else Dropped(g, name)
  }

  /** A map's names as a loop over it may come by them: each once, in any order. */
  ghost predicate IsWalk(order: seq<string>, names: set<string>) {
    && (forall n :: n in order <==> n in names)
    && (forall i, j :: 0 <= i < j < |order| ==> order[i] != order[j])
  }

  ghost function ReconciledAll(g: Model, order: seq<string>, explicit: bool, boot: bool,
                               ans: string -> Answers): Model {
    if order == [] then g
    else
      var n := order[|order| - 1];
      Reconciled(ReconciledAll(g, order[..|order| - 1], explicit, boot, ans), n, explicit, boot, ans(n))
  }

  ghost function Ended(g: Model, name: string, ans: Answers): Model
    requires name in g.watched
  {
    var w := g.watched[name];
    var h := Put(g, name, w.(cmd := false, pid := 0)).(cores := g.cores - {(name, w.run)});
    if w.state == Stopping && !w.silent then
      Reconciled(Dropped(if w.ephemeral then h.(records := h.records - {name}) else h, name), name, false, false, ans)
    else Failed(h, name)
  }

  ghost function Beaten(g: Model, name: string, pid: nat, stopping: bool): Model {
    if name !in g.watched || g.watched[name].pid == 0 || g.watched[name].pid != pid then g
    else
      var w := g.watched[name];
      if stopping && (w.state == Starting || w.state == Observable)
          then Put(g, name, w.(state := Stopping, silent := false))
      else if w.state == Starting then
        Heard(Armed(Put(g, name, w.(state := Observable, silent := false)),
                    Timer(Stable, name, w.run, w.policy.stability)), name)
      else if w.state == Observable then Heard(g, name)
      else g
  }

  /** A timer that fired, once it is no longer pending. */
  ghost function Fired(g: Model, t: Timer, ans: Answers): Model {
    if t.name !in g.watched || g.watched[t.name].run != t.run then g
    else
      var w := g.watched[t.name];
      match t.alarm
      case NoBeat => if w.state == Starting then Put(g, t.name, w.(killed := true)) else g
      case Retry =>
        if w.state == Waiting then Reconciled(Put(g, t.name, w.(state := Unset)), t.name, false, false, ans) else g
      case Stable => if w.state == Observable then Put(g, t.name, w.(attempt := 0)) else g
      case Kill => if w.state == Stopping && w.cmd then Put(g, t.name, w.(killed := true)) else g
      case Silence(beats) =>
        if w.state == Observable && w.beats == beats then Stopped(Put(g, t.name, w.(silent := true)), t.name) else g
  }

  /** What may happen next: somebody wakes the guardian about one record or about every one, in whatever
      order; a Core ends; a beat arrives from some process; a pending timer fires; an outsider edits or
      removes a record. */
  datatype Event =
    | Wake(name: string, explicit: bool, answers: Answers)
    | WakeAll(order: seq<string>, explicit: bool, boot: bool, answersOf: string -> Answers)
    | Exited(name: string, run: nat, answers: Answers)
    | Beat(name: string, pid: nat, stopping: bool)
    | Fire(timer: Timer, answers: Answers)
    | Edit(name: string, record: Option<Record>)

  ghost predicate Possible(g: Model, e: Event) {
    (e.Exited? ==> (e.name, e.run) in g.cores) && (e.Fire? ==> e.timer in g.timers)
  }

  ghost function Next(g: Model, e: Event): Model
    requires Possible(g, e)
  {
    match e
    case Wake(name, explicit, ans) => Reconciled(g, name, explicit, false, ans)
    case WakeAll(order, explicit, boot, ans) => ReconciledAll(g, order, explicit, boot, ans)
    case Exited(name, run, ans) => if name in g.watched && g.watched[name].run == run then Ended(g, name, ans) else g
    case Beat(name, pid, stopping) => Beaten(g, name, pid, stopping)
    case Fire(t, ans) => Fired(g.(timers := g.timers - multiset{t}), t, ans)
    case Edit(name, None) => g.(records := g.records - {name})
    case Edit(name, Some(r)) => g.(records := g.records[name := r])
  }

  /** Nothing is left to watch. */
  ghost predicate Idle(g: Model) {
    forall n :: n in g.watched ==> g.watched[n].state !in {Starting, Observable, Stopping, Waiting}
  }
}
