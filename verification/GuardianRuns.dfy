/** What every run of the guardian keeps, over any interleaving of wakes, beats, timers, exits and edits. */
module GuardianRuns {
  import opened Prelude
  import opened GuardianModel
  import Backoff

  // ----- The invariant, one name at a time -----

  /** What holds of a watch: it has a process exactly while it is starting, observable or stopping, and
      something is pending that will move it on, set for its own execution, its own beat count and its own
      window. */
  ghost predicate Sound(g: Model, n: string, w: Standing) {
    && w.state != Unset
    && (w.cmd <==> w.state in {Starting, Observable, Stopping})
    && w.run <= g.runs
    && (w.cmd ==> (n, w.run) in g.cores)
    && (w.cmd || w.state == Waiting ==> w.run >= 1)
    && (w.state == Starting || w.state == Observable ==> !w.asked)
    && (w.state == Starting ==> w.killed || Timer(NoBeat, n, w.run, w.policy.startup) in g.timers)
    && (w.state == Observable ==> Timer(Silence(w.beats), n, w.run, w.policy.Silence()) in g.timers)
    && (w.state == Stopping && w.asked ==> w.killed || Timer(Kill, n, w.run, w.policy.stop) in g.timers)
    && (w.state == Waiting ==>
          && w.attempt >= 1
          && w.wait == Backoff.WaitFor(w.policy.backoff, w.policy.ceiling, w.attempt)
          && Timer(Retry, n, w.run, w.wait) in g.timers)
  }

  /** An unended Core is the process of its name's watch, in the same execution. */
  ghost predicate CoresHere(g: Model, n: string) {
    forall c :: c in g.cores && c.0 == n ==> n in g.watched && g.watched[n].cmd && g.watched[n].run == c.1
  }

  /** What is pending for a live execution: its stability and its silences only once it was observable. */
  ghost predicate TimersHere(g: Model, n: string) {
    forall t :: t in g.timers && t.name == n && n in g.watched && g.watched[n].run == t.run && g.watched[n].cmd ==>
      && (t.alarm.Stable? || t.alarm.Silence? ==> g.watched[n].state != Starting)
      && (t.alarm.Silence? ==> t.alarm.beats <= g.watched[n].beats)
  }

  ghost predicate Here(g: Model, n: string) {
    && (n in g.watched ==> Sound(g, n, g.watched[n]))
    && CoresHere(g, n)
    && TimersHere(g, n)
  }

  ghost predicate TimersNumbered(g: Model) {
    forall t :: t in g.timers ==> 1 <= t.run <= g.runs
  }

  ghost predicate Inv(g: Model) {
    TimersNumbered(g) && forall n :: Here(g, n)
  }

  ghost predicate Others(g: Model, name: string) {
    TimersNumbered(g) && forall n :: n != name ==> Here(g, n)
  }

  /** Nothing but `name` differs, and executions are only added. */
  ghost predicate Only(g: Model, h: Model, name: string) {
    && g.runs <= h.runs
    && (forall n :: n != name ==>
          (n in g.watched <==> n in h.watched) && (n in g.watched ==> g.watched[n] == h.watched[n]))
    && (forall t: Timer :: t.name != name ==> (t in g.timers <==> t in h.timers))
    && (forall c: (string, nat) :: c.0 != name ==> (c in g.cores <==> c in h.cores))
  }

  lemma OnlyKeepsOthers(g: Model, h: Model, name: string)
    requires Only(g, h, name) && Others(g, name) && TimersNumbered(h)
    ensures Others(h, name)
  {
    forall n | n != name
      ensures Here(h, n)
    {
      assert Here(g, n);
    }
  }

  /** A name before it is reconciled: as it was, or its watch without a process and about to be decided. */
  ghost predicate Loose(g: Model, n: string) {
    && CoresHere(g, n) && TimersHere(g, n)
    && (n in g.watched ==>
          Sound(g, n, g.watched[n]) || (!g.watched[n].cmd && g.watched[n].run <= g.runs && g.watched[n].state == Unset))
  }

  lemma StoppedHere(g: Model, name: string)
    requires Others(g, name) && CoresHere(g, name) && TimersHere(g, name)
    requires name in g.watched && g.watched[name].cmd && 1 <= g.watched[name].run <= g.runs
             && (name, g.watched[name].run) in g.cores
    ensures Only(g, Stopped(g, name), name)
    ensures TimersNumbered(Stopped(g, name)) && Here(Stopped(g, name), name)
  {
  }

  lemma FailedHere(g: Model, name: string)
    requires Others(g, name) && name in g.watched && !g.watched[name].cmd && 1 <= g.watched[name].run <= g.runs
    requires CoresHere(g, name)
    ensures Only(g, Failed(g, name), name)
    ensures TimersNumbered(Failed(g, name)) && Here(Failed(g, name), name)
  {
  }

  lemma NumberedHere(g: Model, name: string, rec: Record, policy: Policy)
    requires Others(g, name) && name in g.watched && !g.watched[name].cmd
    requires CoresHere(g, name)
    ensures var h := Numbered(g, name, rec, policy);
            Only(g, h, name) && Others(h, name) && CoresHere(h, name) && !h.watched[name].asked
            && forall t :: t in h.timers ==> t.run < h.watched[name].run
  {
    OnlyKeepsOthers(g, Numbered(g, name, rec, policy), name);
  }

  lemma ExecutedHere(g: Model, name: string, pid: nat)
    requires Others(g, name) && name in g.watched && !g.watched[name].cmd && 1 <= g.watched[name].run <= g.runs
    requires CoresHere(g, name) && !g.watched[name].asked && forall t :: t in g.timers ==> t.run < g.watched[name].run
    ensures Only(g, Executed(g, name, pid), name)
    ensures TimersNumbered(Executed(g, name, pid)) && Here(Executed(g, name, pid), name)
  {
  }

  lemma StartedHere(g: Model, name: string, rec: Record, ans: Answers)
    requires Others(g, name) && name in g.watched && !g.watched[name].cmd && g.watched[name].run <= g.runs
    requires CoresHere(g, name)
    ensures Only(g, Started(g, name, rec, ans), name)
    ensures TimersNumbered(Started(g, name, rec, ans)) && Here(Started(g, name, rec, ans), name)
  {
    if ans.gate.Some? {
      NumberedHere(g, name, rec, ans.gate.value);
      var h := Numbered(g, name, rec, ans.gate.value);
      if ans.started == 0 { FailedHere(h, name); } else { ExecutedHere(h, name, ans.started); }
    }
  }

  lemma WatchingHere(g: Model, name: string)
    requires Others(g, name) && CoresHere(g, name)
             && (name in g.watched ==> !g.watched[name].cmd && g.watched[name].run <= g.runs)
    ensures var h := Watching(g, name);
            && Only(g, h, name) && Others(h, name) && CoresHere(h, name)
            && !h.watched[name].cmd && h.watched[name].run <= h.runs
  {
    OnlyKeepsOthers(g, Watching(g, name), name);
  }

  lemma HeldElsewhere(g: Model, name: string, pid: nat)
    requires Others(g, name) && CoresHere(g, name) && name in g.watched && !g.watched[name].cmd
             && g.watched[name].run <= g.runs
    ensures var h := Put(g, name, g.watched[name].(state := Running, pid := pid)); Only(g, h, name) && Here(h, name)
  {
  }

  lemma DroppedHere(g: Model, name: string)
    requires Others(g, name) && CoresHere(g, name) && (name in g.watched ==> !g.watched[name].cmd)
    ensures Only(g, Dropped(g, name), name) && Here(Dropped(g, name), name)
  {
  }

  lemma ReconciledHere(g: Model, name: string, explicit: bool, boot: bool, ans: Answers)
    requires Others(g, name) && Loose(g, name)
    ensures Only(g, Reconciled(g, name, explicit, boot, ans), name)
    ensures TimersNumbered(Reconciled(g, name, explicit, boot, ans))
            && Here(Reconciled(g, name, explicit, boot, ans), name)
  {
    if name in g.watched && g.watched[name].cmd {
      if g.watched[name].state != Stopping { StoppedHere(g, name); }
    } else if name !in g.records {
      DroppedHere(g, name);
    } else {
      UnheldHere(g, name, explicit, boot, ans);
    }
  }

  lemma UnheldHere(g: Model, name: string, explicit: bool, boot: bool, ans: Answers)
    requires Others(g, name) && Loose(g, name) && name in g.records && (name in g.watched ==> !g.watched[name].cmd)
    ensures Only(g, Reconciled(g, name, explicit, boot, ans), name)
    ensures TimersNumbered(Reconciled(g, name, explicit, boot, ans))
            && Here(Reconciled(g, name, explicit, boot, ans), name)
  {
    var rec := g.records[name];
    var h := Watching(g, name);
    if ans.holder != 0 {
      WatchingHere(g, name);
      HeldElsewhere(h, name, ans.holder);
    } else if rec.running && !rec.failed && (boot ==> rec.autostart && !rec.ephemeral) {
      WatchingHere(g, name);
      StartedHere(h, name, rec, ans);
    } else {
      DroppedHere(g, name);
    }
  }

  // ----- Every event keeps the invariant -----

  lemma OnlyOneKeepsInv(g: Model, h: Model, name: string)
    requires Others(g, name) && Only(g, h, name) && TimersNumbered(h) && Here(h, name)
    ensures Inv(h)
  {
    OnlyKeepsOthers(g, h, name);
    forall n ensures Here(h, n) {}
  }

  lemma EndedHere(g: Model, name: string, ans: Answers)
    requires Inv(g) && name in g.watched && g.watched[name].cmd
    ensures Only(g, Ended(g, name, ans), name)
    ensures TimersNumbered(Ended(g, name, ans)) && Here(Ended(g, name, ans), name)
  {
    assert Here(g, name);
    var w := g.watched[name];
    var h := Put(g, name, w.(cmd := false, pid := 0)).(cores := g.cores - {(name, w.run)});
    OnlyKeepsOthers(g, h, name);
    if w.state == Stopping && !w.silent {
      var i := if w.ephemeral then h.(records := h.records - {name}) else h;
      OnlyKeepsOthers(h, i, name);
      DroppedHere(i, name);
      OnlyKeepsOthers(i, Dropped(i, name), name);
      ReconciledHere(Dropped(i, name), name, false, false, ans);
    } else {
      FailedHere(h, name);
    }
  }

  lemma HeardHere(g: Model, name: string)
    requires Others(g, name) && CoresHere(g, name) && TimersHere(g, name) && name in g.watched
    requires var w := g.watched[name];
             w.cmd && !w.asked && w.state == Observable && 1 <= w.run <= g.runs && (name, w.run) in g.cores
    ensures Only(g, Heard(g, name), name) && TimersNumbered(Heard(g, name)) && Here(Heard(g, name), name)
  {
  }

  lemma BeatenHere(g: Model, name: string, pid: nat, stopping: bool)
    requires Inv(g)
    ensures Only(g, Beaten(g, name, pid, stopping), name)
    ensures TimersNumbered(Beaten(g, name, pid, stopping)) && Here(Beaten(g, name, pid, stopping), name)
  {
    assert Here(g, name);
    if name in g.watched && g.watched[name].pid != 0 && g.watched[name].pid == pid {
      var w := g.watched[name];
      if w.state == Starting && !stopping {
        var h := Armed(Put(g, name, w.(state := Observable, silent := false)),
                       Timer(Stable, name, w.run, w.policy.stability));
        OnlyKeepsOthers(g, h, name);
        HeardHere(h, name);
      } else if w.state == Observable && !stopping {
        HeardHere(g, name);
      }
    }
  }

  /** A timer is gone and nothing else changed; what it was set for is about to be decided. */
  ghost function Unarmed(g: Model, t: Timer): Model { g.(timers := g.timers - multiset{t}) }

  lemma FiredHere(g: Model, t: Timer, ans: Answers)
    requires Inv(g) && t in g.timers
    ensures Only(g, Fired(Unarmed(g, t), t, ans), t.name)
    ensures TimersNumbered(Fired(Unarmed(g, t), t, ans)) && Here(Fired(Unarmed(g, t), t, ans), t.name)
  {
    var h := Unarmed(g, t);
    assert Here(g, t.name);
    OnlyKeepsOthers(g, h, t.name);
    if t.name in h.watched && h.watched[t.name].run == t.run {
      FiredCurrent(g, t, ans);
    } else {
      assert forall u :: u in h.timers ==> u in g.timers;
      assert forall u :: u in g.timers && u != t ==> u in h.timers;
    }
  }

  /** A timer that was pending once only: what it was set for is about to be decided, and nothing else. */
  ghost predicate Spent(g: Model, h: Model, t: Timer) {
    && h.watched == g.watched && h.runs == g.runs && h.cores == g.cores && h.records == g.records
    && (forall u :: u in h.timers ==> u in g.timers)
    && (forall u :: u in g.timers && u != t ==> u in h.timers)
  }

  lemma FiredCurrent(g: Model, t: Timer, ans: Answers)
    requires Inv(g) && t in g.timers && t.name in g.watched && g.watched[t.name].run == t.run
    requires Others(Unarmed(g, t), t.name)
    ensures Only(g, Fired(Unarmed(g, t), t, ans), t.name)
    ensures TimersNumbered(Fired(Unarmed(g, t), t, ans)) && Here(Fired(Unarmed(g, t), t, ans), t.name)
  {
    var h := Unarmed(g, t);
    assert Here(g, t.name);
    assert Spent(g, h, t);
    if t.alarm.Retry? && g.watched[t.name].state == Waiting {
      RetryHere(g, h, t, ans);
    } else if t.alarm.Silence? && g.watched[t.name].state == Observable && g.watched[t.name].beats == t.alarm.beats {
      SilenceHere(g, h, t);
    } else {
      PlainHere(g, h, t, ans);
    }
  }

  lemma RetryHere(g: Model, h: Model, t: Timer, ans: Answers)
    requires Here(g, t.name) && Others(h, t.name) && Spent(g, h, t) && t.alarm.Retry?
    requires t.name in g.watched && g.watched[t.name].run == t.run && g.watched[t.name].state == Waiting
    ensures Only(g, Fired(h, t, ans), t.name)
    ensures TimersNumbered(Fired(h, t, ans)) && Here(Fired(h, t, ans), t.name)
  {
    var i := Put(h, t.name, g.watched[t.name].(state := Unset));
    OnlyKeepsOthers(h, i, t.name);
    ReconciledHere(i, t.name, false, false, ans);
  }

  lemma SilenceHere(g: Model, h: Model, t: Timer)
    requires Here(g, t.name) && Others(h, t.name) && Spent(g, h, t)
    requires t.name in g.watched && g.watched[t.name].run == t.run && g.watched[t.name].state == Observable
    ensures var i := Stopped(Put(h, t.name, g.watched[t.name].(silent := true)), t.name);
            Only(g, i, t.name) && TimersNumbered(i) && Here(i, t.name)
  {
    var i := Put(h, t.name, g.watched[t.name].(silent := true));
    OnlyKeepsOthers(h, i, t.name);
    StoppedHere(i, t.name);
  }

  lemma PlainHere(g: Model, h: Model, t: Timer, ans: Answers)
    requires Here(g, t.name) && Others(h, t.name) && Spent(g, h, t)
    requires t.name in g.watched && g.watched[t.name].run == t.run
    requires !(t.alarm.Retry? && g.watched[t.name].state == Waiting)
    requires !(t.alarm.Silence? && g.watched[t.name].state == Observable && g.watched[t.name].beats == t.alarm.beats)
    ensures Only(g, Fired(h, t, ans), t.name)
    ensures TimersNumbered(Fired(h, t, ans)) && Here(Fired(h, t, ans), t.name)
  {
    var w := g.watched[t.name];
    var v := if (t.alarm.NoBeat? && w.state == Starting) || (t.alarm.Kill? && w.state == Stopping && w.cmd)
             then w.(killed := true)
             else if t.alarm.Stable? && w.state == Observable then w.(attempt := 0)
             else w;
    MarkedHere(g, h, t, v);
    assert h == Put(h, t.name, w);
    assert Fired(h, t, ans) == Put(h, t.name, v);
  }

  lemma MarkedHere(g: Model, h: Model, t: Timer, v: Standing)
    requires Here(g, t.name) && Others(h, t.name) && Spent(g, h, t)
    requires t.name in g.watched && g.watched[t.name].run == t.run
    requires var w := g.watched[t.name];
             && (v == w || v == w.(killed := true) || (w.state == Observable && v == w.(attempt := 0)))
             && (t.alarm.NoBeat? && w.state == Starting ==> v.killed)
             && (t.alarm.Kill? && w.state == Stopping ==> v.killed)
             && !(t.alarm.Retry? && w.state == Waiting)
             && !(t.alarm.Silence? && w.state == Observable && w.beats == t.alarm.beats)
    ensures Only(g, Put(h, t.name, v), t.name)
    ensures TimersNumbered(Put(h, t.name, v)) && Here(Put(h, t.name, v), t.name)
  {
  }

  lemma {:induction false} ReconciledAllKeeps(g: Model, order: seq<string>, explicit: bool, boot: bool,
                                              ans: string -> Answers)
    requires Inv(g)
    ensures Inv(ReconciledAll(g, order, explicit, boot, ans))
  {
    if order != [] {
      var before := ReconciledAll(g, order[..|order| - 1], explicit, boot, ans);
      var n := order[|order| - 1];
      ReconciledAllKeeps(g, order[..|order| - 1], explicit, boot, ans);
      ReconciledKeeps(before, n, explicit, boot, ans(n));
    }
  }

  lemma EditKeeps(g: Model, records: map<string, Record>)
    requires Inv(g)
    ensures Inv(g.(records := records))
  {
    forall n
      ensures Here(g.(records := records), n)
    {
      assert Here(g, n);
    }
  }

  lemma ReconciledKeeps(g: Model, name: string, explicit: bool, boot: bool, ans: Answers)
    requires Inv(g)
    ensures Inv(Reconciled(g, name, explicit, boot, ans))
  {
    hide Reconciled, Only;
    assert Here(g, name);
    ReconciledHere(g, name, explicit, boot, ans);
    OnlyOneKeepsInv(g, Reconciled(g, name, explicit, boot, ans), name);
  }

  /** A Core that ended was its watch's, in the execution it was started for. */
  lemma ExitedIsWatched(g: Model, name: string, run: nat)
    requires Inv(g) && (name, run) in g.cores
    ensures name in g.watched && g.watched[name].run == run && g.watched[name].cmd
  {
    assert Here(g, name);
  }

  lemma EndedKeeps(g: Model, name: string, ans: Answers)
    requires Inv(g) && name in g.watched && g.watched[name].cmd
    ensures Inv(Ended(g, name, ans))
  {
    hide Ended, Only;
    EndedHere(g, name, ans);
    OnlyOneKeepsInv(g, Ended(g, name, ans), name);
  }

  lemma NextKeepsInv(g: Model, e: Event)
    requires Inv(g) && Possible(g, e)
    ensures Inv(Next(g, e))
  {
    hide Reconciled, ReconciledAll, Ended, Beaten, Fired, Only, Here, TimersNumbered;
    match e
    case Wake(name, explicit, ans) => ReconciledKeeps(g, name, explicit, false, ans);
    case WakeAll(order, explicit, boot, ans) => ReconciledAllKeeps(g, order, explicit, boot, ans);
    case Exited(name, run, ans) =>
      ExitedIsWatched(g, name, run);
      EndedKeeps(g, name, ans);
    case Beat(name, pid, stopping) =>
      BeatenHere(g, name, pid, stopping);
      OnlyOneKeepsInv(g, Next(g, e), name);
    case Fire(t, ans) =>
      FiredHere(g, t, ans);
      OnlyOneKeepsInv(g, Next(g, e), t.name);
    case Edit(name, None) => EditKeeps(g, g.records - {name});
    case Edit(name, Some(r)) => EditKeeps(g, g.records[name := r]);
  }

  // ----- Within one execution -----

  /** Where an execution of a name stands: not begun, starting, observable, stopping, ended. */
  ghost function Phase(g: Model, n: string, run: nat): nat {
    if run > g.runs then 0
    else if (n, run) !in g.cores || n !in g.watched then 4
    else Rank(g.watched[n].state)
  }

  ghost function Rank(s: State): nat {
    match s
    case Starting => 1
    case Observable => 2
    case _ => 3
  }

  /** The beats an execution sent, while it lasts. */
  ghost function Beats(g: Model, n: string): nat { if n in g.watched then g.watched[n].beats else 0 }

  ghost predicate Advances(g: Model, h: Model, n: string, run: nat) {
    && Phase(g, n, run) <= Phase(h, n, run)
    && (1 <= Phase(g, n, run) && Phase(h, n, run) <= 3 ==> Beats(g, n) <= Beats(h, n))
  }

  /** What one name's event does to its own execution: it goes on, in the same or a later state, or it is no
      longer unended; and any Core that appears is of a new execution. */
  ghost predicate Moves(g: Model, h: Model, name: string) {
    && (forall c :: c in h.cores ==> c in g.cores || c.1 > g.runs)
    && (name in g.watched && g.watched[name].cmd && (name, g.watched[name].run) in h.cores ==>
          && name in h.watched
          && Rank(g.watched[name].state) <= Rank(h.watched[name].state)
          && g.watched[name].beats <= h.watched[name].beats)
  }

  lemma MovesAdvance(g: Model, h: Model, name: string, n: string, run: nat)
    requires Inv(g) && Only(g, h, name) && Moves(g, h, name)
    ensures Advances(g, h, n, run)
  {
    assert Here(g, n);
    assert (n, run) in g.cores ==> (n, run).0 == n;
    if (n, run) in h.cores { assert (n, run) in g.cores || run > g.runs; }
  }

  lemma StartedMoves(g: Model, name: string, rec: Record, ans: Answers)
    requires name in g.watched
    ensures forall c :: c in Started(g, name, rec, ans).cores ==> c in g.cores || c.1 > g.runs
  {
  }

  lemma ReconciledMoves(g: Model, name: string, explicit: bool, boot: bool, ans: Answers)
    ensures Moves(g, Reconciled(g, name, explicit, boot, ans), name)
  {
    if !(name in g.watched && g.watched[name].cmd) && name in g.records {
      StartedMoves(Watching(g, name), name, g.records[name], ans);
    }
  }

  lemma EndedMoves(g: Model, name: string, ans: Answers)
    requires name in g.watched && g.watched[name].cmd && g.watched[name].run <= g.runs
    ensures Moves(g, Ended(g, name, ans), name)
  {
    var w := g.watched[name];
    var h := Put(g, name, w.(cmd := false, pid := 0)).(cores := g.cores - {(name, w.run)});
    if w.state == Stopping && !w.silent {
      var i := Dropped(if w.ephemeral then h.(records := h.records - {name}) else h, name);
      ReconciledMoves(i, name, false, false, ans);
    }
  }

  lemma FiredMoves(g: Model, t: Timer, ans: Answers)
    requires t.name in g.watched && g.watched[t.name].state == Waiting ==> !g.watched[t.name].cmd
    ensures Moves(g, Fired(g, t, ans), t.name)
  {
    if t.name in g.watched && t.alarm.Retry? && g.watched[t.name].state == Waiting {
      ReconciledMoves(Put(g, t.name, g.watched[t.name].(state := Unset)), t.name, false, false, ans);
    }
  }

  lemma ReconciledAdvances(g: Model, name: string, explicit: bool, boot: bool, ans: Answers, n: string, run: nat)
    requires Inv(g)
    ensures Advances(g, Reconciled(g, name, explicit, boot, ans), n, run)
  {
    assert Here(g, name);
    ReconciledHere(g, name, explicit, boot, ans);
    ReconciledMoves(g, name, explicit, boot, ans);
    MovesAdvance(g, Reconciled(g, name, explicit, boot, ans), name, n, run);
  }

  lemma {:induction false} ReconciledAllAdvances(g: Model, order: seq<string>, explicit: bool, boot: bool,
                                                 ans: string -> Answers,
                                                 n: string, run: nat)
    requires Inv(g)
    ensures Advances(g, ReconciledAll(g, order, explicit, boot, ans), n, run)
  {
    if order != [] {
      var before := ReconciledAll(g, order[..|order| - 1], explicit, boot, ans);
      var name := order[|order| - 1];
      ReconciledAllAdvances(g, order[..|order| - 1], explicit, boot, ans, n, run);
      ReconciledAllKeeps(g, order[..|order| - 1], explicit, boot, ans);
      ReconciledAdvances(before, name, explicit, boot, ans(name), n, run);
    }
  }

  lemma BeatenMoves(g: Model, name: string, pid: nat, stopping: bool)
    requires Inv(g)
    ensures Moves(g, Beaten(g, name, pid, stopping), name)
  {
    assert Here(g, name);
  }

  /** Every event moves every execution on, and never back. */
  lemma NextAdvances(g: Model, e: Event, n: string, run: nat)
    requires Inv(g) && Possible(g, e)
    ensures Advances(g, Next(g, e), n, run)
  {
    hide Reconciled, ReconciledAll, Ended, Beaten, Fired, Only, Moves;
    match e
    case Wake(name, explicit, ans) => ReconciledAdvances(g, name, explicit, false, ans, n, run);
    case WakeAll(order, explicit, boot, ans) => ReconciledAllAdvances(g, order, explicit, boot, ans, n, run);
    case Exited(name, r, ans) =>
      assert Here(g, name);
      EndedHere(g, name, ans);
      EndedMoves(g, name, ans);
      MovesAdvance(g, Ended(g, name, ans), name, n, run);
    case Beat(name, pid, stopping) =>
      BeatenHere(g, name, pid, stopping);
      BeatenMoves(g, name, pid, stopping);
      MovesAdvance(g, Beaten(g, name, pid, stopping), name, n, run);
    case Fire(t, ans) => FireAdvances(g, t, ans, n, run);
    case Edit(name, r) =>
  }

  lemma FireAdvances(g: Model, t: Timer, ans: Answers, n: string, run: nat)
    requires Inv(g) && t in g.timers
    ensures Advances(g, Fired(Unarmed(g, t), t, ans), n, run)
  {
    var h := Unarmed(g, t);
    assert Here(g, t.name);
    FiredHere(g, t, ans);
    FiredMoves(h, t, ans);
    MovesAdvance(g, Fired(h, t, ans), t.name, n, run);
  }

  // ----- Runs -----

  const FIRST := Model(map[], 0, map[], multiset{}, {})

  /** A run: the states it goes through from a guardian with nothing watched, whatever the records, and
      what happened between each and the next. */
  ghost predicate IsRun(states: seq<Model>, events: seq<Event>) {
    && |states| == |events| + 1
    && states[0] == FIRST.(records := states[0].records)
    && forall i :: 0 <= i < |events| ==> Possible(states[i], events[i]) && states[i + 1] == Next(states[i], events[i])
  }

  lemma {:induction false} EveryStateIsSound(states: seq<Model>, events: seq<Event>, i: nat)
    requires IsRun(states, events) && i < |states|
    ensures Inv(states[i])
  {
    if i > 0 {
      EveryStateIsSound(states, events, i - 1);
      NextKeepsInv(states[i - 1], events[i - 1]);
    }
  }

  lemma CoresAreLive(g: Model)
    requires Inv(g)
    ensures forall c :: c in g.cores ==> c.0 in g.watched && g.watched[c.0].state in {Starting, Observable, Stopping}
  {
    forall c | c in g.cores
      ensures c.0 in g.watched && g.watched[c.0].state in {Starting, Observable, Stopping}
    {
      assert Here(g, c.0);
    }
  }

  /** In every state of every run, a watch has a process exactly when it is starting, observable or
      stopping; each unended Core is the process of its own name's watch in the same execution, so no name
      has two, and no exit finds its watch gone or renumbered; and an idle guardian has no process left and
      no wait. */
  lemma ProcessesAreWatched(states: seq<Model>, events: seq<Event>, i: nat)
    requires IsRun(states, events) && i < |states|
    ensures var g := states[i];
            && (forall n :: n in g.watched ==>
                  (g.watched[n].cmd <==> g.watched[n].state in {Starting, Observable, Stopping}))
            && (forall n :: n in g.watched && g.watched[n].cmd ==> (n, g.watched[n].run) in g.cores)
            && (forall c :: c in g.cores ==> c.0 in g.watched && g.watched[c.0].cmd && g.watched[c.0].run == c.1)
            && (Idle(g) ==> g.cores == {} && forall n :: n in g.watched ==>
                  !g.watched[n].cmd && g.watched[n].state != Waiting)
  {
    EveryStateIsSound(states, events, i);
    var g := states[i];
    forall n | n in g.watched
      ensures g.watched[n].cmd <==> g.watched[n].state in {Starting, Observable, Stopping}
      ensures g.watched[n].cmd ==> (n, g.watched[n].run) in g.cores
    {
      assert Here(g, n);
    }
    forall c | c in g.cores
      ensures c.0 in g.watched && g.watched[c.0].cmd && g.watched[c.0].run == c.1
    {
      assert Here(g, c.0);
    }
  }

  /** Something pending, set for its own execution and for its own window, moves every watch on that is
      starting, observable, waiting or was asked to stop, unless its Core was killed already; and a waiting
      one waits as long as its attempt says. */
  lemma SomethingIsPending(states: seq<Model>, events: seq<Event>, i: nat, n: string)
    requires IsRun(states, events) && i < |states| && n in states[i].watched
    ensures var g := states[i];
            var w := g.watched[n];
            && (w.state == Starting ==> w.killed || Timer(NoBeat, n, w.run, w.policy.startup) in g.timers)
            && (w.state == Observable ==> Timer(Silence(w.beats), n, w.run, w.policy.Silence()) in g.timers)
            && (w.state == Stopping && w.asked ==> w.killed || Timer(Kill, n, w.run, w.policy.stop) in g.timers)
            && (w.state == Waiting ==>
                  && Timer(Retry, n, w.run, w.wait) in g.timers
                  && w.attempt >= 1 && w.wait == Backoff.WaitFor(w.policy.backoff, w.policy.ceiling, w.attempt))
  {
    EveryStateIsSound(states, events, i);
    assert Here(states[i], n);
  }

  /** Within one execution a watch only goes on: from starting to observable to stopping to ended; and its
      beats are only added to. */
  lemma {:induction false} ExecutionsOnlyGoOn(states: seq<Model>, events: seq<Event>, i: nat, j: nat, n: string,
                                              run: nat)
    requires IsRun(states, events) && i <= j < |states|
    ensures Advances(states[i], states[j], n, run)
    decreases j - i
  {
    if i < j {
      ExecutionsOnlyGoOn(states, events, i, j - 1, n, run);
      EveryStateIsSound(states, events, j - 1);
      NextAdvances(states[j - 1], events[j - 1], n, run);
    }
  }

  /** A timer still pending when its execution is observable was set while it was observable, and every
      state between had it observable: so `stable` clears the attempts only after unbroken observability. */
  lemma StableMeansUnbroken(states: seq<Model>, events: seq<Event>, i: nat, j: nat, t: Timer)
    requires IsRun(states, events) && i <= j < |events|
    requires t.alarm.Stable? && t in states[i].timers
    requires events[j].Fire? && events[j].timer == t
    requires t.name in states[j].watched && states[j].watched[t.name].run == t.run
             && states[j].watched[t.name].state == Observable
    ensures forall k :: i <= k <= j ==>
              t.name in states[k].watched && states[k].watched[t.name].run == t.run
                && states[k].watched[t.name].state == Observable
  {
    forall k | i <= k <= j
      ensures t.name in states[k].watched && states[k].watched[t.name].run == t.run
              && states[k].watched[t.name].state == Observable
    {
      ObservableBetween(states, events, i, k, j, t);
    }
  }

  lemma ObservableBetween(states: seq<Model>, events: seq<Event>, i: nat, k: nat, j: nat, t: Timer)
    requires IsRun(states, events) && i <= k <= j < |states|
    requires (t.alarm.Stable? || t.alarm.Silence?) && t in states[i].timers
    requires t.name in states[j].watched && states[j].watched[t.name].run == t.run
             && states[j].watched[t.name].state == Observable
    ensures t.name in states[k].watched && states[k].watched[t.name].run == t.run
            && states[k].watched[t.name].state == Observable
    ensures t.name in states[i].watched && states[i].watched[t.name].run == t.run && states[i].watched[t.name].cmd
    ensures Beats(states[i], t.name) <= Beats(states[k], t.name) <= Beats(states[j], t.name)
  {
    EveryStateIsSound(states, events, i);
    EveryStateIsSound(states, events, k);
    EveryStateIsSound(states, events, j);
    assert Here(states[i], t.name) && Here(states[k], t.name) && Here(states[j], t.name);
    ExecutionsOnlyGoOn(states, events, i, k, t.name, t.run);
    ExecutionsOnlyGoOn(states, events, k, j, t.name, t.run);
    assert Phase(states[j], t.name, t.run) == 2;
    assert Phase(states[i], t.name, t.run) >= 1;
    assert (t.name, t.run) in states[i].cores;
    assert Phase(states[i], t.name, t.run) == 2;
    assert Phase(states[k], t.name, t.run) == 2;
  }

  /** A silence stops a Core only if no beat came from its process since the silence was set. */
  lemma SilenceMeansNoBeat(states: seq<Model>, events: seq<Event>, i: nat, j: nat, t: Timer)
    requires IsRun(states, events) && i <= j < |events|
    requires t.alarm.Silence? && t in states[i].timers
    requires events[j].Fire? && events[j].timer == t
    requires t.name in states[j].watched && states[j].watched[t.name].run == t.run
             && states[j].watched[t.name].state == Observable
    requires states[j].watched[t.name].beats == t.alarm.beats
    ensures forall k :: i <= k < j && events[k].Beat? && events[k].name == t.name ==>
              t.name in states[k].watched && (states[k].watched[t.name].pid == 0
                                              || events[k].pid != states[k].watched[t.name].pid)
  {
    forall k | i <= k < j && events[k].Beat? && events[k].name == t.name
      ensures t.name in states[k].watched && (states[k].watched[t.name].pid == 0
                                              || events[k].pid != states[k].watched[t.name].pid)
    {
      ObservableBetween(states, events, i, k, j, t);
      ObservableBetween(states, events, i, k + 1, j, t);
      EveryStateIsSound(states, events, i);
      assert Here(states[i], t.name);
      assert states[k + 1] == Beaten(states[k], t.name, events[k].pid, events[k].stopping);
    }
  }

  /** A timer of an earlier execution changes nothing when it fires, even after its watch was deleted and
      made again: whatever is executed after a moment is no execution of any timer pending at that moment. */
  lemma EarlierTimersChangeNothing(states: seq<Model>, events: seq<Event>, i: nat, j: nat, t: Timer, ans: Answers)
    requires IsRun(states, events) && i <= j < |states|
    requires t in states[i].timers && t in states[j].timers
    requires t.name in states[j].watched && states[j].watched[t.name].run > states[i].runs
    ensures Next(states[j], Fire(t, ans)) == states[j].(timers := states[j].timers - multiset{t})
  {
    EveryStateIsSound(states, events, i);
    assert t.run <= states[i].runs;
  }
}
