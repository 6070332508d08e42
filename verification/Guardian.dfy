/** The guardian's event loop, changing its watches in place. */
module Guardian {
  import opened Prelude
  import opened GuardianModel
  import opened GuardianRuns
  import Backoff
  import GuardianDecisions

  class Watch {
    const name: string
    var state: State
    var attempt: nat
    var wait: int
    var cmd: bool
    var pid: nat
    var gen: nat
    var run: nat
    var policy: Policy
    var ephemeral: bool
    var beats: nat
    var silent: bool
    ghost var killed: bool
    ghost var asked: bool

    constructor (name: string)
      ensures this.name == name && Value() == UNWATCHED
    {
      this.name := name;
      state, attempt, wait, cmd, pid, gen, run := Unset, 0, 0, false, 0, 0, 0;
      policy, ephemeral, beats, silent, killed, asked := DEFAULTS, false, 0, false, false, false;
    }

    ghost function Value(): Standing
      reads this
    {
      Standing(state, attempt, wait, cmd, pid, gen, run, policy, ephemeral, beats, silent, killed, asked)
    }

    /** Counts the next execution of this instance. */
    method Count(rec: Record, policy: Policy, run: nat)
      modifies this
      ensures Value() == old(Value()).(ephemeral := rec.ephemeral, policy := policy, gen := old(gen) + 1, run := run,
                                       beats := 0, killed := false, asked := false)
    {
      ephemeral := rec.ephemeral;
      this.policy := policy;
      gen := gen + 1;
      this.run := run;
      beats := 0;
      killed, asked := false, false;
    }

    method Launched(pid: nat)
      modifies this`cmd, this`pid, this`state
      ensures Value() == old(Value()).(cmd := true, pid := pid, state := Starting)
    {
      cmd, this.pid, state := true, pid, Starting;
    }

    method TurnedDown(ephemeral: bool)
      modifies this`ephemeral, this`pid, this`state
      ensures Value() == old(Value()).(ephemeral := ephemeral, state := Refused, pid := 0)
    {
      this.ephemeral, state, pid := ephemeral, Refused, 0;
    }

    /** One attempt more, and the wait it takes. */
    method FailedAgain()
      modifies this`attempt, this`wait, this`state
      ensures Value() == old(Value()).(attempt := old(attempt) + 1, state := Waiting,
                                       wait := Backoff.WaitFor(policy.backoff, policy.ceiling, old(attempt) + 1))
    {
      attempt := attempt + 1;
      wait := Backoff.Wait(policy.backoff, policy.ceiling, attempt);
      state := Waiting;
    }

    method Heard()
      modifies this`state, this`silent
      ensures Value() == old(Value()).(state := Observable, silent := false)
    {
      state, silent := Observable, false;
    }

    /** Kills the process. */
    method KillProcess()
      requires cmd
      modifies this`killed
      ensures killed
    {
      killed := true;
    }

    /** Asks the process to stop. */
    method Terminate()
      requires cmd
      modifies this`asked
      ensures asked
    {
      asked := true;
    }
  }

  lemma Live(g: Model, name: string)
    requires Inv(g) && name in g.watched
    ensures g.watched[name].state in {Starting, Observable, Stopping} ==> g.watched[name].cmd
  {
    assert Here(g, name);
  }

  lemma Outdated(g: Model, t: Timer, ans: Answers)
    requires t.name !in g.watched || g.watched[t.name].run != t.run
    ensures Fired(g, t, ans) == g
  {
  }

  class Guardian {
    var watched: map<string, Watch>
    var runs: nat
    /** The account's records, which outsiders edit. */
    var records: map<string, Record>
    /** The timers set and not yet fired, and the Cores whose end was not handled. */
    var timers: multiset<Timer>
    var cores: set<(string, nat)>
    ghost var model: Model
    ghost var cells: set<Watch>

    ghost predicate Shows(m: Model)
      reads this, cells
    {
      && runs == m.runs && records == m.records && timers == m.timers && cores == m.cores
      && watched.Keys == m.watched.Keys
      && forall n :: n in watched ==> watched[n] in cells && watched[n].name == n && watched[n].Value() == m.watched[n]
    }

    ghost predicate Tied()
      reads this, cells
    {
      Shows(model)
    }

    ghost predicate Valid()
      reads this, cells
    {
      Tied() && Inv(model)
    }

    constructor (records: map<string, Record>)
      ensures Valid() && fresh(cells) && model == FIRST.(records := records)
    {
      watched, runs, timers, cores := map[], 0, multiset{}, {};
      this.records := records;
      cells := {};
      model := FIRST.(records := records);
    }

    ghost method Adopt(m: Model)
      requires Shows(m)
      modifies this`model
      ensures Tied() && model == m
    {
      model := m;
    }

    /** Only the watch `w` changed since the model was shown. */
    ghost method AdoptChange(w: Watch, m: Model)
      requires w.name in watched && watched[w.name] == w && w in cells
      requires watched.Keys == model.watched.Keys
      requires forall n :: n in watched ==> watched[n] in cells && watched[n].name == n
      requires forall n :: n in watched && n != w.name ==> watched[n].Value() == model.watched[n]
      requires m.watched == model.watched[w.name := w.Value()]
      requires runs == m.runs && records == m.records && timers == m.timers && cores == m.cores
      modifies this`model
      ensures Tied() && model == m
    {
      model := m;
    }

    ghost predicate Holds(w: Watch)
      reads this, cells
    {
      Tied() && w.name in watched && watched[w.name] == w
    }

    method After(d: int, alarm: Alarm, w: Watch)
      modifies this`timers
      ensures timers == old(timers) + multiset{Timer(alarm, w.name, w.run, d)}
    {
      timers := timers + multiset{Timer(alarm, w.name, w.run, d)};
    }

    /** Requests an end, with a timer to kill what outlasts it. */
    method Stop(w: Watch)
      requires Holds(w) && w.cmd
      modifies this`timers, this`model, w
      ensures Tied() && model == Stopped(old(model), w.name)
    {
      w.state := Stopping;
      w.Terminate();
      After(w.policy.stop, Alarm.Kill, w);
      AdoptChange(w, Stopped(model, w.name));
    }

    /** Counts a beat and starts measuring silence afresh. */
    method Hear(w: Watch)
      requires Holds(w)
      modifies this`timers, this`model, w
      ensures Tied() && model == Heard(old(model), w.name)
    {
      w.beats := w.beats + 1;
      After(w.policy.Silence(), Silence(w.beats), w);
      AdoptChange(w, Heard(model, w.name));
    }

    method Drop(name: string)
      requires Tied()
      modifies this`watched, this`model
      ensures Tied() && model == Dropped(old(model), name)
    {
      watched := watched - {name};
      Adopt(Dropped(model, name));
    }

    /** After a failure, waiting is for declared instances; a run that was not declared keeps its record, as
        failed. */
    method Fail(w: Watch)
      requires Holds(w)
      modifies this, w
      ensures Tied() && cells == old(cells) && model == Failed(old(model), w.name)
    {
      if w.ephemeral {
        MarkFailed(w.name);
      } else {
        AwaitRetry(w);
      }
    }

    method MarkFailed(name: string)
      requires Tied() && name in watched && watched[name].ephemeral
      modifies this`records, this`watched, this`model
      ensures Tied() && model == Failed(old(model), name)
    {
      if name in records {
        records := records[name := records[name].(failed := true)];
      }
      watched := watched - {name};
      Adopt(Failed(model, name));
    }

    method AwaitRetry(w: Watch)
      requires Holds(w) && !w.ephemeral
      modifies this`timers, this`model, w
      ensures Tied() && model == Failed(old(model), w.name)
    {
      hide Backoff.WaitFor;
      assert w.Value() == model.watched[w.name];
      w.FailedAgain();
      After(w.wait, Retry, w);
      AdoptChange(w, Failed(model, w.name));
    }

    method Refuse(w: Watch, ephemeral: bool)
      requires Holds(w)
      modifies this`model, w
      ensures Tied() && model == Put(old(model), w.name,
                                     old(model).watched[w.name].(ephemeral := ephemeral, state := Refused, pid := 0))
    {
      w.TurnedDown(ephemeral);
      ghost var m := Put(model, w.name, model.watched[w.name].(ephemeral := ephemeral, state := Refused, pid := 0));
      AdoptChange(w, m);
    }

    /** Runs the gate, and then executes the Core. */
    method Start(rec: Record, w: Watch, ans: Answers)
      requires Holds(w)
      modifies this, w
      ensures Tied() && cells == old(cells) && model == Started(old(model), w.name, rec, ans)
    {
      assert w.name in model.watched;
      hide Guardian.Shows, Numbered, Failed, Executed;
      if ans.gate.None? {
        Refuse(w, rec.ephemeral);
        return;
      }
      Number(w, rec, ans.gate.value);
      if ans.started == 0 {
        Fail(w);
      } else {
        Execute(w, ans.started);
      }
    }

    method Number(w: Watch, rec: Record, policy: Policy)
      requires Holds(w)
      modifies this`runs, this`model, w
      ensures Holds(w)
      ensures model == Numbered(old(model), w.name, rec, policy)
    {
      runs := runs + 1;
      w.Count(rec, policy, runs);
      AdoptChange(w, Numbered(model, w.name, rec, policy));
    }

    method Execute(w: Watch, pid: nat)
      requires Holds(w)
      modifies this`timers, this`cores, this`model, w
      ensures Tied() && model == Executed(old(model), w.name, pid)
    {
      w.Launched(pid);
      cores := cores + {(w.name, w.run)};
      After(w.policy.startup, NoBeat, w);
      AdoptChange(w, Executed(model, w.name, pid));
    }

    method Watching(name: string) returns (w: Watch)
      requires Tied()
      modifies this`watched, this`model, this`cells
      ensures Holds(w) && w.name == name && model == GuardianModel.Watching(old(model), name)
      ensures cells == old(cells) + {w} && (w in old(cells) || fresh(w))
    {
      if name in watched {
        w := watched[name];
      } else {
        w := new Watch(name);
        watched := watched[name := w];
        cells := cells + {w};
        Adopt(GuardianModel.Watching(model, name));
      }
    }

    /** Brings one name's watch to what its record says, whatever that takes. */
    method Reconcile(name: string, explicit: bool, boot: bool, ans: Answers)
      requires Tied()
      modifies this, cells
      ensures Tied() && fresh(cells - old(cells)) && model == Reconciled(old(model), name, explicit, boot, ans)
      ensures GuardianDecisions.Settled(old(model), name) ==>
                GuardianDecisions.Brought(old(model), model, name, explicit, boot, ans)
    {
      hide GuardianDecisions.Settled, GuardianDecisions.Brought;
      if GuardianDecisions.Settled(model, name) {
        GuardianDecisions.ReconciledDecides(model, name, explicit, boot, ans);
      }
      assert records == model.records && (name in watched <==> name in model.watched);
      assert name in watched ==> Holds(watched[name]) && watched[name].name == name;
      assert name in watched ==> watched[name].Value() == model.watched[name];
      hide Started, Guardian.Shows;
      if name !in records {
        if name in watched && watched[name].cmd {
          if watched[name].state != Stopping { Stop(watched[name]); }
        } else if name in watched {
          Drop(name);
        }
        return;
      }
      var rec := records[name];
      var want := rec.running && !rec.failed;
      if boot {
        want := want && rec.autostart && !rec.ephemeral;
      }
      if name in watched && watched[name].cmd {
        if !want && watched[name].state != Stopping { Stop(watched[name]); }
      } else if ans.holder != 0 {
        Meet(name, ans.holder);
      } else {
        Bring(name, rec, want, explicit, ans);
      }
    }

    /** No process of this name is alive: it is started, left waiting or refused, or no longer watched. */
    method Bring(name: string, rec: Record, want: bool, explicit: bool, ans: Answers)
      requires Tied()
      modifies this, cells
      ensures Tied() && fresh(cells - old(cells))
      ensures model == if !want then Dropped(old(model), name)
                       else if name in old(model).watched
                            && ((old(model).watched[name].state == Refused && !explicit)
                                || old(model).watched[name].state == Waiting)
                         then old(model)
                       else Started(GuardianModel.Watching(old(model), name), name, rec, ans)
    {
      assert name in watched <==> name in model.watched;
      assert name in watched ==> watched[name].Value() == model.watched[name];
      hide Started, Guardian.Shows;
      if want {
        if name in watched && ((watched[name].state == Refused && !explicit) || watched[name].state == Waiting) {
          return;
        }
        Launch(name, rec, ans);
      } else {
        Drop(name);
      }
    }

    method Launch(name: string, rec: Record, ans: Answers)
      requires Tied()
      modifies this, cells
      ensures Tied() && fresh(cells - old(cells))
      ensures model == Started(GuardianModel.Watching(old(model), name), name, rec, ans)
    {
      hide Started, Guardian.Shows, GuardianModel.Watching;
      var w := Watching(name);
      Start(rec, w, ans);
    }

    /** Somebody else's process holds the name. */
    method Meet(name: string, holder: nat)
      requires Tied()
      modifies this, cells
      ensures Tied() && fresh(cells - old(cells))
      ensures var h := GuardianModel.Watching(old(model), name);
              model == Put(h, name, h.watched[name].(state := Running, pid := holder))
    {
      var w := Watching(name);
      Foreign(w, holder);
    }

    method Foreign(w: Watch, holder: nat)
      requires Holds(w)
      modifies this`model, w`state, w`pid
      ensures Tied() && model == Put(old(model), w.name, old(model).watched[w.name].(state := Running, pid := holder))
    {
      w.state, w.pid := Running, holder;
      AdoptChange(w, Put(model, w.name, model.watched[w.name].(state := Running, pid := holder)));
    }

    /** Every record and every watch, each once, in the order their names happen to be walked in. */
    method ReconcileAll(order: seq<string>, explicit: bool, boot: bool, ans: string -> Answers)
      requires Tied() && IsWalk(order, records.Keys + watched.Keys)
      modifies this, cells
      ensures Tied() && fresh(cells - old(cells)) && model == ReconciledAll(old(model), order, explicit, boot, ans)
    {
      hide IsWalk, Reconciled, Guardian.Shows, GuardianDecisions.Settled, GuardianDecisions.Brought;
      ghost var before := model;
      for i := 0 to |order|
        invariant Tied() && fresh(cells - old(cells)) && model == ReconciledAll(before, order[..i], explicit, boot, ans)
      {
        assert order[..i + 1][..i] == order[..i];
        Reconcile(order[i], explicit, boot, ans(order[i]));
      }
      assert order[..|order|] == order;
    }

    /** The exit of a watched process: asked for, and then the record is consulted, or not, and then it failed. */
    method End(w: Watch, ans: Answers)
      requires Holds(w)
      modifies this, cells
      ensures Tied() && fresh(cells - old(cells)) && model == Ended(old(model), w.name, ans)
    {
      var orderly := w.state == Stopping && !w.silent;
      assert w.Value() == model.watched[w.name];
      hide Reconciled, Failed, Guardian.Shows, GuardianDecisions.Settled, GuardianDecisions.Brought;
      Reap(w);
      if !orderly {
        Fail(w);
        return;
      }
      Forget(w);
      Reconcile(w.name, false, false, ans);
    }

    method Reap(w: Watch)
      requires Holds(w)
      modifies this`cores, this`model, w`cmd, w`pid
      ensures Holds(w)
      ensures model == Put(old(model), w.name, old(model).watched[w.name].(cmd := false, pid := 0))
                       .(cores := old(cores) - {(w.name, w.run)})
    {
      w.cmd, w.pid := false, 0;
      cores := cores - {(w.name, w.run)};
      AdoptChange(w, Put(model, w.name, model.watched[w.name].(cmd := false, pid := 0)).(cores := cores));
    }

    /** After an orderly stop the watch is deleted, and with it the record of a run that was not declared. */
    method Forget(w: Watch)
      requires Holds(w)
      modifies this`records, this`watched, this`model
      ensures Tied() && model == Dropped(if w.ephemeral then old(model).(records := old(records) - {w.name})
                                         else old(model), w.name)
    {
      if w.ephemeral {
        records := records - {w.name};
      }
      watched := watched - {w.name};
      Adopt(Dropped(if w.ephemeral then model.(records := records) else model, w.name));
    }

    /** A Core says it is alive, or that it is stopping; what any other process says is refused. */
    method Beat(name: string, pid: nat, stopping: bool) returns (accepted: bool)
      requires Tied()
      modifies this`timers, this`model, cells
      ensures Tied() && model == Beaten(old(model), name, pid, stopping)
      ensures accepted <==> name in old(model).watched && old(model).watched[name].pid == pid != 0
    {
      if name !in watched || watched[name].pid == 0 || watched[name].pid != pid { return false; }
      var w := watched[name];
      if stopping && (w.state == Starting || w.state == Observable) {
        StopItself(w);
      } else if w.state == Starting {
        Become(w);
        Hear(w);
      } else if w.state == Observable {
        Hear(w);
      }
      return true;
    }

    method StopItself(w: Watch)
      requires Holds(w)
      modifies this`model, w`state, w`silent
      ensures Tied() && model == Put(old(model), w.name,
                                     old(model).watched[w.name].(state := Stopping, silent := false))
    {
      w.state, w.silent := Stopping, false;
      AdoptChange(w, Put(model, w.name, model.watched[w.name].(state := Stopping, silent := false)));
    }

    method Become(w: Watch)
      requires Holds(w)
      modifies this`timers, this`model, w`state, w`silent
      ensures Holds(w)
      ensures model == Armed(Put(old(model), w.name, old(model).watched[w.name].(state := Observable, silent := false)),
                             Timer(Stable, w.name, w.run, w.policy.stability))
    {
      assert w.Value() == model.watched[w.name];
      w.Heard();
      After(w.policy.stability, Stable, w);
      AdoptChange(w, Armed(Put(model, w.name, model.watched[w.name].(state := Observable, silent := false)),
                           Timer(Stable, w.name, w.run, w.policy.stability)));
    }

    method Expire(t: Timer)
      requires Tied() && t in timers
      modifies this`timers, this`model
      ensures Tied() && model == old(model).(timers := old(timers) - multiset{t}) && old(timers) == old(model).timers
    {
      timers := timers - multiset{t};
      Adopt(model.(timers := timers));
    }

    /** A timer elapsed: it acts only on the execution it was set for, and only in the state it was set in. */
    method Elapse(t: Timer, ans: Answers)
      requires Valid() && t in timers
      modifies this, cells
      ensures Tied() && fresh(cells - old(cells)) && model == Next(old(model), Event.Fire(t, ans))
    {
      hide Fired, Inv;
      assert t.name in watched <==> t.name in model.watched;
      if t.name in watched {
        Live(model, t.name);
        assert watched[t.name].name == t.name && watched[t.name].Value() == model.watched[t.name];
      }
      hide Guardian.Shows;
      Expire(t);
      if t.name !in watched || watched[t.name].run != t.run {
        Outdated(model, t, ans);
        return;
      }
      Act(watched[t.name], t, ans);
    }

    method Act(w: Watch, t: Timer, ans: Answers)
      requires Holds(w) && w.name == t.name && w.run == t.run
      requires w.state in {Starting, Observable, Stopping} ==> w.cmd
      modifies this, cells
      ensures Tied() && fresh(cells - old(cells)) && model == Fired(old(model), t, ans)
    {
      assert w.Value() == model.watched[w.name];
      hide Reconciled, Stopped, Guardian.Shows;
      match t.alarm
      case NoBeat =>
        if w.state == Starting { Kill(w); }
      case Retry =>
        if w.state == Waiting { TryAgain(w, ans); }
      case Stable =>
        if w.state == Observable { Steady(w); }
      case Kill =>
        if w.state == Stopping && w.cmd { Kill(w); }
      case Silence(beats) =>
        if w.state == Observable && w.beats == beats { StopSilent(w); }
    }

    method TryAgain(w: Watch, ans: Answers)
      requires Holds(w)
      modifies this, cells
      ensures Tied() && fresh(cells - old(cells))
      ensures model == Reconciled(Put(old(model), w.name, old(model).watched[w.name].(state := State.Unset)), w.name,
                                  false, false, ans)
    {
      hide GuardianDecisions.Settled, GuardianDecisions.Brought;
      Unset(w);
      Reconcile(w.name, false, false, ans);
    }

    method StopSilent(w: Watch)
      requires Holds(w) && w.cmd
      modifies this`timers, this`model, w
      ensures Tied() && model == Stopped(Put(old(model), w.name, old(model).watched[w.name].(silent := true)), w.name)
    {
      Silenced(w);
      Stop(w);
    }

    method Kill(w: Watch)
      requires Holds(w) && w.cmd
      modifies this`model, w`killed
      ensures Tied() && model == Put(old(model), w.name, old(model).watched[w.name].(killed := true))
    {
      w.KillProcess();
      AdoptChange(w, Put(model, w.name, model.watched[w.name].(killed := true)));
    }

    method Unset(w: Watch)
      requires Holds(w)
      modifies this`model, w`state
      ensures Holds(w) && model == Put(old(model), w.name, old(model).watched[w.name].(state := State.Unset))
    {
      w.state := State.Unset;
      AdoptChange(w, Put(model, w.name, model.watched[w.name].(state := State.Unset)));
    }

    method Steady(w: Watch)
      requires Holds(w)
      modifies this`model, w`attempt
      ensures Tied() && model == Put(old(model), w.name, old(model).watched[w.name].(attempt := 0))
    {
      w.attempt := 0;
      AdoptChange(w, Put(model, w.name, model.watched[w.name].(attempt := 0)));
    }

    method Silenced(w: Watch)
      requires Holds(w)
      modifies this`model, w`silent
      ensures Holds(w) && model == Put(old(model), w.name, old(model).watched[w.name].(silent := true))
    {
      w.silent := true;
      AdoptChange(w, Put(model, w.name, model.watched[w.name].(silent := true)));
    }

    /** One turn of the loop, for one event. Only a beat has an answer: whether it was taken. */
    method Handle(e: Event) returns (accepted: bool)
      requires Valid() && Possible(model, e)
      requires e.WakeAll? ==> IsWalk(e.order, records.Keys + watched.Keys)
      modifies this, cells
      ensures Valid() && fresh(cells - old(cells)) && model == Next(old(model), e)
    {
      hide GuardianDecisions.Settled, GuardianDecisions.Brought;
      NextKeepsInv(model, e);
      accepted := true;
      match e
      case Wake(name, explicit, ans) => Reconcile(name, explicit, false, ans);
      case WakeAll(order, explicit, boot, ans) => ReconcileAll(order, explicit, boot, ans);
      case Exited(name, run, ans) =>
        if name in watched && watched[name].run == run { End(watched[name], ans); }
      case Beat(name, pid, stopping) => accepted := Beat(name, pid, stopping);
      case Fire(t, ans) => Elapse(t, ans);
      case Edit(name, None) =>
        records := records - {name};
        Adopt(model.(records := records));
      case Edit(name, Some(r)) =>
        records := records[name := r];
        Adopt(model.(records := records));
    }

    /** Nothing left to watch, no process and no wait, and no event `queued` to be handled. */
    method IsIdle(queued: nat) returns (idle: bool)
      requires Valid()
      ensures idle <==> queued == 0 && Idle(model)
      ensures idle ==> cores == {}
    {
      if queued > 0 {
        return false;
      }
      var names := watched.Keys;
      idle := true;
      while names != {}
        invariant names <= watched.Keys
        invariant idle
        invariant forall n :: n in watched && n !in names ==>
                    model.watched[n].state !in {Starting, Observable, Stopping, Waiting}
      {
        var n :| n in names;
        if watched[n].state in {Starting, Observable, Stopping, Waiting} {
          assert model.watched[n].state in {Starting, Observable, Stopping, Waiting};
          return false;
        }
        names := names - {n};
      }
      CoresAreLive(model);
    }
  }
}
