/** What each event makes the guardian do, said of the states before and after it. */
module GuardianDecisions {
  import opened Prelude
  import opened GuardianModel
  import opened GuardianRuns
  import Backoff

  // ----- Which instances are to be up -----

  /** The record says so: running, not failed, and at boot with autostart set and not ephemeral. */
  ghost predicate Wanted(g: Model, n: string, boot: bool) {
    && n in g.records && g.records[n].running && !g.records[n].failed
    && (boot ==> g.records[n].autostart && !g.records[n].ephemeral)
  }

  ghost predicate Live(g: Model, n: string) { n in g.watched && g.watched[n].cmd }

  /** Waiting for its next attempt, or refused and not asked for explicitly. */
  ghost predicate Held(g: Model, n: string, explicit: bool) {
    n in g.watched && (g.watched[n].state == Waiting || (g.watched[n].state == Refused && !explicit))
  }

  /** A Core of the name is there that was not. */
  ghost predicate Appears(g: Model, h: Model, n: string) {
    exists run :: (n, run) in h.cores && (n, run) !in g.cores
  }

  /** The Core of the name is asked to stop, which it was not. */
  ghost predicate Asked(g: Model, h: Model, n: string) {
    && Live(g, n) && g.watched[n].state != Stopping
    && n in h.watched && h.watched[n].state == Stopping && h.watched[n].asked
  }

  /** The watch the timer is for waits, in the execution it was set in. */
  ghost predicate Awaits(g: Model, t: Timer) {
    t.name in g.watched && g.watched[t.name].run == t.run && g.watched[t.name].state == Waiting
  }

  /** What an event has the record of a name looked at for: where nothing of that name is alive, to bring it up,
      and with what answers from outside. An exit that was asked for and a retry look at it as well. */
  ghost function Consulted(g: Model, e: Event, n: string): Option<(bool, Answers)> {
    match e
    case Wake(m, explicit, ans) => if m == n && !Live(g, n) && !Held(g, n, explicit) then Some((false, ans)) else None
    case WakeAll(order, explicit, boot, ans) =>
      if n in order && !Live(g, n) && !Held(g, n, explicit) then Some((boot, ans(n))) else None
    case Exited(m, run, ans) =>
      if m == n && n in g.watched && g.watched[n].run == run && g.watched[n].state == Stopping && !g.watched[n].silent
         && !g.watched[n].ephemeral
      then Some((false, ans)) else None
    case Fire(t, ans) =>
      if t.alarm.Retry? && t.name == n && Awaits(g, t) then Some((false, ans)) else None
    case _ => None
  }

  /** Where an event is about every name, it comes by each once. */
  ghost predicate EachOnce(e: Event) {
    e.WakeAll? ==> forall i, j :: 0 <= i < j < |e.order| ==> e.order[i] != e.order[j]
  }

  /** The outside lets it start: nobody holds the name, the gate gives a policy, and a process comes of it. */
  predicate Startable(ans: Answers) {
    ans.holder == 0 && ans.gate.Some? && ans.started != 0
  }

  // ----- One name at a time -----

  /** The name stands alike in both: its watch, its record, its Cores and its timers. */
  ghost predicate Alike(g: Model, h: Model, n: string) {
    && (n in g.watched <==> n in h.watched) && (n in g.watched ==> g.watched[n] == h.watched[n])
    && (n in g.records <==> n in h.records) && (n in g.records ==> g.records[n] == h.records[n])
    && (forall run :: (n, run) in g.cores <==> (n, run) in h.cores)
    && (forall t: Timer :: t.name == n ==> (t in g.timers <==> t in h.timers))
  }

  /** What the theorems need of one name, of a state or on the way to the next. */
  ghost predicate Settled(g: Model, n: string) {
    && (forall run :: (n, run) in g.cores ==> Live(g, n))
    && (Live(g, n) ==> (n, g.watched[n].run) in g.cores && (g.watched[n].state != Stopping ==> !g.watched[n].asked))
  }

  lemma InvSettles(g: Model, n: string)
    requires Inv(g)
    ensures Settled(g, n)
  {
    assert Here(g, n);
    assert forall run :: (n, run) in g.cores ==> (n, run).0 == n;
  }

  /** What becomes of a name with nothing alive when its record is looked at; `held` where it waits, or was refused
      and nobody asked for it. */
  ghost predicate Decided(g: Model, h: Model, n: string, held: bool, boot: bool, ans: Answers) {
    if n !in g.records then n !in h.watched
    else if ans.holder != 0 then n in h.watched && h.watched[n].state == Running && h.watched[n].pid == ans.holder
    else if !Wanted(g, n, boot) then n !in h.watched
    else if held then Alike(g, h, n)
    else if ans.gate == None then n in h.watched && h.watched[n].state == Refused && h.watched[n].pid == 0
    else if ans.started == 0 then
      if g.records[n].ephemeral then n !in h.watched && n in h.records && h.records[n].failed
      else
        && n in h.watched && h.watched[n].state == Waiting
        && h.watched[n].attempt == (if n in g.watched then g.watched[n].attempt else 0) + 1
        && h.watched[n].wait == Backoff.WaitFor(ans.gate.value.backoff, ans.gate.value.ceiling, h.watched[n].attempt)
        && Timer(Retry, n, h.watched[n].run, h.watched[n].wait) in h.timers
    else
      && n in h.watched && h.watched[n].state == Starting && h.watched[n].cmd && h.watched[n].pid == ans.started
      && h.watched[n].policy == ans.gate.value && h.watched[n].ephemeral == g.records[n].ephemeral
      && h.watched[n].beats == 0 && !h.watched[n].killed && !h.watched[n].asked && (n, h.watched[n].run) in h.cores
      && Timer(NoBeat, n, h.watched[n].run, ans.gate.value.startup) in h.timers
  }

  /** A name's record was looked at: a Core appears exactly where nothing of the name is alive or held back, the
      record wants one, and the outside lets it start; one that is alive is asked to stop exactly where the record
      does not want it and it is not stopping already; and otherwise the watch goes by the record. */
  ghost predicate Brought(g: Model, h: Model, n: string, explicit: bool, boot: bool, ans: Answers) {
    && (Appears(g, h, n) <==> !Live(g, n) && !Held(g, n, explicit) && Wanted(g, n, boot) && Startable(ans))
    && (Asked(g, h, n) <==> Live(g, n) && g.watched[n].state != Stopping && !Wanted(g, n, boot))
    && (!Live(g, n) ==> Decided(g, h, n, Held(g, n, explicit), boot, ans))
    && (Live(g, n) && !Asked(g, h, n) ==> Alike(g, h, n))
  }

  lemma ReconciledDecides(g: Model, n: string, explicit: bool, boot: bool, ans: Answers)
    requires Settled(g, n)
    ensures Brought(g, Reconciled(g, n, explicit, boot, ans), n, explicit, boot, ans)
  {
    if Live(g, n) { LiveDecides(g, n, explicit, boot, ans); } else { RestingDecides(g, n, explicit, boot, ans); }
    hide Reconciled, Settled, Appears;
  }

  lemma LiveDecides(g: Model, n: string, explicit: bool, boot: bool, ans: Answers)
    requires Settled(g, n) && Live(g, n)
    ensures var h := Reconciled(g, n, explicit, boot, ans);
            && !Appears(g, h, n)
            && (Asked(g, h, n) <==> g.watched[n].state != Stopping && !Wanted(g, n, boot))
            && (!Asked(g, h, n) ==> Alike(g, h, n))
  {
    hide Started;
  }

  lemma RestingDecides(g: Model, n: string, explicit: bool, boot: bool, ans: Answers)
    requires Settled(g, n) && !Live(g, n)
    ensures var h := Reconciled(g, n, explicit, boot, ans);
            && (Appears(g, h, n) <==> !Held(g, n, explicit) && Wanted(g, n, boot) && Startable(ans))
            && Decided(g, h, n, Held(g, n, explicit), boot, ans)
  {
    var h := Reconciled(g, n, explicit, boot, ans);
    if !Held(g, n, explicit) && Wanted(g, n, boot) && ans.holder == 0 {
      StartDecides(Watching(g, n), n, g.records[n], ans);
      hide Started;
      if Startable(ans) { assert (n, h.watched[n].run) in h.cores && (n, h.watched[n].run) !in g.cores; }
    } else {
      hide Started;
    }
  }

  lemma StartDecides(g: Model, n: string, rec: Record, ans: Answers)
    requires n in g.watched
    ensures var h, w := Started(g, n, rec, ans), g.watched[n];
            if ans.gate == None then
              h.cores == g.cores && n in h.watched && h.watched[n].state == Refused && h.watched[n].pid == 0
            else if ans.started == 0 then
              && h.cores == g.cores
              && if rec.ephemeral then n !in h.watched && (n in g.records ==> n in h.records && h.records[n].failed)
                 else n in h.watched && h.watched[n].state == Waiting && h.watched[n].attempt == w.attempt + 1
                      && h.watched[n].wait
                         == Backoff.WaitFor(ans.gate.value.backoff, ans.gate.value.ceiling, w.attempt + 1)
                      && Timer(Retry, n, h.watched[n].run, h.watched[n].wait) in h.timers
            else
              && n in h.watched && h.watched[n].state == Starting && h.watched[n].cmd && h.watched[n].pid == ans.started
              && h.watched[n].policy == ans.gate.value && h.watched[n].ephemeral == rec.ephemeral
              && h.watched[n].beats == 0 && !h.watched[n].killed && !h.watched[n].asked
              && h.watched[n].run == g.runs + 1 && h.cores == g.cores + {(n, g.runs + 1)}
              && Timer(NoBeat, n, h.watched[n].run, ans.gate.value.startup) in h.timers
  {
    hide Backoff.WaitFor;
  }

  // ----- One name among others -----

  lemma FailedElsewhere(g: Model, m: string, n: string)
    requires m in g.watched && m != n
    ensures Alike(g, Failed(g, m), n)
  {
    hide Backoff.WaitFor;
  }

  lemma StartedElsewhere(g: Model, m: string, rec: Record, ans: Answers, n: string)
    requires m in g.watched && m != n
    ensures Alike(g, Started(g, m, rec, ans), n)
  {
    hide Failed;
    if ans.gate.Some? && ans.started == 0 {
      var h := Numbered(g, m, rec, ans.gate.value);
      FailedElsewhere(h, m, n);
    }
  }

  lemma PutElsewhere(g: Model, m: string, n: string, w: Standing)
    requires m != n
    ensures Alike(g, Put(g, m, w), n) && Alike(g, Dropped(g, m), n)
  {
  }

  lemma StoppedElsewhere(g: Model, m: string, n: string)
    requires m in g.watched && m != n
    ensures Alike(g, Stopped(g, m), n)
  {
  }

  lemma ReconciledElsewhere(g: Model, m: string, explicit: bool, boot: bool, ans: Answers, n: string)
    requires m != n
    ensures Alike(g, Reconciled(g, m, explicit, boot, ans), n)
  {
    hide Started, Stopped, Alike, Put, Dropped;
    AlikeItself(g, n);
    var h := Watching(g, m);
    WatchingIsThere(g, m);
    PutElsewhere(g, m, n, UNWATCHED);
    if m in g.watched { StoppedElsewhere(g, m, n); }
    PutElsewhere(h, m, n, h.watched[m].(state := Running, pid := ans.holder));
    AlikeTwice(g, h, Put(h, m, h.watched[m].(state := Running, pid := ans.holder)), n);
    if m in g.records {
      StartedElsewhere(h, m, g.records[m], ans, n);
      AlikeTwice(g, h, Started(h, m, g.records[m], ans), n);
    }
  }

  lemma WatchingIsThere(g: Model, m: string)
    ensures m in Watching(g, m).watched
  {
  }

  lemma AlikeTwice(f: Model, g: Model, h: Model, n: string)
    requires Alike(f, g, n) && Alike(g, h, n)
    ensures Alike(f, h, n)
  {
  }

  lemma {:induction false} WalkElsewhere(g: Model, order: seq<string>, explicit: bool, boot: bool,
                                         ans: string -> Answers, n: string)
    requires n !in order
    ensures Alike(g, ReconciledAll(g, order, explicit, boot, ans), n)
  {
    hide Reconciled, Alike;
    if order == [] {
      AlikeItself(g, n);
    } else {
      var front, last := order[..|order| - 1], order[|order| - 1];
      WalkElsewhere(g, front, explicit, boot, ans, n);
      var before := ReconciledAll(g, front, explicit, boot, ans);
      ReconciledElsewhere(before, last, explicit, boot, ans(last), n);
      AlikeTwice(g, before, Reconciled(before, last, explicit, boot, ans(last)), n);
    }
  }

  lemma AlikeItself(g: Model, n: string)
    ensures Alike(g, g, n)
  {
  }

  /** What is decided of a name depends on how the name stands, and how it stands afterwards on what is decided. */
  lemma BroughtAlike(g: Model, f: Model, h: Model, i: Model, n: string, explicit: bool, boot: bool, ans: Answers)
    requires Alike(g, f, n) && Alike(h, i, n) && Brought(f, h, n, explicit, boot, ans)
    ensures Brought(g, i, n, explicit, boot, ans)
  {
    AppearsAlike(g, f, h, i, n);
    hide Appears;
  }

  lemma AppearsAlike(g: Model, f: Model, h: Model, i: Model, n: string)
    requires Alike(g, f, n) && Alike(h, i, n)
    ensures Appears(f, h, n) <==> Appears(g, i, n)
  {
    if Appears(f, h, n) {
      var run :| (n, run) in h.cores && (n, run) !in f.cores;
      assert (n, run) in i.cores && (n, run) !in g.cores;
    }
    if Appears(g, i, n) {
      var run :| (n, run) in i.cores && (n, run) !in g.cores;
      assert (n, run) in h.cores && (n, run) !in f.cores;
    }
  }

  lemma SettledAlike(g: Model, h: Model, n: string)
    requires Alike(g, h, n) && Settled(g, n)
    ensures Settled(h, n)
  {
  }

  lemma {:induction false} WalkDecides(g: Model, order: seq<string>, explicit: bool, boot: bool, ans: string -> Answers,
                                       n: string)
    requires Settled(g, n) && n in order && forall i, j :: 0 <= i < j < |order| ==> order[i] != order[j]
    ensures Brought(g, ReconciledAll(g, order, explicit, boot, ans), n, explicit, boot, ans(n))
  {
    hide Reconciled, Alike, Settled, Brought;
    var front, last := order[..|order| - 1], order[|order| - 1];
    var before, after := ReconciledAll(g, front, explicit, boot, ans), ReconciledAll(g, order, explicit, boot, ans);
    assert order == front + [last];
    AlikeItself(g, n);
    AlikeItself(after, n);
    if n == last {
      WalkElsewhere(g, front, explicit, boot, ans, n);
      SettledAlike(g, before, n);
      ReconciledDecides(before, n, explicit, boot, ans(n));
      BroughtAlike(g, before, after, after, n, explicit, boot, ans(n));
    } else {
      WalkDecides(g, front, explicit, boot, ans, n);
      ReconciledElsewhere(before, last, explicit, boot, ans(last), n);
      BroughtAlike(g, g, before, after, n, explicit, boot, ans(n));
    }
  }

  // ----- What each event does -----

  /** A wake, about one name or about all, decides of each it is about by its record and nothing else. */
  lemma WakesDecide(g: Model, e: Event, n: string)
    requires Inv(g) && Possible(g, e)
    requires (e.Wake? && e.name == n)
             || (e.WakeAll? && n in e.order && EachOnce(e))
    ensures Brought(g, Next(g, e), n, e.explicit, e.WakeAll? && e.boot, if e.Wake? then e.answers else e.answersOf(n))
  {
    hide Reconciled, ReconciledAll, Brought;
    InvSettles(g, n);
    match e
    case Wake(_, explicit, ans) => ReconciledDecides(g, n, explicit, false, ans);
    case WakeAll(order, explicit, boot, ans) => WalkDecides(g, order, explicit, boot, ans, n);
  }

  lemma AlikeAppearsNot(g: Model, h: Model, n: string)
    requires Alike(g, h, n)
    ensures !Appears(g, h, n) && !Asked(g, h, n)
  {
  }

  /** What is left when a Core has ended, before the record is looked at or the failure is counted. */
  ghost function Reaped(g: Model, n: string): Model
    requires n in g.watched
  {
    Put(g, n, g.watched[n].(cmd := false, pid := 0)).(cores := g.cores - {(n, g.watched[n].run)})
  }

  /** And when that was asked for. */
  ghost function Forgotten(g: Model, n: string): Model
    requires n in g.watched
  {
    var h := Dropped(Reaped(g, n), n);
    if g.watched[n].ephemeral then h.(records := h.records - {n}) else h
  }

  lemma ExitIsNoStart(g: Model, n: string, ans: Answers)
    requires Inv(g) && Live(g, n) && !(g.watched[n].state == Stopping && !g.watched[n].silent)
    ensures !Appears(g, Ended(g, n, ans), n)
  {
  }

  lemma ForgottenIsGone(g: Model, n: string)
    requires Inv(g) && Live(g, n)
    ensures forall run :: (n, run) !in Forgotten(g, n).cores
    ensures g.watched[n].run <= g.runs && Forgotten(g, n).runs == g.runs
  {
    assert Here(g, n);
    forall run
      ensures (n, run) !in Forgotten(g, n).cores
    {
      if (n, run) in g.cores { assert (n, run).0 == n; }
    }
  }

  /** Executions are numbered on. */
  lemma AppearsLater(g: Model, n: string, explicit: bool, boot: bool, ans: Answers)
    requires forall run :: (n, run) !in g.cores
    ensures forall run :: (n, run) in Reconciled(g, n, explicit, boot, ans).cores ==> run > g.runs
  {
  }

  lemma OrderlyExit(g: Model, n: string, ans: Answers)
    requires Inv(g) && Live(g, n) && g.watched[n].state == Stopping && !g.watched[n].silent
    ensures var h := Ended(g, n, ans);
            && (Appears(g, h, n) <==> !g.watched[n].ephemeral && Wanted(g, n, false) && Startable(ans))
            && (g.watched[n].ephemeral ==> n !in h.watched && n !in h.records)
            && (!g.watched[n].ephemeral ==> Brought(Forgotten(g, n), h, n, false, false, ans))
  {
    var mid := Forgotten(g, n);
    var h := Reconciled(mid, n, false, false, ans);
    ForgottenIsGone(g, n);
    AppearsLater(mid, n, false, false, ans);
    ReconciledDecides(mid, n, false, false, ans);
    SameForgotten(g, n, ans);
    hide Reconciled, Decided, Ended;
    if Appears(mid, h, n) {
      var run :| (n, run) in h.cores && (n, run) !in mid.cores;
      assert run > g.runs;
      if (n, run) in g.cores { CoreIsNumbered(g, n, run); }
      assert (n, run) in h.cores && (n, run) !in g.cores;
    }
    if Appears(g, h, n) {
      var run :| (n, run) in h.cores && (n, run) !in g.cores;
      assert (n, run) in h.cores && (n, run) !in mid.cores;
    }
  }

  lemma SameForgotten(g: Model, n: string, ans: Answers)
    requires n in g.watched && g.watched[n].state == Stopping && !g.watched[n].silent
    ensures Ended(g, n, ans) == Reconciled(Forgotten(g, n), n, false, false, ans)
  {
    var w := g.watched[n];
    var h := Put(g, n, w.(cmd := false, pid := 0)).(cores := g.cores - {(n, w.run)});
    assert Dropped(if w.ephemeral then h.(records := h.records - {n}) else h, n) == Forgotten(g, n);
  }

  lemma CoreIsNumbered(g: Model, n: string, run: nat)
    requires Inv(g) && (n, run) in g.cores
    ensures run <= g.runs && Live(g, n) && g.watched[n].run == run
  {
    assert Here(g, n);
  }

  lemma RetryAppears(g: Model, t: Timer, ans: Answers)
    requires Inv(g) && t in g.timers && t.alarm.Retry? && Awaits(g, t)
    ensures var h := Next(g, Fire(t, ans));
            && (Appears(g, h, t.name) <==> Wanted(g, t.name, false) && Startable(ans))
            && Decided(g, h, t.name, false, false, ans)
  {
    var n := t.name;
    var f := g.(timers := g.timers - multiset{t});
    var mid := Put(f, n, f.watched[n].(state := Unset));
    InvSettles(g, n);
    assert Here(g, n);
    ReconciledDecides(mid, n, false, false, ans);
    var h := Next(g, Fire(t, ans));
    assert h == Reconciled(mid, n, false, false, ans);
    hide Reconciled;
    if Appears(mid, h, n) {
      var run :| (n, run) in h.cores && (n, run) !in mid.cores;
      assert (n, run) in h.cores && (n, run) !in g.cores;
    }
    if Appears(g, h, n) {
      var run :| (n, run) in h.cores && (n, run) !in g.cores;
      assert (n, run) in h.cores && (n, run) !in mid.cores;
    }
  }

  lemma OtherTimersStartNothing(g: Model, t: Timer, ans: Answers, n: string)
    requires Inv(g) && t in g.timers
    requires !(t.alarm.Retry? && t.name == n && Awaits(g, t))
    ensures !Appears(g, Next(g, Fire(t, ans)), n)
  {
  }

  lemma OtherExitsStartNothing(g: Model, m: string, ans: Answers, n: string)
    requires m in g.watched && m != n
    ensures !Appears(g, Ended(g, m, ans), n)
  {
  }

  /** A Core of a name appears at an event exactly where the event has the name's record looked at with nothing of
      the name alive and nothing holding it back, the record wants it up, and the outside lets it start. */
  lemma CoresAppearExactlyWhen(g: Model, e: Event, n: string)
    requires Inv(g) && Possible(g, e)
    requires EachOnce(e)
    ensures Appears(g, Next(g, e), n)
            <==> Consulted(g, e, n).Some? && Wanted(g, n, Consulted(g, e, n).value.0)
                 && Startable(Consulted(g, e, n).value.1)
  {
    match e
    case Wake(m, explicit, ans) =>
      if m == n {
        WakesDecide(g, e, n);
      } else {
        ReconciledElsewhere(g, m, explicit, false, ans, n);
        AlikeAppearsNot(g, Next(g, e), n);
      }
    case WakeAll(order, explicit, boot, ans) =>
      if n in order {
        WakesDecide(g, e, n);
      } else {
        WalkElsewhere(g, order, explicit, boot, ans, n);
        AlikeAppearsNot(g, Next(g, e), n);
      }
    case Exited(m, run, ans) =>
      CoreIsNumbered(g, m, run);
      if m != n { OtherExitsStartNothing(g, m, ans, n); }
      else if g.watched[n].state == Stopping && !g.watched[n].silent { OrderlyExit(g, n, ans); }
      else { ExitIsNoStart(g, n, ans); }
    case Fire(t, ans) =>
      if Consulted(g, e, n).Some? { RetryAppears(g, t, ans); } else { OtherTimersStartNothing(g, t, ans, n); }
    case Beat(_, _, _) =>
    case Edit(_, _) =>
  }

  /** A Core is asked to stop at an event exactly where a wake finds that its record does not want it, or a silence
      finds that no beat came since it was set. */
  lemma CoresAreAskedExactlyWhen(g: Model, e: Event, n: string)
    requires Inv(g) && Possible(g, e)
    requires EachOnce(e)
    ensures Asked(g, Next(g, e), n)
            <==> Live(g, n) && g.watched[n].state != Stopping
                 && (|| (e.Wake? && e.name == n && !Wanted(g, n, false))
                     || (e.WakeAll? && n in e.order && !Wanted(g, n, e.boot))
                     || (e.Fire? && e.timer.name == n && e.timer.run == g.watched[n].run
                         && g.watched[n].state == Observable
                         && e.timer.alarm == Silence(g.watched[n].beats)))
  {
    InvSettles(g, n);
    match e
    case Wake(m, explicit, ans) =>
      if m == n {
        WakesDecide(g, e, n);
      } else {
        ReconciledElsewhere(g, m, explicit, false, ans, n);
        AlikeAppearsNot(g, Next(g, e), n);
      }
    case WakeAll(order, explicit, boot, ans) =>
      if n in order {
        WakesDecide(g, e, n);
      } else {
        WalkElsewhere(g, order, explicit, boot, ans, n);
        AlikeAppearsNot(g, Next(g, e), n);
      }
    case Exited(m, run, ans) =>
      CoreIsNumbered(g, m, run);
      ExitAsksNobody(g, m, ans, n);
    case Fire(t, ans) => TimerAsks(g, t, ans, n);
    case Beat(_, _, _) =>
    case Edit(_, _) =>
  }

  lemma ExitAsksNobody(g: Model, m: string, ans: Answers, n: string)
    requires Inv(g) && Live(g, m)
    ensures !Asked(g, Ended(g, m, ans), n)
  {
    hide Reconciled, Failed;
    if m != n {
      EndedElsewhere(g, m, ans, n);
      AlikeAppearsNot(g, Ended(g, m, ans), n);
    } else if g.watched[m].state != Stopping || g.watched[m].silent {
      FailedIsDown(Reaped(g, m), m);
    }
  }

  lemma FailedIsDown(g: Model, n: string)
    requires n in g.watched
    ensures n in Failed(g, n).watched ==> Failed(g, n).watched[n].state == Waiting
  {
    hide Backoff.WaitFor;
  }

  lemma EndedElsewhere(g: Model, m: string, ans: Answers, n: string)
    requires m in g.watched && m != n
    ensures Alike(g, Ended(g, m, ans), n)
  {
    hide Reconciled, Failed;
    if g.watched[m].state == Stopping && !g.watched[m].silent {
      SameForgotten(g, m, ans);
      ReconciledElsewhere(Forgotten(g, m), m, false, false, ans, n);
    } else {
      FailedElsewhere(Reaped(g, m), m, n);
    }
  }

  lemma TimerAsks(g: Model, t: Timer, ans: Answers, n: string)
    requires Inv(g) && t in g.timers && Settled(g, n)
    ensures Asked(g, Next(g, Fire(t, ans)), n)
            <==> Live(g, n) && t.name == n && t.run == g.watched[n].run && g.watched[n].state == Observable
                 && t.alarm == Silence(g.watched[n].beats)
  {
    assert Here(g, t.name);
    var h := Next(g, Fire(t, ans));
    if !t.alarm.Retry? {
      TimersDecide(g, t, ans);
      hide Fired;
    } else if t.name != n && Awaits(g, t) {
      RetryElsewhere(g, t, ans, n);
    } else {
      assert t.name == n ==> !Live(g, n) || h.watched == g.watched;
    }
  }

  lemma RetryElsewhere(g: Model, t: Timer, ans: Answers, n: string)
    requires t.alarm.Retry? && t in g.timers && t.name != n && Awaits(g, t)
    ensures !Asked(g, Next(g, Fire(t, ans)), n)
  {
    var f := g.(timers := g.timers - multiset{t});
    var mid := Put(f, t.name, f.watched[t.name].(state := Unset));
    ReconciledElsewhere(mid, t.name, false, false, ans, n);
    AlikeAppearsNot(mid, Reconciled(mid, t.name, false, false, ans), n);
    hide Reconciled;
  }

  /** A Core's end that was asked for has the record looked at, unless the run was not declared: then its record goes
      too. Any other end is a failure: a declared instance waits, once more than before, and the record of another
      says that it failed. */
  lemma ExitsDecide(g: Model, n: string, run: nat, ans: Answers)
    requires Inv(g) && (n, run) in g.cores
    ensures n in g.watched && g.watched[n].run == run
    ensures var h := Next(g, Exited(n, run, ans));
            var w := g.watched[n];
            && (n, run) !in h.cores
            && (w.state == Stopping && !w.silent && w.ephemeral ==> n !in h.watched && n !in h.records)
            && (w.state == Stopping && !w.silent && !w.ephemeral ==>
                  Brought(Forgotten(g, n), h, n, false, false, ans))
            && (!(w.state == Stopping && !w.silent) && w.ephemeral ==>
                  && n !in h.watched
                  && h.records == if n in g.records then g.records[n := g.records[n].(failed := true)] else g.records)
            && (!(w.state == Stopping && !w.silent) && !w.ephemeral ==>
                  && n in h.watched && h.watched[n].state == Waiting && !h.watched[n].cmd
                  && h.watched[n].attempt == w.attempt + 1 && h.watched[n].run == run && h.records == g.records
                  && h.watched[n].wait == Backoff.WaitFor(w.policy.backoff, w.policy.ceiling, w.attempt + 1)
                  && Timer(Retry, n, run, h.watched[n].wait) in h.timers)
  {
    CoreIsNumbered(g, n, run);
    if g.watched[n].state == Stopping && !g.watched[n].silent {
      OrderlyExit(g, n, ans);
      ForgottenIsGone(g, n);
      AppearsLater(Forgotten(g, n), n, false, false, ans);
      SameForgotten(g, n, ans);
    }
  }

  /** A beat counts only from the watched process, and only while that is starting or up. */
  lemma StrayBeatsChangeNothing(g: Model, n: string, pid: nat, stopping: bool)
    requires !(n in g.watched && g.watched[n].pid == pid != 0 && g.watched[n].state in {Starting, Observable})
    ensures Next(g, Beat(n, pid, stopping)) == g
  {
  }

  /** From a Core that is starting it makes it observable, with its stability to be waited for; from one that is up
      it is counted, and silence measured anew; and a Core that says so is stopping, without having been asked. */
  lemma BeatsDecide(g: Model, n: string, pid: nat, stopping: bool)
    requires n in g.watched && g.watched[n].pid == pid != 0 && g.watched[n].state in {Starting, Observable}
    ensures var h, w := Next(g, Beat(n, pid, stopping)), g.watched[n];
            h == if stopping then g.(watched := g.watched[n := w.(state := Stopping, silent := false)])
                 else g.(watched := g.watched[n := if w.state == Starting
                                                   then w.(state := Observable, silent := false, beats := w.beats + 1)
                                                   else w.(beats := w.beats + 1)],
                         timers := g.timers
                                   + (if w.state == Starting then multiset{Timer(Stable, n, w.run, w.policy.stability)}
                                      else multiset{})
                                   + multiset{Timer(Silence(w.beats + 1), n, w.run,
                                                    w.policy.interval * (w.policy.tolerance + 1))})
  {
    var w := g.watched[n];
    var v := w.(state := Observable, silent := false);
    assert g.watched[n := v][n := v.(beats := w.beats + 1)] == g.watched[n := v.(beats := w.beats + 1)];
  }

  /** A timer of the execution a watch is in: a Core that never became observable is killed, and so is one that did not
      stop; stability clears the attempts; silence has the Core asked to stop. In any other state nothing happens. */
  lemma TimersDecide(g: Model, t: Timer, ans: Answers)
    requires Inv(g) && t in g.timers && !t.alarm.Retry?
    ensures var f := g.(timers := g.timers - multiset{t});
            var h := Next(g, Fire(t, ans));
            if !(t.name in g.watched && g.watched[t.name].run == t.run) then h == f
            else
              var w := g.watched[t.name];
              match t.alarm
              case NoBeat =>
                h == if w.state == Starting then f.(watched := f.watched[t.name := w.(killed := true)]) else f
              case Kill =>
                h == if w.state == Stopping && w.cmd then f.(watched := f.watched[t.name := w.(killed := true)]) else f
              case Stable =>
                h == if w.state == Observable then f.(watched := f.watched[t.name := w.(attempt := 0)]) else f
              case Silence(beats) =>
                h == if w.state == Observable && w.beats == beats
                     then f.(watched := f.watched[t.name := w.(state := Stopping, silent := true, asked := true)],
                             timers := f.timers + multiset{Timer(Kill, t.name, w.run, w.policy.stop)})
                     else f
              case Retry => true
  {
  }

  /** In every run, at every event: a Core appears exactly where the record that the event has looked at wants one,
      nothing of the name is alive or held back, and the outside lets it start; and one is asked to stop exactly
      where a wake finds that its record does not want it, or a silence that it is silent. */
  lemma EveryRunGoesByTheRecords(states: seq<Model>, events: seq<Event>, i: nat, n: string)
    requires IsRun(states, events) && i < |events|
    requires EachOnce(events[i])
    ensures var g, h, e := states[i], states[i + 1], events[i];
            && (Appears(g, h, n) <==>
                  && Consulted(g, e, n).Some? && Wanted(g, n, Consulted(g, e, n).value.0)
                  && Startable(Consulted(g, e, n).value.1))
            && (Asked(g, h, n) <==>
                  && Live(g, n) && g.watched[n].state != Stopping
                  && (|| (e.Wake? && e.name == n && !Wanted(g, n, false))
                      || (e.WakeAll? && n in e.order && !Wanted(g, n, e.boot))
                      || (e.Fire? && e.timer.name == n && e.timer.run == g.watched[n].run
                          && g.watched[n].state == Observable && e.timer.alarm == Silence(g.watched[n].beats))))
  {
    hide Inv, Appears, Asked, Consulted, Wanted;
    EveryStateIsSound(states, events, i);
    CoresAppearExactlyWhen(states[i], events[i], n);
    CoresAreAskedExactlyWhen(states[i], events[i], n);
  }
}
