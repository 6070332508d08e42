/** The Core's publish and subscribe: it numbers events, keeps what is current at each level, and feeds
    bounded queues. Overflowing is announced to its subscriber by a new snapshot. Publishing, subscribing, the
    two locked sections of taking the next delivery and the two of closing are one step each. */
module Bus {
  import opened Prelude
  import opened Events

  const BOUND := 256

  datatype Snapshot = Snapshot(at: nat, events: seq<Event>)

  datatype Delivery = Told(event: Event) | Picture(snapshot: Snapshot)

  /** A subscriber's queue, and everything it was given so far: the snapshot it opened with, then what its
      calls returned. */
  datatype Subscriber = Subscriber(
    filter: Filter,
    queue: seq<Event>,
    lost: bool,
    closed: bool,
    given: seq<Delivery>
  )

  /** The bus, with every event published as its log. `open` are the subscribers it still feeds. */
  datatype World<K> = World(log: seq<Event>, current: map<LevelKey, Event>, open: set<K>, subs: map<K, Subscriber>)

  // ----- What the log determines -----

  ghost predicate Numbered(log: seq<Event>) {
    forall i :: 0 <= i < |log| ==> log[i].seqno == i + 1
  }

  /** At each level, the newest of its events. */
  ghost function Latest(log: seq<Event>): map<LevelKey, Event> {
    if log == [] then map[]
    else
      var e := log[|log| - 1];
      var before := Latest(log[..|log| - 1]);
      if IsLevel(e.typ) then before[LevelOf(e) := e] else before
  }

  ghost predicate Current(e: Event, table: map<LevelKey, Event>) {
    IsLevel(e.typ) && LevelOf(e) in table && table[LevelOf(e)] == e
  }

  /** The events of the log which are some level's current one and which the filter selects, in order. */
  ghost function Kept(log: seq<Event>, table: map<LevelKey, Event>, f: Filter): seq<Event> {
    if log == [] then []
    else
      var e := log[|log| - 1];
      Kept(log[..|log| - 1], table, f) + (if Current(e, table) && f.Selects(e) then [e] else [])
  }

  /** The selected events published after sequence `a`, in order. */
  ghost function SelectedAfter(log: seq<Event>, a: nat, f: Filter): seq<Event> {
    if |log| <= a then []
    else
      var e := log[|log| - 1];
      SelectedAfter(log[..|log| - 1], a, f) + (if f.Selects(e) then [e] else [])
  }

  ghost function SnapshotOf(log: seq<Event>, f: Filter): Snapshot {
    Snapshot(|log|, Kept(log, Latest(log), f))
  }

  // ----- Steps -----

  datatype Step<K> =
    | Publish(event: Event)
    | Subscribe(key: K, filter: Filter)
    | Take(key: K)
    | Announce(key: K)
    | Unregister(key: K)
    | MarkClosed(key: K)

  ghost function Offered(s: Subscriber, e: Event): Subscriber {
    if |s.queue| >= BOUND then s.(lost := true)
    else if s.lost then s
    else s.(queue := s.queue + [e])
  }

  ghost function Numbering(e: Event, log: seq<Event>): Event { e.(seqno := |log| + 1) }

  ghost function Fed<K>(w: World<K>, e: Event): map<K, Subscriber> {
    map k | k in w.subs :: if k in w.open && w.subs[k].filter.Selects(e) then Offered(w.subs[k], e) else w.subs[k]
  }

  /** The first locked section of taking a delivery: the oldest queued event, unless the subscription closed. */
  ghost function Taken(s: Subscriber): Subscriber {
    if s.closed || s.queue == [] then s
    else s.(queue := s.queue[1..], given := s.given + [Told(s.queue[0])])
  }

  /** The second, under both locks: the loss is checked again, and announced with a fresh snapshot. */
  ghost function Announced(s: Subscriber, log: seq<Event>): Subscriber {
    if !s.lost || s.queue != [] then s
    else s.(lost := false, given := s.given + [Picture(SnapshotOf(log, s.filter))])
  }

  ghost function Opened(f: Filter, log: seq<Event>): Subscriber {
    Subscriber(f, [], false, false, [Picture(SnapshotOf(log, f))])
  }

  ghost function Next<K>(w: World<K>, step: Step<K>): World<K> {
    match step
    case Publish(e) =>
      if !Fits(e) then w
      else
        var n := Numbering(e, w.log);
        w.(log := w.log + [n], current := if IsLevel(n.typ) then w.current[LevelOf(n) := n] else w.current,
           subs := Fed(w, n))
    case Subscribe(k, f) => if k in w.subs then w else w.(open := w.open + {k}, subs := w.subs[k := Opened(f, w.log)])
    case Take(k) => if k !in w.subs then w else w.(subs := w.subs[k := Taken(w.subs[k])])
    case Announce(k) => if k !in w.subs then w else w.(subs := w.subs[k := Announced(w.subs[k], w.log)])
    case Unregister(k) => w.(open := w.open - {k})
    case MarkClosed(k) => if k !in w.subs then w else w.(subs := w.subs[k := w.subs[k].(closed := true)])
  }

  ghost function Empty<K>(): World<K> { World([], map[], {}, map[]) }

  ghost function Run<K>(steps: seq<Step<K>>): World<K> {
    if steps == [] then Empty() else Next(Run(steps[..|steps| - 1]), steps[|steps| - 1])
  }

  // ----- What a subscriber was given -----

  /** The sequence of the last snapshot given. */
  ghost function LastAt(given: seq<Delivery>): nat {
    if given == [] then 0
    else if given[|given| - 1].Picture? then given[|given| - 1].snapshot.at
    else LastAt(given[..|given| - 1])
  }

  /** The events given since the last snapshot. */
  ghost function Since(given: seq<Delivery>): seq<Event> {
    if given == [] || given[|given| - 1].Picture? then []
    else Since(given[..|given| - 1]) + [given[|given| - 1].event]
  }

  /** Every snapshot given is the bus's own picture at its sequence, and the events given after it are the
      first of those selected that were published after it, none missed and none covered by the next. */
  ghost predicate Faithful(given: seq<Delivery>, log: seq<Event>, f: Filter) {
    if given == [] then true
    else
      var before := given[..|given| - 1];
      && Faithful(before, log, f)
      && match given[|given| - 1]
         case Picture(s) =>
           && LastAt(before) <= s.at <= |log|
           && s == SnapshotOf(log[..s.at], f)
           && (before != [] ==> Since(before) <= SelectedAfter(log[..s.at], LastAt(before), f))
         case Told(e) =>
           && before != []
           && LastAt(before) <= |log|
           && Since(before) + [e] <= SelectedAfter(log, LastAt(before), f)
  }

  ghost predicate InStep(s: Subscriber, open: bool, log: seq<Event>) {
    && s.given != []
    && Faithful(s.given, log, s.filter)
    && LastAt(s.given) <= |log|
    && (var all := SelectedAfter(log, LastAt(s.given), s.filter);
        var sofar := Since(s.given) + s.queue;
        && sofar <= all
        && (open && !s.lost ==> sofar == all)
        && (s.lost ==> |sofar| < |all|))
    && |s.queue| <= BOUND
  }

  ghost predicate Inv<K>(w: World<K>) {
    && Numbered(w.log)
    && (forall e :: e in w.log ==> Fits(e))
    && w.current == Latest(w.log)
    && forall k :: k in w.subs ==> InStep(w.subs[k], k in w.open, w.log)
  }

  lemma {:induction false} SelectedGrows(log: seq<Event>, e: Event, a: nat, f: Filter)
    requires a <= |log|
    ensures SelectedAfter(log + [e], a, f) == SelectedAfter(log, a, f) + (if f.Selects(e) then [e] else [])
  {
    assert (log + [e])[..|log + [e]| - 1] == log;
  }

  lemma {:induction false} FaithfulGrows(given: seq<Delivery>, log: seq<Event>, e: Event, f: Filter)
    requires Faithful(given, log, f)
    ensures Faithful(given, log + [e], f)
  {
    if given != [] {
      var before := given[..|given| - 1];
      FaithfulGrows(before, log, e, f);
      match given[|given| - 1]
      case Picture(s) => assert (log + [e])[..s.at] == log[..s.at];
      case Told(d) => SelectedGrows(log, e, LastAt(before), f);
    }
  }

  lemma {:induction false} LastAtInLog(given: seq<Delivery>, log: seq<Event>, f: Filter)
    requires Faithful(given, log, f)
    ensures LastAt(given) <= |log|
  {
    if given != [] { LastAtInLog(given[..|given| - 1], log, f); }
  }

  lemma PublishInStep(s: Subscriber, open: bool, log: seq<Event>, e: Event)
    requires InStep(s, open, log)
    ensures InStep(if open && s.filter.Selects(e) then Offered(s, e) else s, open, log + [e])
  {
    FaithfulGrows(s.given, log, e, s.filter);
    SelectedGrows(log, e, LastAt(s.given), s.filter);
    assert Since(s.given) + (s.queue + [e]) == (Since(s.given) + s.queue) + [e];
  }

  lemma TakeInStep(s: Subscriber, open: bool, log: seq<Event>)
    requires InStep(s, open, log)
    ensures InStep(Taken(s), open, log)
  {
    if !s.closed && s.queue != [] {
      var t := Taken(s);
      assert t.given[..|t.given| - 1] == s.given;
      assert Since(t.given) + t.queue == Since(s.given) + s.queue;
      assert Since(s.given) + [s.queue[0]] <= Since(s.given) + s.queue;
    }
  }

  lemma AnnounceInStep(s: Subscriber, open: bool, log: seq<Event>)
    requires InStep(s, open, log)
    ensures InStep(Announced(s, log), open, log)
  {
    var t := Announced(s, log);
    if t != s {
      assert t.given[..|t.given| - 1] == s.given;
      assert log[..|log|] == log;
      assert Since(s.given) + s.queue == Since(s.given);
    }
  }

  lemma OpenedInStep(f: Filter, open: bool, log: seq<Event>)
    ensures InStep(Opened(f, log), open, log)
  {
    var s := Opened(f, log);
    assert s.given[..|s.given| - 1] == [];
    assert log[..|log|] == log;
  }

  lemma PublishKeepsInv<K>(w: World<K>, e: Event)
    requires Inv(w) && Fits(e)
    ensures Inv(Next(w, Publish(e)))
  {
    var n := Numbering(e, w.log);
    assert (w.log + [n])[..|w.log|] == w.log;
    forall k | k in w.subs
      ensures InStep(Next(w, Publish(e)).subs[k], k in w.open, w.log + [n])
    {
      PublishInStep(w.subs[k], k in w.open, w.log, n);
    }
  }

  lemma NextKeepsInv<K>(w: World<K>, step: Step<K>)
    requires Inv(w)
    ensures Inv(Next(w, step))
  {
    match step
    case Publish(e) => if Fits(e) { PublishKeepsInv(w, e); }
    case Subscribe(k, f) => OpenedInStep(f, true, w.log);
    case Take(k) => if k in w.subs { TakeInStep(w.subs[k], k in w.open, w.log); }
    case Announce(k) => if k in w.subs { AnnounceInStep(w.subs[k], k in w.open, w.log); }
    case Unregister(k) =>
    case MarkClosed(k) =>
  }

  lemma {:induction false} RunKeepsInv<K>(steps: seq<Step<K>>)
    ensures Inv(Run(steps))
  {
    if steps != [] {
      RunKeepsInv(steps[..|steps| - 1]);
      NextKeepsInv(Run(steps[..|steps| - 1]), steps[|steps| - 1]);
    }
  }

  /** A queue never holds more than its bound, and an overflow is announced only where a selected event
      was neither given nor queued. */
  lemma OverflowsAreReal<K>(steps: seq<Step<K>>, k: K)
    requires k in Run(steps).subs
    ensures var w := Run(steps);
            var s := w.subs[k];
            && |s.queue| <= BOUND
            && (s.lost ==> |Since(s.given)| + |s.queue| < |SelectedAfter(w.log, LastAt(s.given), s.filter)|)
  {
    RunKeepsInv(steps);
  }

  /** `t` is a subscriber some steps after it was `s`, and lost: what it was given since is what was queued then,
      in order, and after that a snapshot, and until the snapshot nothing else was queued. */
  ghost predicate Owed(s: Subscriber, t: Subscriber) {
    var n, q := |s.given|, s.queue;
    && s.given <= t.given
    && (forall m :: 0 <= m < |q| && n + m < |t.given| ==> t.given[n + m] == Told(q[m]))
    && (|t.given| > n + |q| ==> t.given[n + |q|].Picture?)
    && (|t.given| <= n + |q| ==> t.lost && t.queue == q[|t.given| - n..])
  }

  lemma StaysOwed<K>(w: World<K>, step: Step<K>, k: K, s: Subscriber)
    requires k in w.subs && Owed(s, w.subs[k])
    ensures k in Next(w, step).subs && Owed(s, Next(w, step).subs[k])
  {
    var t, u := w.subs[k], Next(w, step).subs[k];
    assert u.given == t.given || (|u.given| == |t.given| + 1 && u.given[..|t.given|] == t.given);
    assert forall i :: 0 <= i < |t.given| ==> u.given[i] == t.given[i];
    if step == Take(k) && u != t { assert t.queue[0] == u.given[|t.given|].event; }
  }

  /** A subscriber marked lost is given what was already queued, and then is told of the loss, before anything
      that was published later. */
  lemma {:induction false} LossIsToldFirst<K>(steps: seq<Step<K>>, more: seq<Step<K>>, k: K)
    requires k in Run(steps).subs && Run(steps).subs[k].lost
    ensures k in Run(steps + more).subs && Owed(Run(steps).subs[k], Run(steps + more).subs[k])
  {
    hide Next, Owed;
    if more == [] {
      assert steps + more == steps;
      NothingOwedYet(Run(steps).subs[k]);
    } else {
      var front := more[..|more| - 1];
      LossIsToldFirst(steps, front, k);
      assert (steps + more)[..|steps + more| - 1] == steps + front;
      StaysOwed(Run(steps + front), more[|more| - 1], k, Run(steps).subs[k]);
    }
  }

  lemma NothingOwedYet(s: Subscriber)
    requires s.lost
    ensures Owed(s, s)
  {
    assert s.queue[0..] == s.queue;
  }

  // ----- What each step does, and when a subscriber is lost -----

  lemma RunsOn<K>(steps: seq<Step<K>>, step: Step<K>)
    ensures Run(steps + [step]) == Next(Run(steps), step)
  {
    assert (steps + [step])[..|steps|] == steps;
  }

  /** An event that does not fit is as if it had not been published. One that fits gets the next number and becomes
      current at its level, and every open subscriber that selects it has it at the end of its queue, or, with
      256 in the queue, is lost; one that is lost already gets nothing, and nobody else is touched. */
  lemma PublishingQueues<K>(steps: seq<Step<K>>, e: Event, k: K)
    requires k in Run(steps).subs
    ensures !Fits(e) ==> Run(steps + [Publish(e)]) == Run(steps)
    ensures var w, t := Run(steps), Run(steps + [Publish(e)]);
            var n := e.(seqno := |w.log| + 1);
            Fits(e) ==>
              && t.log == w.log + [n] && t.open == w.open && t.subs.Keys == w.subs.Keys
              && t.current == (if IsLevel(e.typ) then w.current[LevelOf(n) := n] else w.current)
              && var s := w.subs[k];
                 t.subs[k] == if k !in w.open || !s.filter.Selects(n) then s
                              else if |s.queue| == 256 then s.(lost := true)
                              else if s.lost then s
                              else s.(queue := s.queue + [n])
  {
    RunKeepsInv(steps);
    RunsOn(steps, Publish(e));
  }

  /** Taking gives the oldest event of a queue that has one, to a subscriber that is not closed. */
  lemma TakingGivesTheOldest<K>(steps: seq<Step<K>>, k: K)
    requires k in Run(steps).subs
    ensures var w, t := Run(steps), Run(steps + [Step<K>.Take(k)]);
            && k in t.subs
            && var s, u := w.subs[k], t.subs[k];
               if s.closed || s.queue == [] then t == w
               else s.queue == [s.queue[0]] + u.queue && u.given == s.given + [Told(s.queue[0])]
                    && u.filter == s.filter && u.lost == s.lost && !u.closed
                    && t == w.(subs := w.subs[k := u])
  {
    RunsOn(steps, Step<K>.Take(k));
    hide Run, SnapshotOf, Fits, Fed;
    assert Run(steps).subs[k := Run(steps).subs[k]] == Run(steps).subs;
  }

  /** A loss is announced once the queue is empty, by the picture of the moment, and is then no more. */
  lemma AnnouncingRefreshes<K>(steps: seq<Step<K>>, k: K)
    requires k in Run(steps).subs
    ensures var w, t := Run(steps), Run(steps + [Step<K>.Announce(k)]);
            && k in t.subs
            && var s, u := w.subs[k], t.subs[k];
               if !s.lost || s.queue != [] then t == w
               else && |u.given| == |s.given| + 1 && s.given <= u.given && u.given[|s.given|].Picture?
                    && u.given[|s.given|].snapshot.at == |w.log|
                    && u.filter == s.filter && u.queue == [] && !u.lost && u.closed == s.closed
                    && t == w.(subs := w.subs[k := u])
  {
    RunsOn(steps, Step<K>.Announce(k));
    hide Run, Fits, Fed;
    assert Run(steps).subs[k := Run(steps).subs[k]] == Run(steps).subs;
  }

  /** A new subscription is fed from then on, and opens with the picture of the moment. */
  lemma SubscribingOpens<K>(steps: seq<Step<K>>, k: K, f: Filter)
    requires k !in Run(steps).subs
    ensures var w, t := Run(steps), Run(steps + [Step<K>.Subscribe(k, f)]);
            && k in t.subs && t.open == w.open + {k} && t == w.(open := t.open, subs := w.subs[k := t.subs[k]])
            && var u := t.subs[k];
               && u.filter == f && u.queue == [] && !u.lost && !u.closed
               && |u.given| == 1 && u.given[0].Picture? && u.given[0].snapshot.at == |w.log|
  {
    RunsOn(steps, Step<K>.Subscribe(k, f));
  }

  /** Its end takes two steps: it is fed no more, and it gives no more. */
  lemma ClosingTakesTwoSteps<K>(steps: seq<Step<K>>, k: K)
    requires k in Run(steps).subs
    ensures var w := Run(steps);
            && Run(steps + [Step<K>.Unregister(k)]) == w.(open := w.open - {k})
            && Run(steps + [Step<K>.MarkClosed(k)]) == w.(subs := w.subs[k := w.subs[k].(closed := true)])
  {
    RunsOn(steps, Step<K>.Unregister(k));
    RunsOn(steps, Step<K>.MarkClosed(k));
  }

  /** The step publishes an event that the subscriber is to have and has no room for, with 256 queued. */
  ghost predicate Overfills<K>(w: World<K>, step: Step<K>, k: K) {
    && step.Publish? && Fits(step.event) && k in w.subs && k in w.open && |w.subs[k].queue| == 256
    && w.subs[k].filter.Selects(step.event.(seqno := |w.log| + 1))
  }

  ghost predicate FoundFull<K>(steps: seq<Step<K>>, i: nat, k: K) {
    i < |steps| && Overfills(Run(steps[..i]), steps[i], k)
  }

  ghost predicate NoPicture(given: seq<Delivery>, later: seq<Delivery>) {
    forall j :: |given| <= j < |later| ==> later[j].Told?
  }

  /** What the subscriber was given since step `i` has no snapshot in it. */
  ghost predicate OnlyTold<K>(steps: seq<Step<K>>, i: nat, k: K) {
    && i <= |steps| && k in Run(steps[..i]).subs && k in Run(steps).subs
    && NoPicture(Run(steps[..i]).subs[k].given, Run(steps).subs[k].given)
  }

  lemma StepOnLoss<K>(w: World<K>, step: Step<K>, k: K)
    requires k in w.subs && |w.subs[k].queue| <= 256
    ensures k in Next(w, step).subs
    ensures var s, t := w.subs[k], Next(w, step).subs[k];
            && s.given <= t.given
            && (t.lost <==> (s.lost && NoPicture(s.given, t.given)) || Overfills(w, step, k))
            && (Overfills(w, step, k) ==> t.given == s.given)
  {
    hide SnapshotOf, Fits;
    var s, t := w.subs[k], Next(w, step).subs[k];
    match step
    case Announce(j) => if j == k && s.lost && s.queue == [] { assert t.given[|s.given|].Picture?; }
    case _ =>
  }

  lemma QueueIsBounded<K>(steps: seq<Step<K>>, k: K)
    requires k in Run(steps).subs
    ensures |Run(steps).subs[k].queue| <= 256
  {
    RunKeepsInv(steps);
  }

  lemma {:induction false} StaysSubscribed<K>(steps: seq<Step<K>>, i: nat, k: K)
    requires i <= |steps| && k in Run(steps[..i]).subs
    ensures k in Run(steps).subs && Run(steps[..i]).subs[k].given <= Run(steps).subs[k].given
    decreases |steps|
  {
    hide Next;
    if i < |steps| {
      var front := steps[..|steps| - 1];
      assert front[..i] == steps[..i];
      StaysSubscribed(front, i, k);
      QueueIsBounded(front, k);
      StepOnLoss(Run(front), steps[|steps| - 1], k);
    } else {
      assert steps[..i] == steps;
    }
  }

  lemma NoPictureTwice(a: seq<Delivery>, b: seq<Delivery>, c: seq<Delivery>)
    requires a <= b <= c
    ensures NoPicture(a, c) <==> NoPicture(a, b) && NoPicture(b, c)
  {
    assert forall j :: 0 <= j < |b| ==> b[j] == c[j];
  }

  lemma CarriedOver<K>(front: seq<Step<K>>, last: Step<K>, i: nat, k: K)
    requires i < |front| && k in Run(front).subs
    ensures k in Run(front + [last]).subs
    ensures FoundFull(front + [last], i, k) <==> FoundFull(front, i, k)
    ensures FoundFull(front, i, k) ==>
              (OnlyTold(front + [last], i, k)
               <==> OnlyTold(front, i, k) && NoPicture(Run(front).subs[k].given, Run(front + [last]).subs[k].given))
  {
    hide Next;
    var steps := front + [last];
    assert steps[..i] == front[..i] && steps[i] == front[i];
    RunsOn(front, last);
    QueueIsBounded(front, k);
    StepOnLoss(Run(front), last, k);
    hide Run, Overfills;
    if FoundFull(front, i, k) {
      OverfilledIsThere(Run(front[..i]), front[i], k);
      StaysSubscribed(front, i, k);
      NoPictureTwice(Run(front[..i]).subs[k].given, Run(front).subs[k].given, Run(steps).subs[k].given);
    }
  }

  lemma OverfilledIsThere<K>(w: World<K>, step: Step<K>, k: K)
    requires Overfills(w, step, k)
    ensures k in w.subs
  {
  }

  /** One step more. */
  lemma LossGoesOn<K>(front: seq<Step<K>>, last: Step<K>, k: K)
    requires k in Run(front).subs
    requires Run(front).subs[k].lost <==> exists i: nat :: FoundFull(front, i, k) && OnlyTold(front, i, k)
    ensures k in Run(front + [last]).subs
    ensures Run(front + [last]).subs[k].lost
            <==> exists i: nat :: FoundFull(front + [last], i, k) && OnlyTold(front + [last], i, k)
  {
    hide Next, Run, Overfills, NoPicture;
    var steps := front + [last];
    RunsOn(front, last);
    QueueIsBounded(front, k);
    StepOnLoss(Run(front), last, k);
    assert steps[..|front|] == front && steps[|front|] == last;
    assert FoundFull(steps, |front|, k) <==> Overfills(Run(front), last, k);
    NothingGiven(Run(steps).subs[k].given);
    if Run(steps).subs[k].lost {
      if Overfills(Run(front), last, k) {
        assert FoundFull(steps, |front|, k) && OnlyTold(steps, |front|, k);
      } else {
        var i: nat :| FoundFull(front, i, k) && OnlyTold(front, i, k);
        CarriedOver(front, last, i, k);
        assert FoundFull(steps, i, k) && OnlyTold(steps, i, k);
      }
    }
    if i: nat :| FoundFull(steps, i, k) && OnlyTold(steps, i, k) {
      if i < |front| {
        CarriedOver(front, last, i, k);
        assert FoundFull(front, i, k) && OnlyTold(front, i, k);
      }
    }
  }

  lemma NothingGiven(given: seq<Delivery>)
    ensures NoPicture(given, given)
  {
  }

  lemma NewIsNotLost<K>(w: World<K>, step: Step<K>, k: K)
    requires k !in w.subs && k in Next(w, step).subs
    ensures !Next(w, step).subs[k].lost
  {
  }

  /** A subscriber is lost if and only if, since the last snapshot it was given, an event selected for it was
      published while exactly 256 were in its queue. */
  lemma {:induction false} LostExactlyWhen<K>(steps: seq<Step<K>>, k: K)
    requires k in Run(steps).subs
    ensures Run(steps).subs[k].lost <==> exists i: nat :: FoundFull(steps, i, k) && OnlyTold(steps, i, k)
  {
    hide Next, Overfills, NoPicture;
    if steps != [] {
      var front, last := steps[..|steps| - 1], steps[|steps| - 1];
      assert steps == front + [last];
      if k in Run(front).subs {
        LostExactlyWhen(front, k);
        LossGoesOn(front, last, k);
      } else {
        NewIsNotLost(Run(front), last, k);
        forall i: nat
          ensures !FoundFull(steps, i, k)
        {
          if FoundFull(steps, i, k) {
            assert front[..i] == steps[..i];
            OverfilledIsThere(Run(steps[..i]), steps[i], k);
            StaysSubscribed(front, i, k);
          }
        }
      }
    }
  }

  // ----- The folded view is the bus's own table -----

  ghost function Noted(view: map<LevelKey, Event>, e: Event): map<LevelKey, Event> {
    if IsLevel(e.typ) then view[LevelOf(e) := e] else view
  }

  ghost function Noting(view: map<LevelKey, Event>, events: seq<Event>): map<LevelKey, Event> {
    if events == [] then view else Noted(Noting(view, events[..|events| - 1]), events[|events| - 1])
  }

  /** What a subscriber holds that starts over at every snapshot and notes every event by its level. */
  ghost function Fold(given: seq<Delivery>): map<LevelKey, Event> {
    if given == [] then map[]
    else match given[|given| - 1]
         case Picture(s) => Noting(map[], s.events)
         case Told(e) => Noted(Fold(given[..|given| - 1]), e)
  }

  ghost function View(log: seq<Event>, at: nat, f: Filter): map<LevelKey, Event>
    requires at <= |log|
  {
    Noting(Noting(map[], SnapshotOf(log[..at], f).events), SelectedAfter(log, at, f))
  }

  lemma {:induction false} FoldIsView(given: seq<Delivery>, log: seq<Event>, f: Filter)
    requires given != [] && Faithful(given, log, f) && LastAt(given) <= |log|
    ensures Fold(given) == Noting(Noting(map[], SnapshotOf(log[..LastAt(given)], f).events), Since(given))
  {
    var before := given[..|given| - 1];
    if given[|given| - 1].Told? {
      FoldIsView(before, log, f);
      assert Since(given)[..|Since(given)| - 1] == Since(before);
    }
  }

  lemma {:induction false} KeptElements(log: seq<Event>, table: map<LevelKey, Event>, f: Filter, e: Event)
    ensures e in Kept(log, table, f) <==> e in log && Current(e, table) && f.Selects(e)
  {
    if log != [] {
      KeptElements(log[..|log| - 1], table, f, e);
      assert log == log[..|log| - 1] + [log[|log| - 1]];
    }
  }

  lemma {:induction false} NotingCurrent(events: seq<Event>, table: map<LevelKey, Event>)
    requires forall e :: e in events ==> Current(e, table)
    ensures forall l :: l in Noting(map[], events) ==>
              l in table && Noting(map[], events)[l] == table[l] && table[l] in events
    ensures forall e :: e in events ==> LevelOf(e) in Noting(map[], events)
  {
    if events != [] {
      var before := events[..|events| - 1];
      var last := events[|events| - 1];
      assert last in events && events == before + [last];
      assert Current(last, table);
      NotingCurrent(before, table);
    }
  }

  lemma {:induction false} LatestIsLogged(log: seq<Event>, l: LevelKey)
    requires l in Latest(log)
    ensures Latest(log)[l] in log && IsLevel(Latest(log)[l].typ) && LevelOf(Latest(log)[l]) == l
  {
    var e := log[|log| - 1];
    assert e in log;
    if !(IsLevel(e.typ) && LevelOf(e) == l) { LatestIsLogged(log[..|log| - 1], l); }
  }

  /** A view by levels against the current table: right wherever the current event is selected, and
      otherwise holding nothing but an earlier selected event of the level. */
  ghost predicate Agrees(view: map<LevelKey, Event>, log: seq<Event>, f: Filter) {
    var table := Latest(log);
    && (forall l :: l in table && f.Selects(table[l]) ==> l in view && view[l] == table[l])
    && (forall l :: l in view ==>
          l in table && view[l] in log && f.Selects(view[l]) && IsLevel(view[l].typ) && LevelOf(view[l]) == l)
  }

  lemma SnapshotAgrees(log: seq<Event>, f: Filter)
    ensures Agrees(Noting(map[], SnapshotOf(log, f).events), log, f)
  {
    var table := Latest(log);
    var events := Kept(log, table, f);
    var view := Noting(map[], events);
    forall e ensures e in events <==> e in log && Current(e, table) && f.Selects(e) { KeptElements(log, table, f, e); }
    NotingCurrent(events, table);
    forall l | l in table && f.Selects(table[l])
      ensures l in view && view[l] == table[l]
    {
      LatestIsLogged(log, l);
      assert table[l] in events;
    }
    forall l | l in view
      ensures l in table && view[l] in log && f.Selects(view[l]) && IsLevel(view[l].typ) && LevelOf(view[l]) == l
    {
      LatestIsLogged(log, l);
    }
  }

  lemma AgreesOn(view: map<LevelKey, Event>, log: seq<Event>, e: Event, f: Filter)
    requires Agrees(view, log, f)
    ensures Agrees(if f.Selects(e) then Noted(view, e) else view, log + [e], f)
  {
    assert (log + [e])[..|log + [e]| - 1] == log;
  }

  lemma ViewGrows(log: seq<Event>, e: Event, at: nat, f: Filter)
    requires at <= |log|
    ensures View(log + [e], at, f) == if f.Selects(e) then Noted(View(log, at, f), e) else View(log, at, f)
  {
    assert (log + [e])[..at] == log[..at];
    SelectedGrows(log, e, at, f);
    var all := SelectedAfter(log, at, f);
    if f.Selects(e) {
      assert (all + [e])[..|all + [e]| - 1] == all;
    } else {
      assert all + [] == all;
    }
  }

  lemma {:induction false} ViewAgrees(log: seq<Event>, at: nat, f: Filter)
    requires at <= |log|
    ensures Agrees(View(log, at, f), log, f)
  {
    if at == |log| {
      assert log[..at] == log;
      SnapshotAgrees(log, f);
    } else {
      var before := log[..|log| - 1];
      var e := log[|log| - 1];
      assert log == before + [e];
      ViewAgrees(before, at, f);
      ViewGrows(before, e, at, f);
      AgreesOn(View(before, at, f), before, e, f);
    }
  }

  ghost function Filtered(table: map<LevelKey, Event>, f: Filter): map<LevelKey, Event> {
    map l | l in table && f.Selects(table[l]) :: table[l]
  }

  /** In every run, a subscriber the bus still feeds, with nothing queued and nothing lost, holds by folding
      exactly the current event at each level whose current event its filter selects; anything else it holds
      is at a level whose current event its filter does not select. */
  lemma FoldedViewIsCurrent<K>(steps: seq<Step<K>>, k: K)
    requires k in Run(steps).subs && k in Run(steps).open
    requires Run(steps).subs[k].queue == [] && !Run(steps).subs[k].lost
    ensures var w := Run(steps);
            var f := w.subs[k].filter;
            var view := Fold(w.subs[k].given);
            && (forall l :: l in w.current && f.Selects(w.current[l]) ==> l in view && view[l] == w.current[l])
            && (forall l :: l in view ==> l in w.current && (view[l] == w.current[l] || !f.Selects(w.current[l])))
            && (AlikeOnLevels(f) ==> view == Filtered(w.current, f))
  {
    RunKeepsInv(steps);
    var w := Run(steps);
    var s := w.subs[k];
    var view := Fold(s.given);
    FoldIsView(s.given, w.log, s.filter);
    assert Since(s.given) + s.queue == Since(s.given);
    ViewAgrees(w.log, LastAt(s.given), s.filter);
    assert Agrees(view, w.log, s.filter);
    if AlikeOnLevels(s.filter) { AlikeViewIsFiltered(view, w.log, s.filter); }
  }

  lemma AlikeViewIsFiltered(view: map<LevelKey, Event>, log: seq<Event>, f: Filter)
    requires Agrees(view, log, f) && AlikeOnLevels(f) && forall e :: e in log ==> Fits(e)
    ensures view == Filtered(Latest(log), f)
  {
    var table := Latest(log);
    forall l | l in view
      ensures f.Selects(table[l])
    {
      LatestIsLogged(log, l);
      assert Fits(view[l]) && Fits(table[l]);
    }
    assert view.Keys == Filtered(table, f).Keys;
  }

  // ----- What is given has no gaps -----

  lemma {:induction false} SelectedIncreases(log: seq<Event>, a: nat, f: Filter)
    requires Numbered(log)
    ensures Rising(SelectedAfter(log, a, f), a, |log|)
    ensures forall e :: e in SelectedAfter(log, a, f) <==> e in log && e.seqno > a && f.Selects(e)
  {
    if |log| > a {
      SelectedIncreases(log[..|log| - 1], a, f);
      assert log == log[..|log| - 1] + [log[|log| - 1]];
    }
  }

  /** Strictly increasing sequences, all after `a` and none after `b`. */
  ghost predicate Rising(events: seq<Event>, a: nat, b: nat) {
    && (forall i :: 0 <= i < |events| ==> a < events[i].seqno <= b)
    && (forall i, j :: 0 <= i < j < |events| ==> events[i].seqno < events[j].seqno)
  }

  ghost function EventsOf(ds: seq<Delivery>): (r: seq<Event>)
    requires forall i :: 0 <= i < |ds| ==> ds[i].Told?
    ensures |r| == |ds| && forall i :: 0 <= i < |ds| ==> r[i] == ds[i].event
  {
    if ds == [] then [] else EventsOf(ds[..|ds| - 1]) + [ds[|ds| - 1].event]
  }

  lemma {:induction false} FaithfulFront(given: seq<Delivery>, j: nat, log: seq<Event>, f: Filter)
    requires Faithful(given, log, f) && j <= |given|
    ensures Faithful(given[..j], log, f)
    decreases |given| - j
  {
    if j == |given| {
      assert given[..j] == given;
    } else {
      FaithfulFront(given, j + 1, log, f);
      assert given[..j + 1][..j] == given[..j];
    }
  }

  lemma {:induction false} SinceSnapshot(given: seq<Delivery>, i: nat)
    requires i < |given| && given[i].Picture? && forall m :: i < m < |given| ==> given[m].Told?
    ensures LastAt(given) == given[i].snapshot.at
    ensures Since(given) == EventsOf(given[i + 1..])
  {
    if i < |given| - 1 {
      var before := given[..|given| - 1];
      SinceSnapshot(before, i);
      assert given[i + 1..] == before[i + 1..] + [given[|given| - 1]];
      assert given[i + 1..][..|given[i + 1..]| - 1] == before[i + 1..];
    }
  }

  lemma SinceIsPrefix(given: seq<Delivery>, log: seq<Event>, f: Filter)
    requires given != [] && Faithful(given, log, f)
    ensures LastAt(given) <= |log|
    ensures Since(given) <= SelectedAfter(log, LastAt(given), f)
  {
    LastAtInLog(given, log, f);
  }

  lemma {:induction false} PrefixRises(part: seq<Event>, all: seq<Event>, a: nat, b: nat)
    requires part <= all && Rising(all, a, b)
    ensures Rising(part, a, b)
  {
    assert forall i :: 0 <= i < |part| ==> part[i] == all[i];
  }

  /** What was given between a snapshot and place `j` with no snapshot between. */
  lemma GivenSince(given: seq<Delivery>, i: nat, j: nat, log: seq<Event>, f: Filter)
    requires Numbered(log) && Faithful(given, log, f)
    requires i < j <= |given| && given[i].Picture?
    requires forall m :: i < m < j ==> given[m].Told?
    ensures Since(given[..j]) == EventsOf(given[i + 1..j]) && LastAt(given[..j]) == given[i].snapshot.at
    ensures Rising(Since(given[..j]), given[i].snapshot.at, |log|)
    ensures Since(given[..j]) <= SelectedAfter(log, given[i].snapshot.at, f)
  {
    var part := given[..j];
    FaithfulFront(given, j, log, f);
    SinceSnapshot(part, i);
    SinceIsPrefix(part, log, f);
    assert part[i + 1..] == given[i + 1..j];
    SelectedIncreases(log, LastAt(part), f);
    PrefixRises(Since(part), SelectedAfter(log, LastAt(part), f), LastAt(part), |log|);
  }

  /** No event given before a snapshot comes after that snapshot's sequence. */
  lemma GivenBefore(given: seq<Delivery>, j: nat, log: seq<Event>, f: Filter)
    requires Numbered(log) && Faithful(given, log, f)
    requires 0 < j < |given| && given[j].Picture?
    ensures LastAt(given[..j]) <= given[j].snapshot.at <= |log|
    ensures Rising(Since(given[..j]), LastAt(given[..j]), given[j].snapshot.at)
  {
    FaithfulFront(given, j + 1, log, f);
    assert given[..j + 1][..j] == given[..j];
    var part, at := given[..j], given[j].snapshot.at;
    SelectedIncreases(log[..at], LastAt(part), f);
    PrefixRises(Since(part), SelectedAfter(log[..at], LastAt(part), f), LastAt(part), at);
  }

  /** From a snapshot a subscriber was given to the next, or to now, what it was given is a gap-free prefix
      of the selected events published after that snapshot's sequence, in strictly increasing order; no
      event of it comes after the next snapshot's sequence; and it is all of them where nothing is queued,
      nothing was lost and the bus still feeds the subscriber. */
  lemma GivenWithoutGaps<K>(steps: seq<Step<K>>, k: K, i: nat, j: nat)
    requires k in Run(steps).subs
    requires i < j <= |Run(steps).subs[k].given| && Run(steps).subs[k].given[i].Picture?
    requires forall m :: i < m < j ==> Run(steps).subs[k].given[m].Told?
    ensures var w := Run(steps);
            var s := w.subs[k];
            var at := s.given[i].snapshot.at;
            var told := EventsOf(s.given[i + 1..j]);
            && Rising(told, at, |w.log|)
            && told <= SelectedAfter(w.log, at, s.filter)
            && (j < |s.given| && s.given[j].Picture? ==>
                  at <= s.given[j].snapshot.at && Rising(told, at, s.given[j].snapshot.at))
            && (j == |s.given| && k in w.open && !s.lost && s.queue == [] ==>
                  told == SelectedAfter(w.log, at, s.filter))
  {
    RunKeepsInv(steps);
    var w := Run(steps);
    var s := w.subs[k];
    GivenSince(s.given, i, j, w.log, s.filter);
    if j < |s.given| && s.given[j].Picture? { GivenBefore(s.given, j, w.log, s.filter); }
    if j == |s.given| && s.queue == [] {
      assert s.given[..j] == s.given;
      assert Since(s.given) + s.queue == Since(s.given);
    }
  }

  /** What is selected after a sequence is every event that is, once and in order. */
  lemma SelectedIsAll<K>(steps: seq<Step<K>>, a: nat, f: Filter)
    ensures var w := Run(steps);
            && Rising(SelectedAfter(w.log, a, f), a, |w.log|)
            && forall e :: e in SelectedAfter(w.log, a, f) <==> e in w.log && e.seqno > a && f.Selects(e)
  {
    RunKeepsInv(steps);
    SelectedIncreases(Run(steps).log, a, f);
  }

  /** Every snapshot given is the current event of every level the filter selects, as the bus held them at
      the snapshot's sequence: in order, and covering nothing published after it. */
  lemma SnapshotsAreThePicture<K>(steps: seq<Step<K>>, k: K, i: nat)
    requires k in Run(steps).subs && i < |Run(steps).subs[k].given| && Run(steps).subs[k].given[i].Picture?
    ensures var w := Run(steps);
            var s := w.subs[k];
            var snap := s.given[i].snapshot;
            && snap.at <= |w.log|
            && Rising(snap.events, 0, snap.at)
            && forall e :: e in snap.events <==> e in Filtered(Latest(w.log[..snap.at]), s.filter).Values
  {
    RunKeepsInv(steps);
    var w := Run(steps);
    var s := w.subs[k];
    FaithfulFront(s.given, i + 1, w.log, s.filter);
    var log := w.log[..s.given[i].snapshot.at];
    KeptRises(log, Latest(log), s.filter);
    forall e
      ensures e in Kept(log, Latest(log), s.filter) <==> e in Filtered(Latest(log), s.filter).Values
    {
      KeptIsFiltered(log, s.filter, e);
    }
  }

  lemma KeptIsFiltered(log: seq<Event>, f: Filter, e: Event)
    ensures e in Kept(log, Latest(log), f) <==> e in Filtered(Latest(log), f).Values
  {
    var table := Latest(log);
    var part := Filtered(table, f);
    KeptElements(log, table, f, e);
    if e in part.Values {
      var l :| l in part && part[l] == e;
      LatestIsLogged(log, l);
    }
    if e in Kept(log, table, f) { assert part[LevelOf(e)] == e; }
  }

  lemma {:induction false} KeptRises(log: seq<Event>, table: map<LevelKey, Event>, f: Filter)
    requires Numbered(log)
    ensures Rising(Kept(log, table, f), 0, |log|)
  {
    if log != [] { KeptRises(log[..|log| - 1], table, f); }
  }

  // ----- Taking a snapshot from the table -----

  ghost function Values(m: map<LevelKey, Event>, keys: set<LevelKey>, f: Filter): set<Event> {
    set l | l in keys && l in m && f.Selects(m[l]) :: m[l]
  }

  ghost predicate Distinct(events: seq<Event>) {
    forall i, j :: 0 <= i < j < |events| ==> events[i].seqno != events[j].seqno
  }

  function Placed(e: Event, s: seq<Event>): seq<Event> {
    if s == [] then [e]
    else if e.seqno < s[0].seqno then [e] + s
    else [s[0]] + Placed(e, s[1..])
  }

  function SortBySeqno(s: seq<Event>): seq<Event> {
    if s == [] then [] else Placed(s[|s| - 1], SortBySeqno(s[..|s| - 1]))
  }

  lemma {:induction false} PlacedRises(e: Event, s: seq<Event>, a: nat, n: nat)
    requires Rising(s, a, n) && a < e.seqno <= n && forall i :: 0 <= i < |s| ==> s[i].seqno != e.seqno
    ensures Rising(Placed(e, s), a, n)
    ensures forall x :: x in Placed(e, s) <==> x == e || x in s
  {
    if s != [] && e.seqno >= s[0].seqno {
      PlacedRises(e, s[1..], s[0].seqno, n);
      assert s == [s[0]] + s[1..];
    }
  }

  lemma {:induction false} SortedRises(s: seq<Event>, n: nat)
    requires Distinct(s) && forall i :: 0 <= i < |s| ==> 0 < s[i].seqno <= n
    ensures Rising(SortBySeqno(s), 0, n)
    ensures forall x :: x in SortBySeqno(s) <==> x in s
  {
    if s != [] {
      var before := s[..|s| - 1];
      var e := s[|s| - 1];
      SortedRises(before, n);
      assert s == before + [e];
      forall i | 0 <= i < |SortBySeqno(before)|
        ensures SortBySeqno(before)[i].seqno != e.seqno
      {
        assert SortBySeqno(before)[i] in before;
      }
      PlacedRises(e, SortBySeqno(before), 0, n);
    }
  }

  lemma RisesToItsLast(a: seq<Event>, n: nat, z: Event)
    requires Rising(a, 0, n) && a != []
    ensures var c, x := a[..|a| - 1], a[|a| - 1];
            && a == c + [x] && Rising(c, 0, n) && (z in c ==> z.seqno < x.seqno) && (z in a ==> z in c || z == x)
  {
    assert a == a[..|a| - 1] + [a[|a| - 1]];
  }

  lemma {:induction false} SameRising(a: seq<Event>, b: seq<Event>, n: nat)
    requires Rising(a, 0, n) && Rising(b, 0, n) && forall x :: x in a <==> x in b
    ensures a == b
  {
    hide Rising;
    assert a != [] ==> a[0] in a;
    assert b != [] ==> b[0] in b;
    if a != [] {
      var x, y := a[|a| - 1], b[|b| - 1];
      assert x in b && y in a;
      RisesToItsLast(a, n, y);
      RisesToItsLast(b, n, x);
      var c, d := a[..|a| - 1], b[..|b| - 1];
      forall z
        ensures z in c <==> z in d
      {
        RisesToItsLast(a, n, z);
        RisesToItsLast(b, n, z);
      }
      SameRising(c, d, n);
    }
  }

  lemma SameNumber(log: seq<Event>, d: Event, e: Event)
    requires Numbered(log) && d in log && e in log && d.seqno == e.seqno
    ensures d == e && 0 < d.seqno <= |log|
  {
    var i :| 0 <= i < |log| && log[i] == d;
    var j :| 0 <= j < |log| && log[j] == e;
    assert i == j;
  }

  lemma NewToTheOthers(log: seq<Event>, done: set<LevelKey>, l: LevelKey, f: Filter, events: seq<Event>)
    requires Numbered(log) && l in Latest(log) && l !in done
    requires forall e :: e in events <==> e in Values(Latest(log), done, f)
    ensures forall i :: 0 <= i < |events| ==> events[i].seqno != Latest(log)[l].seqno
  {
    LatestIsLogged(log, l);
    forall i | 0 <= i < |events|
      ensures events[i].seqno != Latest(log)[l].seqno
    {
      assert events[i] in Values(Latest(log), done, f);
      var m :| m in done && m in Latest(log) && Latest(log)[m] == events[i];
      LatestIsLogged(log, m);
      if events[i].seqno == Latest(log)[l].seqno { SameNumber(log, events[i], Latest(log)[l]); }
    }
  }

  lemma SortedIsKept(log: seq<Event>, f: Filter, events: seq<Event>)
    requires Numbered(log) && Distinct(events)
    requires forall e :: e in events <==> e in Values(Latest(log), Latest(log).Keys, f)
    ensures SortBySeqno(events) == Kept(log, Latest(log), f)
  {
    var table := Latest(log);
    forall i | 0 <= i < |events|
      ensures 0 < events[i].seqno <= |log|
    {
      assert events[i] in Values(table, table.Keys, f);
      var m :| m in table && table[m] == events[i];
      LatestIsLogged(log, m);
      SameNumber(log, events[i], events[i]);
    }
    SortedRises(events, |log|);
    KeptRises(log, table, f);
    forall e
      ensures e in SortBySeqno(events) <==> e in Kept(log, table, f)
    {
      KeptElements(log, table, f, e);
      if e in events {
        var m :| m in table && f.Selects(table[m]) && table[m] == e;
        LatestIsLogged(log, m);
      }
    }
    SameRising(SortBySeqno(events), Kept(log, table, f), |log|);
  }

  // ----- The bus itself -----

  /** What the first locked section of a call found. */
  datatype Found = Closed | Queued(event: Event) | Overflowed | Nothing

  class Subscription {
    const filter: Filter
    var queue: seq<Event>
    var lost: bool
    var closed: bool
    ghost var given: seq<Delivery>

    constructor (filter: Filter)
      ensures Value() == Subscriber(filter, [], false, false, [])
    {
      this.filter, queue, lost, closed, given := filter, [], false, false, [];
    }

    ghost function Value(): Subscriber
      reads this
    {
      Subscriber(filter, queue, lost, closed, given)
    }

    /** The event goes to the end of a queue with room in it, unless something is already lost; finding none, it
        is itself lost. */
    method Offer(e: Event)
      modifies this`queue, this`lost
      ensures Value() == Offered(old(Value()), e)
      ensures queue == if |old(queue)| < BOUND && !old(lost) then old(queue) + [e] else old(queue)
      ensures lost == (old(lost) || |old(queue)| >= BOUND)
    {
      if |queue| >= BOUND {
        lost := true;
      } else if !lost {
        queue := queue + [e];
      }
    }

    method Resume(picture: Snapshot)
      modifies this`lost, this`given
      ensures Value() == old(Value()).(lost := false, given := old(given) + [Picture(picture)])
    {
      lost := false;
      given := given + [Picture(picture)];
    }

    method Take() returns (found: Found)
      modifies this`queue, this`given
      ensures Value() == Taken(old(Value()))
      ensures found == if closed then Closed else if old(queue) != [] then Queued(old(queue)[0])
                       else if lost then Overflowed else Nothing
    {
      if closed {
        found := Closed;
      } else if |queue| > 0 {
        found := Queued(queue[0]);
        given := given + [Told(queue[0])];
        queue := queue[1..];
      } else if lost {
        found := Overflowed;
      } else {
        found := Nothing;
      }
    }
  }

  class Broker {
    var seqno: nat
    var subs: set<Subscription>
    var current: map<LevelKey, Event>
    ghost var world: World<Subscription>

    ghost predicate Sound()
      reads this
    {
      Inv(world) && seqno == |world.log| && subs == world.open && current == world.current
    }

    ghost predicate Valid()
      reads this, world.subs.Keys
    {
      && Sound()
      && subs <= world.subs.Keys
      && forall s :: s in world.subs ==> world.subs[s] == s.Value()
    }

    constructor ()
      ensures Valid() && world == Empty()
    {
      seqno, subs, current := 0, {}, map[];
      world := Empty();
    }

    ghost method Advance(step: Step<Subscription>)
      requires Inv(world)
      requires seqno == |Next(world, step).log| && subs == Next(world, step).open
               && current == Next(world, step).current
      requires subs <= Next(world, step).subs.Keys
      requires forall s :: s in Next(world, step).subs ==> Next(world, step).subs[s] == s.Value()
      modifies this`world
      ensures Valid() && world == Next(old(world), step)
    {
      NextKeepsInv(world, step);
      world := Next(world, step);
    }

    /** The part of the table that the filter selects, in the order of its numbers. */
    method TakeSnapshot(f: Filter) returns (snap: Snapshot)
      requires Sound()
      ensures snap == SnapshotOf(world.log, f)
    {
      var events: seq<Event> := [];
      var levels := current.Keys;
      while levels != {}
        invariant levels <= current.Keys
        invariant forall e :: e in events <==> e in Values(current, current.Keys - levels, f)
        invariant Distinct(events)
      {
        var l :| l in levels;
        if f.Selects(current[l]) {
          NewToTheOthers(world.log, current.Keys - levels, l, f, events);
          events := events + [current[l]];
        }
        levels := levels - {l};
      }
      assert current.Keys - levels == current.Keys;
      SortedIsKept(world.log, f, events);
      snap := Snapshot(seqno, SortBySeqno(events));
    }

    /** Registers a subscriber and takes its first snapshot with nothing published between. */
    method SubscribeTo(f: Filter) returns (s: Subscription, snap: Snapshot)
      requires Valid()
      modifies this
      ensures Valid() && fresh(s) && snap == SnapshotOf(world.log, f)
      ensures world == Next(old(world), Step.Subscribe(s, f))
    {
      s := new Subscription(f);
      snap := TakeSnapshot(f);
      s.given := [Picture(snap)];
      subs := subs + {s};
      Advance(Step.Subscribe(s, f));
    }

    /** An event that fits gets the next number and is offered around; another changes nothing. */
    method Publish(e: Event) returns (r: Option<Event>)
      requires Valid()
      modifies this, subs
      ensures Valid()
      ensures world == Next(old(world), Step.Publish(e))
      ensures r == if Fits(e) then Some(Numbering(e, old(world.log))) else None
    {
      if !Fits(e) { return None; }
      seqno := seqno + 1;
      var n := e.(seqno := seqno);
      if IsLevel(n.typ) {
        current := current[LevelOf(n) := n];
      }
      Feed(n);
      Advance(Step.Publish(e));
      return Some(n);
    }

    method Feed(n: Event)
      requires subs == world.open && subs <= world.subs.Keys
      requires forall s :: s in world.subs ==> world.subs[s] == s.Value()
      modifies subs
      ensures forall s :: s in world.subs ==> s.Value() == Fed(world, n)[s]
    {
      var rest := subs;
      while rest != {}
        invariant rest <= subs
        invariant forall s :: s in world.subs ==> s.Value() == if s in rest then world.subs[s] else Fed(world, n)[s]
      {
        var s :| s in rest;
        if s.filter.Selects(n) {
          s.Offer(n);
        }
        rest := rest - {s};
      }
    }

    method Take(s: Subscription) returns (found: Found)
      requires Valid() && s in world.subs
      modifies this`world, s`queue, s`given
      ensures Valid() && world == Next(old(world), Step.Take(s))
      ensures found == if s.closed then Closed else if old(s.queue) != [] then Queued(old(s.queue)[0])
                       else if s.lost then Overflowed else Nothing
    {
      found := s.Take();
      Advance(Step.Take(s));
    }

    /** The second locked section: the loss, if it is still there and the queue still empty, is made up for by
        a snapshot that no event can slip past. */
    method Announce(s: Subscription) returns (snap: Option<Snapshot>)
      requires Valid() && s in world.subs
      modifies this`world, s`lost, s`given
      ensures Valid() && world == Next(old(world), Step.Announce(s))
      ensures snap == if old(s.lost) && s.queue == [] then Some(SnapshotOf(world.log, s.filter)) else None
    {
      if s.lost && |s.queue| == 0 {
        var picture := TakeSnapshot(s.filter);
        s.Resume(picture);
        snap := Some(picture);
      } else {
        snap := None;
      }
      Advance(Step.Announce(s));
    }

    method Unregister(s: Subscription)
      requires Valid() && s in world.subs
      modifies this
      ensures Valid() && world == Next(old(world), Step<Subscription>.Unregister(s))
    {
      subs := subs - {s};
      Advance(Step.Unregister(s));
    }

    method MarkClosed(s: Subscription)
      requires Valid() && s in world.subs
      modifies this`world, s`closed
      ensures Valid() && world == Next(old(world), Step<Subscription>.MarkClosed(s))
    {
      s.closed := true;
      Advance(Step.MarkClosed(s));
    }

    method Close(s: Subscription)
      requires Valid() && s in world.subs
      modifies this, s`closed
      ensures Valid() && world == Next(Next(old(world), Step<Subscription>.Unregister(s)),
                                       Step<Subscription>.MarkClosed(s))
    {
      Unregister(s);
      MarkClosed(s);
    }
  }
}
