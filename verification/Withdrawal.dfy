/** One removal of an application's versions, against any number of parties pinning instances to them. The
    parties share only files: each version's install record, and each instance's record. */
module Withdrawal {
  import opened Prelude
  import Versions

  datatype State = Incomplete | Complete | Withdrawn

  /** A version's install record: where it stands, whether it is shared, and the rest of what it says. */
  datatype Record = Record(state: State, shared: bool, rest: string)

  /** A pin that passed its check and is not yet written. A creation first makes the directory its record goes
      in, and is `named` from then on. */
  datatype Pin = Pin(name: string, ver: string, creates: bool, named: bool)

  /** Where the removal stands. */
  datatype Removal =
    | Listing(i: nat, found: bool)
    | Taking(i: nat)
    | Rechecking(i: nat, previous: Record)
    | Restoring(i: nat, previous: Record)
    | Deleting(i: nat)
    | Refused
    | Done

  /** `names` are the directories there are for instances, with a record in them or not yet. */
  datatype World = World(
    versions: map<string, Record>,
    pins: map<string, string>,
    names: set<string>,
    pending: map<nat, Pin>,
    targets: seq<string>,
    removal: Removal,
    removed: seq<string>
  )

  ghost predicate Fresh(w: World) {
    && w.pins.Keys <= w.names && w.pending == map[] && w.removal == Listing(0, false) && w.removed == []
    && (forall i :: 0 <= i < |w.targets| ==> w.targets[i] in w.versions)
    && (forall i, j :: 0 <= i < j < |w.targets| ==> w.targets[i] != w.targets[j])
  }

  ghost predicate Pointed(pins: map<string, string>, ver: string) {
    exists n :: n in pins && pins[n] == ver
  }

  // ----- The steps, each one act on the files -----

  datatype Step =
    | Check(ticket: nat, name: string, ver: string, creates: bool, mine: bool)
    | Claim(ticket: nat)
    | Write(ticket: nat)
    | Drop(name: string)
    | Advance

  ghost predicate Possible(w: World, step: Step) {
    match step
    case Check(ticket, _, _, _, _) => ticket !in w.pending
    case Claim(ticket) => ticket in w.pending && w.pending[ticket].creates && !w.pending[ticket].named
    case Write(ticket) => ticket in w.pending && (w.pending[ticket].creates ==> w.pending[ticket].named)
    case Drop(_) => true
    case Advance => !w.removal.Refused? && !w.removal.Done?
  }

  /** Only a complete version may be pinned, and only one offered to the account. */
  predicate Pinnable(versions: map<string, Record>, ver: string, mine: bool) {
    ver in versions && versions[ver].state == Complete && (versions[ver].shared || mine)
  }

  /** A creation needs its directory there still, a re-pointing the record. */
  predicate Lands(pins: map<string, string>, names: set<string>, p: Pin) {
    if p.creates then p.name in names else p.name in pins
  }

  function Written(pins: map<string, string>, names: set<string>, p: Pin): map<string, string> {
    if Lands(pins, names, p) then pins[p.name := p.ver] else pins
  }

  /** Making a directory fails where there is one, and with it the creation. */
  ghost function Claimed(w: World, ticket: nat): World
    requires ticket in w.pending
  {
    var p := w.pending[ticket];
    if p.name in w.names then w.(pending := w.pending - {ticket})
    else w.(names := w.names + {p.name}, pending := w.pending[ticket := p.(named := true)])
  }

  ghost function Advanced(w: World): World {
    match w.removal
    case Listing(i, found) =>
      if i < |w.targets| then w.(removal := Listing(i + 1, found || Pointed(w.pins, w.targets[i])))
      else w.(removal := if found then Refused else Taking(0))
    case Taking(i) =>
      if i >= |w.targets| then w.(removal := Done)
      else
        var v := w.targets[i];
        if v in w.versions && w.versions[v].state != Withdrawn
        then w.(versions := w.versions[v := w.versions[v].(state := Withdrawn)],
                removal := Rechecking(i, w.versions[v]))
        else w.(removal := Deleting(i))
    case Rechecking(i, previous) =>
      if i < |w.targets| && Pointed(w.pins, w.targets[i]) then w.(removal := Restoring(i, previous))
      else w.(removal := Deleting(i))
    case Restoring(i, previous) =>
      if i < |w.targets| then w.(versions := w.versions[w.targets[i] := previous], removal := Refused) else w
    case Deleting(i) =>
      if i < |w.targets|
      then w.(versions := w.versions - {w.targets[i]}, removed := w.removed + [w.targets[i]], removal := Taking(i + 1))
      else w
    case _ => w
  }

  ghost function Next(w: World, step: Step): World
    requires Possible(w, step)
  {
    match step
    case Check(ticket, name, ver, creates, mine) =>
      if Pinnable(w.versions, ver, mine) then w.(pending := w.pending[ticket := Pin(name, ver, creates, false)]) else w
    case Claim(ticket) => Claimed(w, ticket)
    case Write(ticket) => w.(pins := Written(w.pins, w.names, w.pending[ticket]), pending := w.pending - {ticket})
    case Drop(name) => w.(pins := w.pins - {name}, names := w.names - {name})
    case Advance => Advanced(w)
  }

  ghost predicate IsRun(w: World, steps: seq<Step>)
    decreases |steps|, 0
  {
    steps == [] || (IsRun(w, steps[..|steps| - 1]) && Possible(Run(w, steps[..|steps| - 1]), steps[|steps| - 1]))
  }

  ghost function Run(w: World, steps: seq<Step>): World
    requires IsRun(w, steps)
    decreases |steps|, 1
  {
    if steps == [] then w else Next(Run(w, steps[..|steps| - 1]), steps[|steps| - 1])
  }

  lemma {:induction false} PrefixIsRun(w: World, steps: seq<Step>, n: nat)
    requires IsRun(w, steps) && n <= |steps|
    ensures IsRun(w, steps[..n])
    ensures n < |steps| ==> Possible(Run(w, steps[..n]), steps[n])
    ensures n < |steps| ==> IsRun(w, steps[..n + 1]) && Run(w, steps[..n + 1]) == Next(Run(w, steps[..n]), steps[n])
  {
    hide Next, Possible;
    if n < |steps| {
      var front := steps[..|steps| - 1];
      if n == |front| {
        assert steps[..n + 1] == steps && steps[..n] == front;
      } else {
        PrefixIsRun(w, front, n);
        assert front[..n] == steps[..n] && front[..n + 1] == steps[..n + 1];
      }
    } else {
      assert steps[..n] == steps;
    }
  }

  /** The world just before step `n` of a run. */
  ghost function At(w: World, steps: seq<Step>, n: nat): World
    requires IsRun(w, steps) && n <= |steps|
  {
    PrefixIsRun(w, steps, n);
    Run(w, steps[..n])
  }

  // ----- What the removal has done so far -----

  /** The removal has `i` in hand: its record says withdrawn. */
  predicate InHand(r: Removal, i: nat) {
    (r.Rechecking? || r.Restoring? || r.Deleting?) && r.i == i
  }

  /** What was removed is a beginning of the targets, and every other record is as it was, save the one in
      hand. */
  ghost predicate Sound(w0: World, w: World) {
    && w.targets == w0.targets && |w.removed| <= |w.targets| && w.removed == w.targets[..|w.removed|]
    && Placed(w)
    && Accounted(w0, w.versions, w.removed, InHand(w.removal, |w.removed|))
    && (w.removal.Rechecking? || w.removal.Restoring? ==>
          var v := w.targets[w.removal.i];
          v in w0.versions && w.removal.previous == w0.versions[v] && w.removal.previous.state != Withdrawn)
  }

  ghost predicate Placed(w: World) {
    match w.removal
    case Listing(i, _) => i <= |w.targets| && w.removed == []
    case Taking(i) => i == |w.removed|
    case Rechecking(i, _) => i == |w.removed| < |w.targets|
    case Restoring(i, _) => i == |w.removed| < |w.targets|
    case Deleting(i) => i == |w.removed| < |w.targets|
    case Refused => true
    case Done => w.removed == w.targets
  }

  ghost predicate Accounted(w0: World, versions: map<string, Record>, removed: seq<string>, inHand: bool) {
    && (forall v :: v in versions ==> v in w0.versions && v !in removed)
    && (forall v :: v in w0.versions && v !in removed ==> v in versions)
    && (forall v :: v in versions ==> versions[v] == Expected(w0, removed, inHand, v))
  }

  ghost function Expected(w0: World, removed: seq<string>, inHand: bool, v: string): Record
    requires v in w0.versions
  {
    if inHand && |removed| < |w0.targets| && v == w0.targets[|removed|] then w0.versions[v].(state := Withdrawn)
    else w0.versions[v]
  }

  lemma NewTarget(w0: World, w: World)
    requires Fresh(w0) && Sound(w0, w) && |w.removed| < |w.targets|
    ensures w.targets[|w.removed|] in w.versions
    ensures forall v :: v in w.removed + [w.targets[|w.removed|]] <==> v in w.removed || v == w.targets[|w.removed|]
    ensures w.removed + [w.targets[|w.removed|]] == w.targets[..|w.removed| + 1]
  {
    var v := w.targets[|w.removed|];
    assert v in w0.versions;
    assert forall k :: 0 <= k < |w.removed| ==> w.removed[k] == w0.targets[k];
  }

  lemma TakingIsSound(w0: World, w: World)
    requires Fresh(w0) && Sound(w0, w) && w.removal.Taking?
    ensures Sound(w0, Advanced(w))
  {
    if |w.removed| < |w.targets| { NewTarget(w0, w); }
  }

  lemma DeletingIsSound(w0: World, w: World)
    requires Fresh(w0) && Sound(w0, w) && w.removal.Deleting?
    ensures Sound(w0, Advanced(w))
  {
    NewTarget(w0, w);
    var t, v := Advanced(w), w.targets[|w.removed|];
    assert t.versions == w.versions - {v} && t.removed == w.removed + [v];
    forall u | u in t.versions
      ensures t.versions[u] == Expected(w0, t.removed, false, u)
    {
      assert w.versions[u] == Expected(w0, w.removed, true, u);
    }
  }

  lemma RestoringIsSound(w0: World, w: World)
    requires Fresh(w0) && Sound(w0, w) && w.removal.Restoring?
    ensures Sound(w0, Advanced(w))
  {
    NewTarget(w0, w);
    var t, v := Advanced(w), w.targets[|w.removed|];
    assert w0.versions[v] == w.removal.previous && t.versions == w.versions[v := w0.versions[v]];
    forall u | u in t.versions
      ensures t.versions[u] == Expected(w0, t.removed, false, u)
    {
      if u != v { assert w.versions[u] == Expected(w0, w.removed, true, u); }
    }
  }

  lemma ReadingIsSound(w0: World, w: World)
    requires Fresh(w0) && Sound(w0, w) && (w.removal.Listing? || w.removal.Rechecking?)
    ensures Sound(w0, Advanced(w))
  {
    hide Pointed, Accounted;
  }

  lemma AdvanceIsSound(w0: World, w: World)
    requires Fresh(w0) && Sound(w0, w) && Possible(w, Advance)
    ensures Sound(w0, Advanced(w))
  {
    hide Advanced, Sound;
    match w.removal
    case Taking(_) => TakingIsSound(w0, w);
    case Deleting(_) => DeletingIsSound(w0, w);
    case Restoring(_, _) => RestoringIsSound(w0, w);
    case _ => ReadingIsSound(w0, w);
  }

  lemma FreshIsSound(w: World)
    requires Fresh(w)
    ensures Sound(w, w)
  {
  }

  lemma StepIsSound(w0: World, w: World, step: Step)
    requires Fresh(w0) && Sound(w0, w) && Possible(w, step)
    ensures Sound(w0, Next(w, step))
  {
    hide Advanced, Pinnable, Written, Accounted;
    if step.Advance? { AdvanceIsSound(w0, w); }
  }

  lemma {:induction false} EveryWorldIsSound(w: World, steps: seq<Step>)
    requires Fresh(w) && IsRun(w, steps)
    ensures Sound(w, Run(w, steps))
  {
    hide Sound, Next, Possible;
    if steps == [] {
      FreshIsSound(w);
    } else {
      var front, last := steps[..|steps| - 1], steps[|steps| - 1];
      EveryWorldIsSound(w, front);
      StepIsSound(w, Run(w, front), last);
    }
  }

  /** However the removal ends, every version is accounted for: one that was not removed has the record it
      had, and a removal that is done removed all it named. */
  lemma EveryVersionIsAccountedFor(w: World, steps: seq<Step>)
    requires Fresh(w) && IsRun(w, steps)
    ensures var t := Run(w, steps);
            && t.removed <= w.targets
            && (t.removal.Done? ==> t.removed == w.targets)
            && (t.removal.Done? || t.removal.Refused? ==>
                  (forall v :: v in t.versions <==> v in w.versions && v !in t.removed)
                  && (forall v :: v in t.versions ==> t.versions[v] == w.versions[v]))
  {
    EveryWorldIsSound(w, steps);
  }

  // ----- A pin checked after the withdrawal -----

  /** The `i`th target's record says withdrawn, or the version is gone. */
  ghost predicate Closed(w: World, i: nat) {
    i < |w.targets| && (InHand(w.removal, i) || i < |w.removed|)
  }

  lemma ClosedRefuses(w0: World, w: World, i: nat, mine: bool)
    requires Fresh(w0) && Sound(w0, w) && Closed(w, i)
    ensures !Pinnable(w.versions, w.targets[i], mine)
  {
    var v := w.targets[i];
    if i < |w.removed| {
      assert w.removed[i] == v;
    } else if v in w.versions {
      assert w.versions[v] == Expected(w0, w.removed, true, v);
    }
  }

  lemma StaysClosed(w0: World, w: World, step: Step, i: nat)
    requires Sound(w0, w) && Possible(w, step) && Closed(w, i)
    requires !(step.Advance? && w.removal.Restoring?)
    ensures Closed(Next(w, step), i)
  {
  }

  lemma Closes(w0: World, w: World, step: Step)
    requires Sound(w0, w) && w.removal.Taking? && w.removal.i < |w0.targets| && step.Advance? && Possible(w, step)
    ensures Closed(Next(w, step), w.removal.i)
  {
  }

  /** From the act that withdraws the `i`th target, or finds it withdrawn, until the act that restores it, if
      one comes, the target is closed. */
  lemma {:induction false} ClosedBetween(w: World, steps: seq<Step>, d: nat, n: nat)
    requires Fresh(w) && IsRun(w, steps) && d < n <= |steps|
    requires steps[d].Advance? && At(w, steps, d).removal.Taking? && At(w, steps, d).removal.i < |w.targets|
    requires forall m :: d < m < n && steps[m].Advance? ==> !At(w, steps, m).removal.Restoring?
    ensures Closed(At(w, steps, n), At(w, steps, d).removal.i)
    decreases n
  {
    hide Possible, Next, Sound, Closed;
    PrefixIsRun(w, steps, d);
    EveryWorldIsSound(w, steps[..d]);
    if n == d + 1 {
      Closes(w, At(w, steps, d), steps[d]);
    } else {
      PrefixIsRun(w, steps, n - 1);
      ClosedBetween(w, steps, d, n - 1);
      EveryWorldIsSound(w, steps[..n - 1]);
      StaysClosed(w, At(w, steps, n - 1), steps[n - 1], At(w, steps, d).removal.i);
    }
  }

  /** A pin checked after the withdrawal is refused. */
  lemma CheckedAfterWithdrawalIsRefused(w: World, steps: seq<Step>, d: nat, c: nat)
    requires Fresh(w) && IsRun(w, steps) && d < c < |steps|
    requires steps[d].Advance? && At(w, steps, d).removal.Taking? && At(w, steps, d).removal.i < |w.targets|
    requires steps[c].Check? && steps[c].ver == w.targets[At(w, steps, d).removal.i]
    requires forall m :: d < m < c && steps[m].Advance? ==> !At(w, steps, m).removal.Restoring?
    ensures At(w, steps, c + 1) == At(w, steps, c)
  {
    hide Advanced, Sound, Closed;
    PrefixIsRun(w, steps, c);
    ClosedBetween(w, steps, d, c);
    EveryWorldIsSound(w, steps[..c]);
    TargetsStay(w, steps[..c]);
    ClosedRefuses(w, At(w, steps, c), At(w, steps, d).removal.i, steps[c].mine);
  }

  lemma TargetsStay(w: World, steps: seq<Step>)
    requires Fresh(w) && IsRun(w, steps)
    ensures Run(w, steps).targets == w.targets
  {
    EveryWorldIsSound(w, steps);
  }

  // ----- A pin written before the second listing -----

  /** A pin there at the second listing stops the deletion: from then on the version is never removed, and
      once the removal has ended its record is the one it had. */
  lemma PinnedBeforeTheSecondListingIsHonoured(w: World, steps: seq<Step>, l: nat, n: nat)
    requires Fresh(w) && IsRun(w, steps) && l < n <= |steps|
    requires steps[l].Advance? && At(w, steps, l).removal.Rechecking?
    requires var i := At(w, steps, l).removal.i; i < |w.targets| && Pointed(At(w, steps, l).pins, w.targets[i])
    ensures var t, v := At(w, steps, n), w.targets[At(w, steps, l).removal.i];
            && (t.removal == Restoring(At(w, steps, l).removal.i, At(w, steps, l).removal.previous)
                || t.removal.Refused?)
            && v in w.versions && v in t.versions
            && (t.removal.Refused? ==> t.versions[v] == w.versions[v] == At(w, steps, l).removal.previous)
  {
    hide Next, Advanced, Sound, Possible;
    StaysStopped(w, steps, l, n);
    PrefixIsRun(w, steps, l);
    PrefixIsRun(w, steps, n);
    EveryWorldIsSound(w, steps[..l]);
    EveryWorldIsSound(w, steps[..n]);
    StoppedIsWhole(w, At(w, steps, l), At(w, steps, n));
  }

  lemma StoppedIsWhole(w0: World, before: World, t: World)
    requires Fresh(w0) && Sound(w0, before) && Sound(w0, t) && before.removal.Rechecking?
    requires t.removed == before.removed
    requires t.removal == Restoring(before.removal.i, before.removal.previous) || t.removal.Refused?
    ensures before.removal.i < |w0.targets|
    ensures var v := w0.targets[before.removal.i];
            && v in w0.versions && v in t.versions
            && (t.removal.Refused? ==> t.versions[v] == w0.versions[v] == before.removal.previous)
  {
    NewTarget(w0, before);
  }

  lemma Stops(w: World, step: Step)
    requires Possible(w, step) && step.Advance? && w.removal.Rechecking?
    requires w.removal.i < |w.targets| && Pointed(w.pins, w.targets[w.removal.i])
    ensures Next(w, step) == w.(removal := Restoring(w.removal.i, w.removal.previous))
  {
  }

  lemma Stopped(w: World, step: Step)
    requires Possible(w, step) && (w.removal.Restoring? || w.removal.Refused?)
    ensures Next(w, step).removed == w.removed
    ensures Next(w, step).removal == w.removal || Next(w, step).removal.Refused?
  {
  }

  lemma {:induction false} StaysStopped(w: World, steps: seq<Step>, l: nat, n: nat)
    requires Fresh(w) && IsRun(w, steps) && l < n <= |steps|
    requires steps[l].Advance? && At(w, steps, l).removal.Rechecking?
    requires var i := At(w, steps, l).removal.i; i < |w.targets| && Pointed(At(w, steps, l).pins, w.targets[i])
    ensures At(w, steps, n).removed == At(w, steps, l).removed
    ensures var before := At(w, steps, l).removal;
            At(w, steps, n).removal == Restoring(before.i, before.previous) || At(w, steps, n).removal.Refused?
    decreases n
  {
    hide Sound, Pointed, Next, Possible, Fresh;
    PrefixIsRun(w, steps, l);
    TargetsStay(w, steps[..l]);
    if n == l + 1 {
      Stops(At(w, steps, l), steps[l]);
    } else {
      StaysStopped(w, steps, l, n - 1);
      PrefixIsRun(w, steps, n - 1);
      Stopped(At(w, steps, n - 1), steps[n - 1]);
    }
  }

  // ----- A version deleted and pinned -----

  /** The step writes a pin of the name to the version, and finds the name as it must be. */
  ghost predicate Pins(w: World, step: Step, name: string, v: string) {
    && step.Write? && step.ticket in w.pending && w.pending[step.ticket].name == name && w.pending[step.ticket].ver == v
    && Lands(w.pins, w.names, w.pending[step.ticket])
  }

  /** The step drops the name, or points it at another version. */
  ghost predicate Unpins(w: World, step: Step, name: string, v: string) {
    step == Drop(name) || (step.Write? && step.ticket in w.pending && Pins(w, step, name, w.pending[step.ticket].ver)
                           && w.pending[step.ticket].ver != v)
  }

  /** No step from `m` on, before `n`, takes the pin away. */
  ghost predicate Lasts(w: World, steps: seq<Step>, m: nat, n: nat, name: string, v: string)
    requires IsRun(w, steps) && n <= |steps|
  {
    forall k :: m <= k < n ==> !Unpins(At(w, steps, k), steps[k], name, v)
  }

  ghost predicate PinnedTo(pins: map<string, string>, name: string, v: string) {
    name in pins && pins[name] == v
  }

  lemma PinAppears(w: World, step: Step, name: string, v: string)
    requires Possible(w, step) && PinnedTo(Next(w, step).pins, name, v) && !PinnedTo(w.pins, name, v)
    ensures Pins(w, step, name, v)
  {
  }

  lemma PinStays(w: World, step: Step, name: string, v: string)
    requires Possible(w, step) && (PinnedTo(w.pins, name, v) || Pins(w, step, name, v))
    ensures PinnedTo(Next(w, step).pins, name, v) <==> !Unpins(w, step, name, v)
  {
  }

  /** A pin there at `n` and not at `l` was written between, and lasted. */
  lemma {:induction false} PinWasWritten(w: World, steps: seq<Step>, l: nat, n: nat, name: string, v: string)
      returns (k: nat)
    requires IsRun(w, steps) && l <= n <= |steps|
    requires !Pointed(At(w, steps, l).pins, v) && PinnedTo(At(w, steps, n).pins, name, v)
    ensures l <= k < n && Pins(At(w, steps, k), steps[k], name, v) && Lasts(w, steps, k + 1, n, name, v)
    decreases n
  {
    hide Next, Possible, Pins, Unpins;
    assert !PinnedTo(At(w, steps, l).pins, name, v);
    PrefixIsRun(w, steps, n - 1);
    var before := At(w, steps, n - 1);
    if PinnedTo(before.pins, name, v) {
      k := PinWasWritten(w, steps, l, n - 1, name, v);
      PinStays(before, steps[n - 1], name, v);
    } else {
      PinAppears(before, steps[n - 1], name, v);
      k := n - 1;
    }
  }

  /** A pin written, and neither dropped nor pointed elsewhere since, is there. */
  lemma {:induction false} WrittenPinLasts(w: World, steps: seq<Step>, k: nat, n: nat, name: string, v: string)
    requires IsRun(w, steps) && k < n <= |steps|
    requires Pins(At(w, steps, k), steps[k], name, v) && Lasts(w, steps, k + 1, n, name, v)
    ensures PinnedTo(At(w, steps, n).pins, name, v)
    decreases n
  {
    hide Next, Possible, Unpins, Pins;
    PrefixIsRun(w, steps, n - 1);
    if n == k + 1 {
      PinsItself(At(w, steps, k), steps[k], name, v);
    } else {
      WrittenPinLasts(w, steps, k, n - 1, name, v);
    }
    PinStays(At(w, steps, n - 1), steps[n - 1], name, v);
  }

  lemma PinsItself(w: World, step: Step, name: string, v: string)
    requires Pins(w, step, name, v)
    ensures !Unpins(w, step, name, v)
  {
  }

  /** The same pin, with its directory made or not. */
  predicate SamePin(p: Pin, q: Pin) {
    p.name == q.name && p.ver == q.ver && p.creates == q.creates
  }

  lemma PendingAppears(w: World, step: Step, ticket: nat)
    requires Possible(w, step) && ticket in Next(w, step).pending
    ensures (ticket in w.pending && SamePin(w.pending[ticket], Next(w, step).pending[ticket]))
            || (step.Check? && step.ticket == ticket && Pinnable(w.versions, step.ver, step.mine)
                && SamePin(Next(w, step).pending[ticket], Pin(step.name, step.ver, step.creates, false)))
  {
  }

  /** A pin not yet written passed its check at an earlier step. */
  lemma {:induction false} PendingWasChecked(w: World, steps: seq<Step>, k: nat, ticket: nat) returns (c: nat)
    requires Fresh(w) && IsRun(w, steps) && k <= |steps| && ticket in At(w, steps, k).pending
    ensures c < k && steps[c].Check? && steps[c].ticket == ticket
    ensures SamePin(At(w, steps, k).pending[ticket], Pin(steps[c].name, steps[c].ver, steps[c].creates, false))
    ensures Pinnable(At(w, steps, c).versions, steps[c].ver, steps[c].mine)
    decreases k
  {
    hide Next, Possible, Pinnable;
    PrefixIsRun(w, steps, k - 1);
    var before := At(w, steps, k - 1);
    PendingAppears(before, steps[k - 1], ticket);
    if ticket in before.pending && SamePin(before.pending[ticket], At(w, steps, k).pending[ticket]) {
      c := PendingWasChecked(w, steps, k - 1, ticket);
    } else {
      c := k - 1;
    }
  }

  lemma Turns(w: World, step: Step)
    requires Possible(w, step)
    ensures var r, next := w.removal, Next(w, step).removal;
            && (next != r ==> step.Advance?)
            && (next.Rechecking? && next != r ==>
                  r.Taking? && r.i == next.i < |w.targets| && w.targets[r.i] in w.versions)
            && (next.Deleting? && next != r ==>
                  || (r.Rechecking? && r.i == next.i && (r.i < |w.targets| ==> !Pointed(w.pins, w.targets[r.i])))
                  || (r.Taking? && r.i == next.i < |w.targets|
                      && (w.targets[r.i] in w.versions ==> w.versions[w.targets[r.i]].state == Withdrawn)))
  {
  }

  lemma {:induction false} RecheckedWasTaken(w: World, steps: seq<Step>, l: nat) returns (d: nat)
    requires Fresh(w) && IsRun(w, steps) && l <= |steps| && At(w, steps, l).removal.Rechecking?
    ensures d < l && steps[d].Advance? && At(w, steps, d).removal == Taking(At(w, steps, l).removal.i)
    decreases l
  {
    hide Next, Possible;
    PrefixIsRun(w, steps, l - 1);
    Turns(At(w, steps, l - 1), steps[l - 1]);
    if At(w, steps, l).removal == At(w, steps, l - 1).removal {
      d := RecheckedWasTaken(w, steps, l - 1);
    } else {
      d := l - 1;
    }
  }

  /** Behind a deletion stands a second listing that found nothing, or a record that said withdrawn from the
      start. */
  lemma {:induction false} DeletingWasListed(w: World, steps: seq<Step>, x: nat) returns (relisted: bool, l: nat)
    requires Fresh(w) && IsRun(w, steps) && x <= |steps| && At(w, steps, x).removal.Deleting?
    requires At(w, steps, x).removal.i < |w.targets|
    ensures l < x && steps[l].Advance?
    ensures var i := At(w, steps, x).removal.i;
            if relisted then At(w, steps, l).removal.Rechecking? && At(w, steps, l).removal.i == i
                && !Pointed(At(w, steps, l).pins, w.targets[i])
            else w.targets[i] in w.versions && w.versions[w.targets[i]].state == Withdrawn
    decreases x
  {
    hide Next, Possible, Sound;
    PrefixIsRun(w, steps, x - 1);
    var before := At(w, steps, x - 1);
    Turns(before, steps[x - 1]);
    if At(w, steps, x).removal == before.removal {
      relisted, l := DeletingWasListed(w, steps, x - 1);
    } else {
      EveryWorldIsSound(w, steps[..x - 1]);
      TargetsStay(w, steps[..x - 1]);
      relisted, l := before.removal.Rechecking?, x - 1;
      if !relisted { TakenAsItWas(w, before); }
    }
  }

  lemma TakenAsItWas(w0: World, w: World)
    requires Fresh(w0) && Sound(w0, w) && w.removal.Taking? && w.removal.i < |w.targets|
    ensures var v := w.targets[w.removal.i]; v in w.versions && v in w0.versions && w.versions[v] == w0.versions[v]
  {
    NewTarget(w0, w);
  }

  lemma RemovedAppears(w: World, step: Step, i: nat)
    requires Possible(w, step) && |w.removed| <= i < |Next(w, step).removed|
    ensures step.Advance? && w.removal.Deleting? && i == |w.removed|
  {
  }

  lemma {:induction false} RemovedWasDeleted(w: World, steps: seq<Step>, n: nat, i: nat) returns (x: nat)
    requires Fresh(w) && IsRun(w, steps) && n <= |steps| && i < |At(w, steps, n).removed|
    ensures x < n && steps[x].Advance? && At(w, steps, x).removal == Deleting(i)
    ensures i < |w.targets|
    decreases n
  {
    hide Next, Possible, Sound;
    PrefixIsRun(w, steps, n - 1);
    var before := At(w, steps, n - 1);
    EveryWorldIsSound(w, steps[..n - 1]);
    if i < |before.removed| {
      x := RemovedWasDeleted(w, steps, n - 1, i);
    } else {
      RemovedAppears(before, steps[n - 1], i);
      DeletingPlace(w, before);
      x := n - 1;
    }
  }

  lemma DeletingPlace(w0: World, w: World)
    requires Sound(w0, w) && w.removal.Deleting?
    ensures w.removal.i == |w.removed| < |w0.targets|
  {
  }

  /** Past the first listing, a listing of each target found nothing. */
  ghost predicate Past(r: Removal, i: nat) {
    if r.Listing? then r.i > i && !r.found else !r.Refused?
  }

  lemma PastAppears(w: World, step: Step, i: nat)
    requires Possible(w, step) && i < |w.targets| && Past(Next(w, step).removal, i) && !Past(w.removal, i)
    requires w.removal.Listing? ==> w.removal.i <= |w.targets|
    ensures step.Advance? && w.removal == Listing(i, false) && !Pointed(w.pins, w.targets[i])
  {
  }

  lemma {:induction false} PastWasListed(w: World, steps: seq<Step>, n: nat, i: nat) returns (l: nat)
    requires Fresh(w) && IsRun(w, steps) && n <= |steps| && i < |w.targets| && Past(At(w, steps, n).removal, i)
    ensures l < n && At(w, steps, l).removal == Listing(i, false) && !Pointed(At(w, steps, l).pins, w.targets[i])
    decreases n
  {
    hide Next, Possible, Past, Sound;
    NotPastAtFirst(w, i);
    assert !Past(At(w, steps, 0).removal, i);
    PrefixIsRun(w, steps, n - 1);
    EveryWorldIsSound(w, steps[..n - 1]);
    TargetsStay(w, steps[..n - 1]);
    ListingPlace(w, At(w, steps, n - 1));
    if Past(At(w, steps, n - 1).removal, i) {
      l := PastWasListed(w, steps, n - 1, i);
    } else {
      PastAppears(At(w, steps, n - 1), steps[n - 1], i);
      l := n - 1;
    }
  }

  lemma NotPastAtFirst(w: World, i: nat)
    requires Fresh(w)
    ensures !Past(w.removal, i)
  {
  }

  lemma ListingPlace(w0: World, w: World)
    requires Sound(w0, w)
    ensures w.removal.Listing? ==> w.removal.i <= |w.targets|
  {
  }

  lemma {:induction false} RemovedStays(w: World, steps: seq<Step>, m: nat, n: nat)
    requires Fresh(w) && IsRun(w, steps) && m <= n <= |steps|
    ensures |At(w, steps, m).removed| <= |At(w, steps, n).removed|
    decreases n
  {
    hide Next, Possible;
    if m < n {
      PrefixIsRun(w, steps, n - 1);
      RemovedStays(w, steps, m, n - 1);
      RemovedGrows(At(w, steps, n - 1), steps[n - 1]);
    }
  }

  lemma RemovedGrows(w: World, step: Step)
    requires Possible(w, step)
    ensures |w.removed| <= |Next(w, step).removed|
  {
  }

  /** The removal has put a record back, or refused. */
  predicate Over(r: Removal) { r.Refused? }

  lemma {:induction false} StaysOver(w: World, steps: seq<Step>, m: nat, n: nat)
    requires IsRun(w, steps) && m < n <= |steps|
    requires steps[m].Advance? && At(w, steps, m).removal.Restoring?
             && At(w, steps, m).removal.i < |At(w, steps, m).targets|
    ensures Over(At(w, steps, n).removal)
    decreases n
  {
    hide Next, Possible, Over;
    PrefixIsRun(w, steps, n - 1);
    if m < n - 1 {
      StaysOver(w, steps, m, n - 1);
      OverStays(At(w, steps, n - 1), steps[n - 1]);
    } else {
      RestoringEnds(At(w, steps, m), steps[m]);
    }
  }

  lemma OverStays(w: World, step: Step)
    requires Possible(w, step) && Over(w.removal)
    ensures Over(Next(w, step).removal)
  {
  }

  lemma RestoringEnds(w: World, step: Step)
    requires Possible(w, step) && step.Advance? && w.removal.Restoring? && w.removal.i < |w.targets|
    ensures Over(Next(w, step).removal)
  {
  }

  /** No check of a target passes from its withdrawal on, when the target was then deleted. */
  lemma DeletedWasClosed(w: World, steps: seq<Step>, d: nat, x: nat, i: nat, c: nat)
    requires Fresh(w) && IsRun(w, steps) && d < x < |steps| && d < c <= |steps| && i < |w.targets|
    requires steps[d].Advance? && At(w, steps, d).removal == Taking(i)
    requires steps[x].Advance? && At(w, steps, x).removal == Deleting(i)
    ensures Closed(At(w, steps, c), i)
  {
    hide Next, Possible, Sound;
    if c <= x {
      forall m | d < m < c && steps[m].Advance?
        ensures !At(w, steps, m).removal.Restoring?
      {
        PrefixIsRun(w, steps, m);
        EveryWorldIsSound(w, steps[..m]);
        RestoringPlace(w, At(w, steps, m));
        if At(w, steps, m).removal.Restoring? { StaysOver(w, steps, m, x); }
      }
      ClosedBetween(w, steps, d, c);
    } else {
      PrefixIsRun(w, steps, x);
      EveryWorldIsSound(w, steps[..x]);
      PrefixIsRun(w, steps, c);
      TargetsStay(w, steps[..c]);
      DeletingRemoves(w, At(w, steps, x), steps[x]);
      RemovedStays(w, steps, x + 1, c);
    }
  }

  lemma RestoringPlace(w0: World, w: World)
    requires Sound(w0, w)
    ensures w.removal.Restoring? ==> w.removal.i < |w.targets|
  {
  }

  lemma DeletingRemoves(w0: World, w: World, step: Step)
    requires Sound(w0, w) && Possible(w, step) && step.Advance? && w.removal.Deleting?
    ensures w.removal.i < |Next(w, step).removed|
  {
  }

  /** A version whose record said withdrawn from the start is never pinned anew. */
  lemma NeverCompleteAgain(w0: World, w: World, v: string, mine: bool)
    requires Sound(w0, w) && v in w0.versions && w0.versions[v].state == Withdrawn
    ensures !Pinnable(w.versions, v, mine)
  {
    if v in w.versions { assert w.versions[v].state == Withdrawn; }
  }

  /** A pin of the name to the `i`th target, checked at `c` before its withdrawal at `d`, and written at `k`
      after the second listing at `l`; it finds the name as it must be, and lasts. */
  ghost predicate LateWrite(w: World, steps: seq<Step>, i: nat, name: string, c: nat, d: nat, l: nat, k: nat)
    requires IsRun(w, steps) && i < |w.targets|
  {
    && c < d < l < k < |steps|
    && steps[c].Check? && steps[c].name == name && steps[c].ver == w.targets[i]
    && Pinnable(At(w, steps, c).versions, w.targets[i], steps[c].mine)
    && steps[d].Advance? && At(w, steps, d).removal == Taking(i)
    && steps[l].Advance? && At(w, steps, l).removal.Rechecking? && At(w, steps, l).removal.i == i
    && steps[k] == Write(steps[c].ticket)
    && Pins(At(w, steps, k), steps[k], name, w.targets[i]) && Lasts(w, steps, k + 1, |steps|, name, w.targets[i])
  }

  /** A version that was deleted is pinned only where the pin's check came before the withdrawal and its
      writing after the second listing. */
  lemma DeletedIsPinnedOnlyByALateWrite(w: World, steps: seq<Step>, i: nat, name: string)
    returns (c: nat, d: nat, l: nat, k: nat)
    requires Fresh(w) && IsRun(w, steps) && i < |Run(w, steps).removed|
    requires PinnedTo(Run(w, steps).pins, name, Run(w, steps).removed[i])
    ensures i < |w.targets| && w.targets[i] == Run(w, steps).removed[i] && LateWrite(w, steps, i, name, c, d, l, k)
  {
    hide Next, Possible, Sound, Pinnable, Closed, Lasts;
    var n := |steps|;
    assert steps[..n] == steps;
    RemovedIsTarget(w, steps, i);
    var x := RemovedWasDeleted(w, steps, n, i);
    var relisted;
    relisted, l := DeletingWasListed(w, steps, x);
    if !relisted { l := PastWasListed(w, steps, x, i); }
    k := PinWasWritten(w, steps, l, n, name, w.targets[i]);
    c := PendingWasChecked(w, steps, k, steps[k].ticket);
    PrefixIsRun(w, steps, c);
    EveryWorldIsSound(w, steps[..c]);
    if !relisted {
      NeverCompleteAgain(w, At(w, steps, c), w.targets[i], steps[c].mine);
      assert false;
    } else {
      d := RecheckedWasTaken(w, steps, l);
      if c > d {
        DeletedWasClosed(w, steps, d, x, i, c);
        TargetsStay(w, steps[..c]);
        ClosedRefuses(w, At(w, steps, c), i, steps[c].mine);
        assert false;
      }
    }
  }

  /** A version that was deleted is pinned exactly where there is such a write. */
  lemma DeletedIsPinnedExactlyWhen(w: World, steps: seq<Step>, i: nat, name: string)
    requires Fresh(w) && IsRun(w, steps) && i < |Run(w, steps).removed|
    ensures i < |w.targets| && w.targets[i] == Run(w, steps).removed[i]
    ensures PinnedTo(Run(w, steps).pins, name, Run(w, steps).removed[i])
            <==> exists c, d, l, k :: LateWrite(w, steps, i, name, c, d, l, k)
  {
    hide Pins, Lasts, PinnedTo, Next, Possible;
    RemovedIsTarget(w, steps, i);
    assert steps[..|steps|] == steps;
    if PinnedTo(Run(w, steps).pins, name, Run(w, steps).removed[i]) {
      var c, d, l, k := DeletedIsPinnedOnlyByALateWrite(w, steps, i, name);
    }
    if c, d, l, k :| LateWrite(w, steps, i, name, c, d, l, k) {
      WrittenPinLasts(w, steps, k, |steps|, name, w.targets[i]);
    }
  }

  lemma RemovedIsTarget(w: World, steps: seq<Step>, i: nat)
    requires Fresh(w) && IsRun(w, steps) && i < |Run(w, steps).removed|
    ensures i < |w.targets| && w.targets[i] == Run(w, steps).removed[i]
  {
    EveryWorldIsSound(w, steps);
  }

  lemma Then(w: World, steps: seq<Step>, step: Step)
    requires IsRun(w, steps) && Possible(Run(w, steps), step)
    ensures IsRun(w, steps + [step]) && Run(w, steps + [step]) == Next(Run(w, steps), step)
  {
    assert (steps + [step])[..|steps|] == steps;
  }

  lemma CheckedThenWithdrawn() returns (w: World, steps: seq<Step>)
    ensures Fresh(w) && IsRun(w, steps)
    ensures Run(w, steps) == World(map["1.0.0" := Record(Withdrawn, true, "")], map[], {"a"},
                                   map[0 := Pin("a", "1.0.0", true, true)],
                                   ["1.0.0"], Rechecking(0, Record(Complete, true, "")), [])
  {
    var v := "1.0.0";
    w := World(map[v := Record(Complete, true, "")], map[], {}, map[], [v], Listing(0, false), []);
    steps := [];
    assert IsRun(w, steps) && Run(w, steps) == w;
    hide IsRun, Run;
    Then(w, steps, Advance);
    steps := steps + [Advance];
    Then(w, steps, Advance);
    steps := steps + [Advance];
    Then(w, steps, Check(0, "a", v, true, true));
    steps := steps + [Check(0, "a", v, true, true)];
    Then(w, steps, Claim(0));
    steps := steps + [Claim(0)];
    Then(w, steps, Advance);
    steps := steps + [Advance];
  }

  /** Such a pin exists: checked just before the withdrawal and written just after the second listing, it is
      left pointing at nothing. */
  lemma ALateWriteIsMissed() returns (w: World, steps: seq<Step>)
    ensures Fresh(w) && IsRun(w, steps)
    ensures var t := Run(w, steps); t.removal.Done? && t.versions == map[] && t.pins == map["a" := "1.0.0"]
  {
    hide IsRun, Run;
    w, steps := CheckedThenWithdrawn();
    Then(w, steps, Advance);
    steps := steps + [Advance];
    Then(w, steps, Write(0));
    steps := steps + [Write(0)];
    Then(w, steps, Advance);
    steps := steps + [Advance];
    Then(w, steps, Advance);
    steps := steps + [Advance];
  }

  // ----- When a removal is refused -----

  /** The act lists the pins to a target for the first time, or, having withdrawn it, for the second. */
  predicate Lists(r: Removal, i: nat) {
    (r.Listing? || r.Rechecking?) && r.i == i
  }

  /** The act lists the pins to a target, and there is one. */
  ghost predicate Finds(w: World, step: Step, i: nat) {
    step.Advance? && i < |w.targets| && Lists(w.removal, i) && Pointed(w.pins, w.targets[i])
  }

  ghost predicate FoundIn(w: World, steps: seq<Step>)
    requires IsRun(w, steps)
  {
    exists l: nat, i: nat :: l < |steps| && Finds(At(w, steps, l), steps[l], i)
  }

  /** Refused, or bound to be. */
  predicate Doomed(r: Removal) { r.Refused? || r.Restoring? || (r.Listing? && r.found) }

  lemma DoomedByFinding(w0: World, w: World, step: Step)
    requires Sound(w0, w) && Possible(w, step)
    ensures Doomed(Next(w, step).removal) <==> Doomed(w.removal) || exists i: nat :: Finds(w, step, i)
  {
    hide Pointed, Accounted;
    if step.Advance? && (w.removal.Listing? || w.removal.Rechecking?) {
      var i := w.removal.i;
      assert Finds(w, step, i) <==> i < |w.targets| && Pointed(w.pins, w.targets[i]);
      assert forall k: nat :: Finds(w, step, k) ==> k == i;
    }
  }

  lemma LastWorld(w: World, steps: seq<Step>)
    requires IsRun(w, steps) && steps != []
    ensures var last := |steps| - 1;
            && IsRun(w, steps[..last]) && Run(w, steps[..last]) == At(w, steps, last)
            && Possible(At(w, steps, last), steps[last]) && Run(w, steps) == Next(At(w, steps, last), steps[last])
    ensures forall n: nat :: n < |steps| ==> At(w, steps[..|steps| - 1], n) == At(w, steps, n)
  {
    hide Next, Possible;
    var front := steps[..|steps| - 1];
    forall n: nat | n < |steps|
      ensures At(w, front, n) == At(w, steps, n)
    {
      assert front[..n] == steps[..n];
    }
  }

  lemma FoundInBefore(w: World, steps: seq<Step>)
    requires IsRun(w, steps) && steps != []
    ensures IsRun(w, steps[..|steps| - 1])
    ensures var last := |steps| - 1;
            FoundIn(w, steps)
            <==> FoundIn(w, steps[..last]) || exists i: nat :: Finds(At(w, steps, last), steps[last], i)
  {
    hide Next, Possible, Finds, Run, At;
    var last := |steps| - 1;
    var front := steps[..last];
    LastWorld(w, steps);
    if l: nat, i: nat :| l < last && Finds(At(w, front, l), front[l], i) {
      assert Finds(At(w, steps, l), steps[l], i);
    }
    if i: nat :| Finds(At(w, steps, last), steps[last], i) { assert Finds(At(w, steps, last), steps[last], i); }
    if l: nat, i: nat :| l < |steps| && Finds(At(w, steps, l), steps[l], i) {
      assert l < last ==> Finds(At(w, front, l), front[l], i);
    }
  }

  lemma {:induction false} DoomedExactlyWhen(w: World, steps: seq<Step>)
    requires Fresh(w) && IsRun(w, steps)
    ensures Doomed(Run(w, steps).removal) <==> FoundIn(w, steps)
  {
    hide Next, Possible, Finds, Sound, Doomed, FoundIn;
    if steps == [] {
      NothingFoundYet(w);
    } else {
      var last := |steps| - 1;
      LastWorld(w, steps);
      DoomedExactlyWhen(w, steps[..last]);
      EveryWorldIsSound(w, steps[..last]);
      DoomedByFinding(w, At(w, steps, last), steps[last]);
      FoundInBefore(w, steps);
    }
  }

  lemma NothingFoundYet(w: World)
    requires Fresh(w)
    ensures !Doomed(w.removal) && IsRun(w, []) && !FoundIn(w, [])
  {
  }

  /** A removal that has ended was refused exactly when some target was pinned as it was listed: for the first time,
      or again after its withdrawal. */
  lemma RefusedExactlyWhen(w: World, steps: seq<Step>)
    requires Fresh(w) && IsRun(w, steps)
    requires Run(w, steps).removal.Refused? || Run(w, steps).removal.Done?
    ensures Run(w, steps).removal.Refused?
            <==> exists l: nat, i: nat :: l < |steps| && Finds(At(w, steps, l), steps[l], i)
  {
    DoomedExactlyWhen(w, steps);
  }

  lemma ListingCameBefore(w: World, step: Step)
    requires Possible(w, step) && Next(w, step).removal.Listing?
    ensures w.removal.Listing?
  {
  }

  lemma FoundKeepsListing(w: World, step: Step)
    requires Possible(w, step)
    requires Refusing(w.removal) || (w.removal.Listing? && exists i: nat :: Finds(w, step, i))
    ensures Refusing(Next(w, step).removal) && Next(w, step).removed == w.removed
    ensures Next(w, step).versions == w.versions
  {
    hide Pointed;
    if i: nat :| Finds(w, step, i) { assert step.Advance? && (w.removal.Listing? ==> w.removal.i == i); }
  }

  /** Still listing for the first time with a pin found, or refused. */
  predicate Refusing(r: Removal) { r.Refused? || (r.Listing? && r.found) }

  lemma {:induction false} ListedUntil(w: World, steps: seq<Step>, n: nat, l: nat)
    requires Fresh(w) && IsRun(w, steps) && n <= l <= |steps| && At(w, steps, l).removal.Listing?
    ensures At(w, steps, n).removal.Listing? && At(w, steps, n).removed == [] && At(w, steps, n).versions == w.versions
    decreases l
  {
    hide Next, Possible, Sound;
    PrefixIsRun(w, steps, n);
    if n == l {
      EveryWorldIsSound(w, steps[..n]);
      ListingIsWhole(w, At(w, steps, n));
    } else {
      PrefixIsRun(w, steps, l - 1);
      ListingCameBefore(At(w, steps, l - 1), steps[l - 1]);
      ListedUntil(w, steps, n, l - 1);
    }
  }

  lemma ListingIsWhole(w0: World, w: World)
    requires Sound(w0, w) && w.removal.Listing?
    ensures w.removed == [] && w.versions == w0.versions
  {
  }

  /** Where the first listing of a target finds a pin, nothing is ever removed and no record ever changed. */
  lemma {:induction false} FoundAtFirstRemovesNothing(w: World, steps: seq<Step>, l: nat, i: nat, n: nat)
    requires Fresh(w) && IsRun(w, steps) && l < |steps| && n <= |steps|
    requires At(w, steps, l).removal.Listing? && Finds(At(w, steps, l), steps[l], i)
    ensures At(w, steps, n).removed == [] && At(w, steps, n).versions == w.versions
    ensures l < n ==> Refusing(At(w, steps, n).removal)
    decreases n
  {
    hide Next, Possible, Sound, Finds;
    if n <= l {
      ListedUntil(w, steps, n, l);
    } else {
      PrefixIsRun(w, steps, n - 1);
      FoundAtFirstRemovesNothing(w, steps, l, i, n - 1);
      FoundKeepsListing(At(w, steps, n - 1), steps[n - 1]);
    }
  }

  /** A removal during which no target is ever pinned is not refused. */
  lemma NeverPinnedIsNotRefused(w: World, steps: seq<Step>)
    requires Fresh(w) && IsRun(w, steps)
    requires forall n: nat, i: nat :: n <= |steps| && i < |w.targets| ==> !Pointed(At(w, steps, n).pins, w.targets[i])
    ensures !Run(w, steps).removal.Refused?
    ensures Run(w, steps).removal.Done? ==> Run(w, steps).removed == w.targets
  {
    hide Next, Possible, Pointed;
    DoomedExactlyWhen(w, steps);
    EveryVersionIsAccountedFor(w, steps);
    if l: nat, i: nat :| l < |steps| && Finds(At(w, steps, l), steps[l], i) {
      PrefixIsRun(w, steps, l);
      TargetsStay(w, steps[..l]);
    }
  }

  // ----- What the others' acts do -----

  /** A check passes where the version is there, complete and offered; a creation takes its name where nobody has it;
      a write lands where the directory a creation made, or the record to be pointed anew, is there still. */
  lemma ActsOnPins(w: World, step: Step)
    requires Possible(w, step) && !step.Advance?
    ensures var t := Next(w, step);
            match step
            case Check(ticket, name, ver, creates, mine) =>
              t == if ver in w.versions && w.versions[ver].state == Complete && (w.versions[ver].shared || mine)
                   then w.(pending := w.pending[ticket := Pin(name, ver, creates, false)]) else w
            case Claim(ticket) =>
              var p := w.pending[ticket];
              t == if p.name in w.names then w.(pending := w.pending - {ticket})
                   else w.(names := w.names + {p.name}, pending := w.pending[ticket := p.(named := true)])
            case Write(ticket) =>
              var p := w.pending[ticket];
              t == if p.name in (if p.creates then w.names else w.pins.Keys)
                   then w.(pins := w.pins[p.name := p.ver], pending := w.pending - {ticket})
                   else w.(pending := w.pending - {ticket})
            case Drop(name) => t == w.(pins := w.pins - {name}, names := w.names - {name})
            case Advance => true
  {
  }

  // ----- The version a pin takes where none is named -----

  datatype Listed = Listed(v: Versions.Version, state: State)

  ghost predicate Ascending(listing: seq<Listed>) {
    && (forall i :: 0 <= i < |listing| ==> Versions.WellFormed(listing[i].v))
    && (forall i, j :: 0 <= i < j < |listing| ==> Versions.Compare(listing[i].v, listing[j].v) <= 0)
  }

  predicate IsRelease(l: Listed) {
    l.state == Complete && l.v.pre == []
  }

  /** The newest complete release of a listing in ascending order. */
  method PickNewest(listing: seq<Listed>) returns (pick: Option<Versions.Version>)
    requires Ascending(listing)
    ensures pick == None <==> forall i :: 0 <= i < |listing| ==> !IsRelease(listing[i])
    ensures pick.Some? ==> exists i :: 0 <= i < |listing| && IsRelease(listing[i]) && listing[i].v == pick.value
    ensures pick.Some? ==> forall i :: 0 <= i < |listing| && IsRelease(listing[i]) ==>
              Versions.Compare(listing[i].v, pick.value) <= 0
  {
    hide Versions.Compare, Versions.WellFormed;
    pick := None;
    for i := 0 to |listing|
      invariant pick == None <==> forall k :: 0 <= k < i ==> !IsRelease(listing[k])
      invariant pick.Some? ==> exists k :: 0 <= k < i && IsRelease(listing[k]) && listing[k].v == pick.value
      invariant pick.Some? ==> forall k :: 0 <= k < i && IsRelease(listing[k]) ==>
                  Versions.Compare(listing[k].v, pick.value) <= 0
    {
      if IsRelease(listing[i]) {
        pick := Some(listing[i].v);
        Versions.Antisymmetric(listing[i].v, listing[i].v);
      }
    }
  }

  // ----- The files, and the removal over them -----

  class Files {
    var versions: map<string, Record>
    var pins: map<string, string>
    var names: set<string>
    var pending: map<nat, Pin>
    // What the other parties do between each act of the removal and the next.
    var others: seq<seq<Step>>
    ghost var first: World
    ghost var steps: seq<Step>
    ghost var view: World

    ghost predicate Valid()
      reads this
    {
      && Fresh(first) && IsRun(first, steps) && view == Run(first, steps)
      && versions == view.versions && pins == view.pins && names == view.names && pending == view.pending
      && (forall i, j :: 0 <= i < |others| && 0 <= j < |others[i]| ==> !others[i][j].Advance?)
    }

    constructor (versions: map<string, Record>, pins: map<string, string>, names: set<string>, targets: seq<string>,
                 others: seq<seq<Step>>)
      requires pins.Keys <= names
      requires forall i :: 0 <= i < |targets| ==> targets[i] in versions
      requires forall i, j :: 0 <= i < j < |targets| ==> targets[i] != targets[j]
      requires forall i, j :: 0 <= i < |others| && 0 <= j < |others[i]| ==> !others[i][j].Advance?
      ensures Valid() && steps == [] && view == first
      ensures first == World(versions, pins, names, map[], targets, Listing(0, false), [])
    {
      this.versions, this.pins, this.names, this.others := versions, pins, names, others;
      pending := map[];
      first := World(versions, pins, names, map[], targets, Listing(0, false), []);
      view := first;
      steps := [];
    }

    ghost method Adopt(step: Step)
      requires Fresh(first) && IsRun(first, steps) && view == Run(first, steps) && Possible(view, step)
      requires versions == Next(view, step).versions && pins == Next(view, step).pins
      requires names == Next(view, step).names && pending == Next(view, step).pending
      requires forall i, j :: 0 <= i < |others| && 0 <= j < |others[i]| ==> !others[i][j].Advance?
      modifies this`steps, this`view
      ensures Valid() && view == Next(old(view), step)
    {
      hide Next, Possible;
      Then(first, steps, step);
      steps := steps + [step];
      view := Next(view, step);
    }

    /** The check of a pin: the version's record, as it stands. */
    method CheckPin(ticket: nat, name: string, ver: string, creates: bool, mine: bool) returns (ok: bool)
      requires Valid() && ticket !in pending
      modifies this`pending, this`steps, this`view
      ensures Valid() && view == Next(old(view), Step.Check(ticket, name, ver, creates, mine))
      ensures ok <==> Pinnable(versions, ver, mine)
    {
      ok := Pinnable(versions, ver, mine);
      if ok {
        pending := pending[ticket := Pin(name, ver, creates, false)];
      }
      Adopt(Step.Check(ticket, name, ver, creates, mine));
    }

    /** Takes a creation's name by making its directory, which must not be there. */
    method ClaimName(ticket: nat) returns (ok: bool)
      requires Valid() && ticket in pending && pending[ticket].creates && !pending[ticket].named
      modifies this`names, this`pending, this`steps, this`view
      ensures Valid() && view == Next(old(view), Step.Claim(ticket))
      ensures ok <==> old(pending)[ticket].name !in old(names)
    {
      var p := pending[ticket];
      ok := p.name !in names;
      if ok {
        names := names + {p.name};
        pending := pending[ticket := p.(named := true)];
      } else {
        pending := pending - {ticket};
      }
      Adopt(Step.Claim(ticket));
    }

    /** Writes a pin: a creation's record into its directory, or the record that is there anew. */
    method WritePin(ticket: nat) returns (ok: bool)
      requires Valid() && ticket in pending && (pending[ticket].creates ==> pending[ticket].named)
      modifies this`pins, this`pending, this`steps, this`view
      ensures Valid() && view == Next(old(view), Step.Write(ticket))
    {
      var p := pending[ticket];
      ok := Lands(pins, names, p);
      if ok {
        pins := pins[p.name := p.ver];
      }
      pending := pending - {ticket};
      Adopt(Step.Write(ticket));
    }

    method DropPin(name: string)
      requires Valid()
      modifies this`pins, this`names, this`steps, this`view
      ensures Valid() && view == Next(old(view), Step.Drop(name))
    {
      pins := pins - {name};
      names := names - {name};
      Adopt(Step.Drop(name));
    }

    /** The names pinned to a version. */
    method PointingAt(ver: string) returns (names: set<string>)
      ensures forall n :: n in names <==> n in pins && pins[n] == ver
      ensures names == {} <==> !Pointed(pins, ver)
    {
      names := set n | n in pins && pins[n] == ver;
      if n :| n in pins && pins[n] == ver { assert n in names; }
    }

    /** Lets the others act; only the removal moves the removal. */
    method Yield()
      requires Valid()
      modifies this
      ensures Valid() && first == old(first) && view.removal == old(view.removal) && view.removed == old(view.removed)
      ensures versions == old(versions)
    {
      if |others| == 0 {
        return;
      }
      var acts := others[0];
      others := others[1..];
      for i := 0 to |acts|
        invariant Valid() && first == old(first)
        invariant view.removal == old(view.removal) && view.removed == old(view.removed) && versions == old(versions)
      {
        match acts[i]
        case Check(ticket, name, ver, creates, mine) =>
          if ticket !in pending {
            var ok := CheckPin(ticket, name, ver, creates, mine);
          }
        case Claim(ticket) =>
          if ticket in pending && pending[ticket].creates && !pending[ticket].named {
            var ok := ClaimName(ticket);
          }
        case Write(ticket) =>
          if ticket in pending && (pending[ticket].creates ==> pending[ticket].named) {
            var ok := WritePin(ticket);
          }
        case Drop(name) => DropPin(name);
        case Advance =>
      }
    }

    /** The first listings, over every target. */
    method ListAll(targets: seq<string>) returns (found: bool)
      requires Valid() && targets == first.targets && view.removal == Listing(0, false)
      modifies this
      ensures Valid() && first == old(first)
      ensures view.removed == old(view.removed) && view.removal == if found then Refused else Taking(0)
    {
      found := false;
      for i := 0 to |targets|
        invariant Valid() && first == old(first) && view.removed == old(view.removed)
        invariant view.removal == Listing(i, found)
      {
        Yield();
        var names := PointingAt(targets[i]);
        found := found || names != {};
        TargetsStay(first, steps);
        Adopt(Advance);
      }
      TargetsStay(first, steps);
      Adopt(Advance);
    }

    /** The acts that take one version away: withdrawing its record, listing the pins once more, and then
        deleting, or, a pin having come in, restoring the record and giving up. */
    method Withdraw(i: nat, ver: string) returns (ok: bool)
      requires Valid() && i < |first.targets| && ver == first.targets[i] && view.removal == Taking(i)
      modifies this
      ensures Valid() && first == old(first)
      ensures ok ==> view.removal == Taking(i + 1) && view.removed == old(view.removed) + [ver]
      ensures !ok ==> view.removal.Refused? && view.removed == old(view.removed)
    {
      Yield();
      TargetsStay(first, steps);
      if ver in versions && versions[ver].state != Withdrawn {
        var previous := versions[ver];
        versions := versions[ver := previous.(state := Withdrawn)];
        Adopt(Advance);
        ok := Recheck(i, ver, previous);
        if !ok {
          return;
        }
      } else {
        Adopt(Advance);
      }
      Delete(i, ver);
      ok := true;
    }

    /** The second listing, and what it finds put right. */
    method Recheck(i: nat, ver: string, previous: Record) returns (ok: bool)
      requires Valid() && i < |first.targets| && ver == first.targets[i] && view.removal == Rechecking(i, previous)
      modifies this
      ensures Valid() && first == old(first) && view.removed == old(view.removed)
      ensures view.removal == if ok then Deleting(i) else Refused
    {
      Yield();
      TargetsStay(first, steps);
      var names := PointingAt(ver);
      Adopt(Advance);
      if names != {} {
        Yield();
        TargetsStay(first, steps);
        versions := versions[ver := previous];
        Adopt(Advance);
      }
      ok := names == {};
    }

    method Delete(i: nat, ver: string)
      requires Valid() && i < |first.targets| && ver == first.targets[i] && view.removal == Deleting(i)
      modifies this
      ensures Valid() && first == old(first)
      ensures view.removal == Taking(i + 1) && view.removed == old(view.removed) + [ver]
    {
      Yield();
      TargetsStay(first, steps);
      versions := versions - {ver};
      Adopt(Advance);
    }

    /** The whole removal: a listing of pins on every version first, then one version after another. */
    method Remove(targets: seq<string>) returns (removed: seq<string>, ok: bool)
      requires Valid() && targets == first.targets && steps == [] && view == first
      modifies this
      ensures Valid() && first == old(first) && removed == view.removed <= targets
      ensures ok <==> view.removal.Done? && removed == targets
      ensures !ok ==> view.removal.Refused?
      ensures !ok <==> exists l: nat, i: nat :: l < |steps| && Finds(At(first, steps, l), steps[l], i)
    {
      removed := [];
      var found := ListAll(targets);
      if found {
        RefusedExactlyWhen(first, steps);
        return [], false;
      }
      for i := 0 to |targets|
        invariant Valid() && first == old(first) && view.removal == Taking(i) && removed == view.removed
      {
        var gone := Withdraw(i, targets[i]);
        if !gone {
          EveryVersionIsAccountedFor(first, steps);
          RefusedExactlyWhen(first, steps);
          return removed, false;
        }
        removed := removed + [targets[i]];
      }
      TargetsStay(first, steps);
      Adopt(Advance);
      EveryVersionIsAccountedFor(first, steps);
      RefusedExactlyWhen(first, steps);
      return removed, true;
    }
  }
}
