/** What the Core publishes, the class its type was declared with, and the filters that select it. An event
    of a level replaces the last event about the same subject and of the same declared state, a stream's two
    types being one. A filter asks for a kind, an id, a floor of severity, and a type and an occurrence by
    name or by the segments they begin with; the last lemmas say which filters answer alike on one level. */
module Events {
  import opened Text

  /** An event's fields, as far as publication and selection read them; `stream` is the stream a stream
      event's detail names. */
  datatype Event = Event(
    seqno: nat,
    typ: string,
    kind: string,
    id: string,
    incarnation: nat,
    actor: string,
    timed: bool,
    severity: int,
    occurrence: string,
    stream: string
  )

  const KINDS := {"instance", "unit", "plugin", "channel", "document", "connection"}
  const ACTORS := {"core", "operator", "unit", "host"}
  const OCCURRENCE := "unit.occurrence.reported"
  const ACTIVATED := "unit.stream.activated"
  const STOPPED := "unit.stream.stopped"
  const LEVELS := {
    "instance.ready", "instance.stopping", "unit.state.changed", "unit.condition.changed", ACTIVATED, STOPPED,
    "document.resolved", "connection.opened", "channel.attached", "channel.detached", "channel.suspended",
    "channel.resumed", "channel.subscription.stale", "connection.closed", "plugin.policy.changed"
  }
  const EDGES := {OCCURRENCE, "document.rejected"}

  /** The declared types that are levels; no other type is one. */
  predicate IsLevel(typ: string) { typ in LEVELS }

  function FirstSegment(s: string): string {
    if s == "" || s[0] == '.' then "" else [s[0]] + FirstSegment(s[1..])
  }

  /** The event fits its eight fields. */
  predicate Fits(e: Event) {
    && e.typ in LEVELS + EDGES
    && FirstSegment(e.typ) == e.kind && e.kind in KINDS
    && e.id != ""
    && (e.kind != "unit" ==> e.incarnation == 0)
    && e.actor in ACTORS
    && 0 <= e.severity <= 99
    && e.timed
    && (e.typ == OCCURRENCE <==> e.occurrence != "")
  }

  /** Two events with one key are values of the same thing, and the later is current. The types of a stream
      being activated and stopped share a key. */
  datatype LevelKey = LevelKey(typ: string, kind: string, id: string, stream: string)

  function LevelOf(e: Event): LevelKey {
    if e.typ == ACTIVATED || e.typ == STOPPED then LevelKey("unit.stream", e.kind, e.id, e.stream)
    else LevelKey(e.typ, e.kind, e.id, "")
  }

  datatype Filter = Filter(
    kind: string,
    id: string,
    floor: int,
    typ: string,
    typPrefix: bool,
    occurrence: string,
    occurrencePrefix: bool
  ) {
    predicate Selects(e: Event) {
      && (kind == "" || e.kind == kind)
      && (id == "" || e.id == id)
      && e.severity >= floor
      && (typ == "" || Named(e.typ, typ, typPrefix))
      && (occurrence == "" || Named(e.occurrence, occurrence, occurrencePrefix))
    }
  }

  function TrimDot(s: string): string {
    if s != "" && s[|s| - 1] == '.' then s[..|s| - 1] else s
  }

  predicate Named(name: string, want: string, prefix: bool) {
    name == want || (prefix && TrimDot(want) + "." <= name)
  }

  // ----- A prefix reads segments -----

  function Segments(s: string): (r: seq<string>)
    ensures r != []
  {
    Split(s, '.')
  }

  lemma {:induction false} SegmentsRestore(a: string, s: string)
    requires Segments(a) < Segments(s)
    ensures a + "." <= s
  {
    if a == "" {
      assert "." <= s;
    } else {
      var x, y := Segments(a[1..]), Segments(s[1..]);
      assert Segments(a)[0] == Segments(s)[0];
      if a[0] == '.' {
        assert s[0] == '.';
        assert Segments(a)[1..] == x && Segments(s)[1..] == y;
        assert x < y;
      } else {
        assert s[0] != '.';
        assert ([a[0]] + x[0])[0] == ([s[0]] + y[0])[0];
        assert x[0] == ([a[0]] + x[0])[1..] && y[0] == ([s[0]] + y[0])[1..];
        assert x == [x[0]] + x[1..] && y == [y[0]] + y[1..];
        assert Segments(a)[1..] == x[1..] && Segments(s)[1..] == y[1..];
        assert x < y;
      }
      SegmentsRestore(a[1..], s[1..]);
      assert a == [a[0]] + a[1..] && s == [s[0]] + s[1..];
      assert a + "." == [a[0]] + (a[1..] + ".");
    }
  }

  /** A prefix selects the names that equal it or continue it by whole segments, never by part of one. */
  lemma PrefixReadsSegments(name: string, want: string)
    ensures Named(name, want, true) <==> name == want || Segments(TrimDot(want)) < Segments(name)
  {
    var w := TrimDot(want);
    if w + "." <= name {
      assert name == w + "." + name[|w| + 1..];
      SplitAppend(w, '.', name[|w| + 1..]);
    }
    if Segments(w) < Segments(name) { SegmentsRestore(w, name); }
  }

  // ----- What a filter refuses -----

  /** The name is neither the one wanted nor, where a prefix is, one that continues it by whole segments. */
  ghost predicate Strays(name: string, want: string, prefix: bool) {
    want != "" && name != want && !(prefix && Segments(TrimDot(want)) < Segments(name))
  }

  /** A filter refuses exactly the events that miss one of the axes it states: another kind, another subject, below
      its floor, or a type or an occurrence that strays. */
  lemma RefusedExactlyWhen(f: Filter, e: Event)
    ensures !f.Selects(e)
            <==> (f.kind != "" && f.kind != e.kind) || (f.id != "" && f.id != e.id) || e.severity < f.floor
                 || Strays(e.typ, f.typ, f.typPrefix) || Strays(e.occurrence, f.occurrence, f.occurrencePrefix)
  {
    PrefixReadsSegments(e.typ, f.typ);
    PrefixReadsSegments(e.occurrence, f.occurrence);
  }

  // ----- Filters that answer alike on all events of one level -----

  ghost predicate AlikeOnLevels(f: Filter) {
    forall d, e :: Fits(d) && Fits(e) && IsLevel(d.typ) && IsLevel(e.typ) && LevelOf(d) == LevelOf(e) ==>
        (f.Selects(d) <==> f.Selects(e))
  }

  lemma LevelLengths(typ: string)
    requires IsLevel(typ)
    ensures |typ| != |OCCURRENCE| && |typ| != |"unit.stream"|
  {
  }

  lemma OneLevel(d: Event, e: Event)
    requires Fits(d) && Fits(e) && IsLevel(d.typ) && IsLevel(e.typ) && LevelOf(d) == LevelOf(e)
    ensures d.kind == e.kind && d.id == e.id && d.occurrence == e.occurrence == ""
    ensures d.severity >= 0 && e.severity >= 0
    ensures d.typ == e.typ || {d.typ, e.typ} == {ACTIVATED, STOPPED}
  {
    LevelLengths(d.typ);
    LevelLengths(e.typ);
  }

  /** A filter whose floor cuts no severity off and whose type axis does not tell a stream's two states
      apart answers alike on all events of one level. */
  lemma PlainFilterIsAlike(f: Filter)
    requires f.floor <= 0
    requires f.typ == "" || (Named(ACTIVATED, f.typ, f.typPrefix) <==> Named(STOPPED, f.typ, f.typPrefix))
    ensures AlikeOnLevels(f)
  {
    hide Fits, LevelOf, IsLevel, Named;
    forall d, e | Fits(d) && Fits(e) && IsLevel(d.typ) && IsLevel(e.typ) && LevelOf(d) == LevelOf(e)
      ensures f.Selects(d) <==> f.Selects(e)
    {
      OneLevel(d, e);
      assert f.typ == "" || (Named(d.typ, f.typ, f.typPrefix) <==> Named(e.typ, f.typ, f.typPrefix)) by {
        if d.typ != e.typ { assert d.typ in {ACTIVATED, STOPPED} && e.typ in {ACTIVATED, STOPPED}; }
      }
    }
  }
}
