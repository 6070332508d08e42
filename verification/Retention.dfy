/** What cleaning the log store keeps of a group, and how much cleaning makes the file be rewritten. */
module Retention {
  import opened Prelude

  const CORE := "/core"

  const VACUUM_AFTER := 10_000

  /** Entries are held in the order of their sequence numbers, oldest first; `at` counts nanoseconds. */
  datatype Entry = Entry(unit: Option<string>, at: int, message: nat, detail: nat)

  /** The statements receive the two limits as signed numbers. */
  datatype Limits = Limits(age: int, bytes: Uint64, entries: Uint64)

  predicate Belongs(e: Entry, group: string) {
    e.unit == if group == CORE then None else Some(group)
  }

  ghost function Of(es: seq<Entry>, group: string): (r: seq<Entry>)
    ensures |r| <= |es|
  {
    if es == [] then [] else (if Belongs(es[0], group) then [es[0]] else []) + Of(es[1..], group)
  }

  ghost function Others(es: seq<Entry>, group: string): seq<Entry> {
    if es == [] then [] else (if Belongs(es[0], group) then [] else [es[0]]) + Others(es[1..], group)
  }

  function Size(s: seq<Entry>): nat {
    if s == [] then 0 else s[0].message + s[0].detail + Size(s[1..])
  }

  // ----- The three passes -----

  datatype Pass = ByBytes(limit: int) | ByCount(limit: int)

  ghost function Measure(s: seq<Entry>, p: Pass): nat {
    if p.ByBytes? then Size(s) else |s|
  }

  /** What counting from the newest passes at this entry. */
  ghost predicate Over(s: seq<Entry>, p: Pass) {
    Measure(s, p) > p.limit
  }

  ghost function Pruned(es: seq<Entry>, group: string, p: Pass): seq<Entry> {
    if es == [] then []
    else (if Belongs(es[0], group) && Over(Of(es, group), p) then [] else [es[0]]) + Pruned(es[1..], group, p)
  }

  ghost function Aged(es: seq<Entry>, group: string, cutoff: int): seq<Entry> {
    if es == [] then []
    else (if Belongs(es[0], group) && es[0].at < cutoff then [] else [es[0]]) + Aged(es[1..], group, cutoff)
  }

  ghost function Bounded(es: seq<Entry>, group: string, l: Limits): seq<Entry> {
    var b := if l.bytes > 0 then Pruned(es, group, ByBytes(Signed(l.bytes))) else es;
    if l.entries > 0 then Pruned(b, group, ByCount(Signed(l.entries))) else b
  }

  /** Age bounds a group first, and the two limits what then remains. */
  ghost function Cleaned(es: seq<Entry>, group: string, l: Limits, now: int): seq<Entry> {
    Bounded(if l.age > 0 then Aged(es, group, now - l.age) else es, group, l)
  }

  // ----- What a pass leaves of a list -----

  ghost function Young(s: seq<Entry>, l: Limits, now: int): seq<Entry> {
    if s == [] then [] else (if l.age > 0 && s[0].at < now - l.age then [] else [s[0]]) + Young(s[1..], l, now)
  }

  ghost function Fitting(s: seq<Entry>, p: Pass): (r: seq<Entry>)
    ensures |r| <= |s|
  {
    if s == [] then [] else if Over(s, p) then Fitting(s[1..], p) else s
  }

  lemma {:induction false} FittingIsSuffix(s: seq<Entry>, p: Pass)
    ensures var r := Fitting(s, p); r == s[|s| - |r|..] && (r != [] ==> !Over(r, p))
  {
    if s != [] && Over(s, p) { FittingIsSuffix(s[1..], p); }
  }

  lemma {:induction false} SizeFalls(s: seq<Entry>, k: nat)
    requires k <= |s|
    ensures Size(s[k..]) <= Size(s)
  {
    if k > 0 {
      SizeFalls(s[1..], k - 1);
      assert s[1..][k - 1..] == s[k..];
    }
  }

  /** Every longer run than the one left is over the limit. */
  lemma {:induction false} FittingIsLongest(s: seq<Entry>, p: Pass, j: nat)
    requires j < |s| - |Fitting(s, p)|
    ensures Over(s[j..], p)
  {
    if j > 0 {
      FittingIsLongest(s[1..], p, j - 1);
      assert s[1..][j - 1..] == s[j..];
    } else {
      assert s[0..] == s;
    }
  }

  lemma HeadOf(es: seq<Entry>, group: string)
    requires es != []
    ensures Belongs(es[0], group) ==>
              Of(es, group) != [] && Of(es, group)[0] == es[0] && Of(es, group)[1..] == Of(es[1..], group)
    ensures !Belongs(es[0], group) ==> Of(es, group) == Of(es[1..], group)
  {
    assert [] + Of(es[1..], group) == Of(es[1..], group);
  }

  lemma Prepended(e: Entry, rest: seq<Entry>, group: string)
    ensures Of([e] + rest, group) == (if Belongs(e, group) then [e] else []) + Of(rest, group)
    ensures Others([e] + rest, group) == (if Belongs(e, group) then [] else [e]) + Others(rest, group)
  {
    assert ([e] + rest)[1..] == rest;
  }

  lemma {:induction false} UnderIsKept(es: seq<Entry>, group: string, p: Pass)
    requires !Over(Of(es, group), p)
    ensures Pruned(es, group, p) == es
  {
    if es != [] {
      HeadOf(es, group);
      UnderIsKept(es[1..], group, p);
    }
  }

  lemma {:induction false} PrunedIsFitting(es: seq<Entry>, group: string, p: Pass)
    ensures Of(Pruned(es, group, p), group) == Fitting(Of(es, group), p)
    ensures Others(Pruned(es, group, p), group) == Others(es, group)
  {
    hide Over, Belongs;
    if es == [] {
    } else if Over(Of(es, group), p) {
      HeadOf(es, group);
      PrunedIsFitting(es[1..], group, p);
      var rest := Pruned(es[1..], group, p);
      assert [] + rest == rest && [] + Others(rest, group) == Others(rest, group);
      if !Belongs(es[0], group) { PrunedOther(es, group, p); }
    } else {
      UnderIsKept(es, group, p);
    }
  }

  lemma PrunedOther(es: seq<Entry>, group: string, p: Pass)
    requires es != [] && !Belongs(es[0], group)
    ensures Of(Pruned(es, group, p), group) == Of(Pruned(es[1..], group, p), group)
    ensures Others(Pruned(es, group, p), group) == [es[0]] + Others(Pruned(es[1..], group, p), group)
  {
    var rest := Pruned(es[1..], group, p);
    Prepended(es[0], rest, group);
    assert [] + Of(rest, group) == Of(rest, group);
  }

  lemma {:induction false} AgedIsYoung(es: seq<Entry>, group: string, l: Limits, now: int)
    requires l.age > 0
    ensures Of(Aged(es, group, now - l.age), group) == Young(Of(es, group), l, now)
    ensures Others(Aged(es, group, now - l.age), group) == Others(es, group)
  {
    if es != [] {
      HeadOf(es, group);
      AgedIsYoung(es[1..], group, l, now);
      var rest := Aged(es[1..], group, now - l.age);
      Prepended(es[0], rest, group);
      assert [] + rest == rest && [] + Of(rest, group) == Of(rest, group)
             && [] + Others(rest, group) == Others(rest, group);
    }
  }

  lemma {:induction false} AgelessIsYoung(s: seq<Entry>, l: Limits, now: int)
    requires l.age <= 0
    ensures Young(s, l, now) == s
  {
    if s != [] { AgelessIsYoung(s[1..], l, now); }
  }

  // ----- The rule -----

  /** Both limits, zero constraining nothing. */
  ghost predicate Fits(s: seq<Entry>, l: Limits) {
    (l.bytes == 0 || Size(s) <= l.bytes) && (l.entries == 0 || |s| <= l.entries)
  }

  /** `r` is the longest run of `s` ending at its newest entry that fits. */
  ghost predicate LongestRun(r: seq<Entry>, s: seq<Entry>, l: Limits) {
    && |r| <= |s| && r == s[|s| - |r|..] && Fits(r, l)
    && forall j: nat :: j < |s| - |r| ==> !Fits(s[j..], l)
  }

  ghost function Kept(s: seq<Entry>, l: Limits): (r: seq<Entry>)
    ensures |r| <= |s|
  {
    var b := if l.bytes > 0 then Fitting(s, ByBytes(Signed(l.bytes))) else s;
    if l.entries > 0 then Fitting(b, ByCount(Signed(l.entries))) else b
  }

  lemma BoundedIsKept(es: seq<Entry>, group: string, l: Limits)
    ensures Of(Bounded(es, group, l), group) == Kept(Of(es, group), l)
    ensures Others(Bounded(es, group, l), group) == Others(es, group)
  {
    var b := if l.bytes > 0 then Pruned(es, group, ByBytes(Signed(l.bytes))) else es;
    if l.bytes > 0 { PrunedIsFitting(es, group, ByBytes(Signed(l.bytes))); }
    if l.entries > 0 { PrunedIsFitting(b, group, ByCount(Signed(l.entries))); }
  }

  /** Cleaning touches one group, and leaves of it what fits of its young-enough entries. */
  lemma CleanedIsKept(es: seq<Entry>, group: string, l: Limits, now: int)
    ensures Of(Cleaned(es, group, l, now), group) == Kept(Young(Of(es, group), l, now), l)
    ensures Others(Cleaned(es, group, l, now), group) == Others(es, group)
  {
    var a := if l.age > 0 then Aged(es, group, now - l.age) else es;
    if l.age > 0 { AgedIsYoung(es, group, l, now); } else { AgelessIsYoung(Of(es, group), l, now); }
    BoundedIsKept(a, group, l);
  }

  ghost predicate Representable(l: Limits) {
    l.bytes < TWO_63 && l.entries < TWO_63
  }

  lemma OverDoesNotFit(s: seq<Entry>, p: Pass, l: Limits)
    requires Over(s, p)
    requires (p == ByBytes(l.bytes) && l.bytes > 0) || (p == ByCount(l.entries) && l.entries > 0)
    ensures !Fits(s, l)
  {
  }

  lemma KeptIsSuffix(s: seq<Entry>, l: Limits)
    ensures var r := Kept(s, l); r == s[|s| - |r|..]
  {
    var b := if l.bytes > 0 then Fitting(s, ByBytes(Signed(l.bytes))) else s;
    FittingIsSuffix(s, ByBytes(Signed(l.bytes)));
    FittingIsSuffix(b, ByCount(Signed(l.entries)));
  }

  lemma KeptFits(s: seq<Entry>, l: Limits)
    requires Representable(l)
    ensures Fits(Kept(s, l), l)
  {
    var b := if l.bytes > 0 then Fitting(s, ByBytes(l.bytes)) else s;
    FittingIsSuffix(s, ByBytes(l.bytes));
    FittingIsSuffix(b, ByCount(l.entries));
    SizeFalls(b, |b| - |Kept(s, l)|);
    assert l.bytes > 0 ==> Size(b) <= l.bytes;
  }

  lemma KeptIsLongest(s: seq<Entry>, l: Limits)
    requires Representable(l)
    ensures LongestRun(Kept(s, l), s, l)
  {
    hide Fits, Over;
    KeptFits(s, l);
    KeptIsSuffix(s, l);
    var r := Kept(s, l);
    var b := if l.bytes > 0 then Fitting(s, ByBytes(l.bytes)) else s;
    forall j: nat | j < |s| - |r|
      ensures !Fits(s[j..], l)
    {
      if j < |s| - |b| {
        FittingIsLongest(s, ByBytes(l.bytes), j);
        OverDoesNotFit(s[j..], ByBytes(l.bytes), l);
      } else {
        var k := j - (|s| - |b|);
        FittingIsLongest(b, ByCount(l.entries), k);
        FittingIsSuffix(s, ByBytes(l.bytes));
        assert b[k..] == s[j..];
        OverDoesNotFit(s[j..], ByCount(l.entries), l);
      }
    }
  }

  /** A limit no signed integer holds deletes the whole group. */
  lemma {:induction false} NegativeKeepsNothing(s: seq<Entry>, p: Pass)
    requires p.limit < 0
    ensures Fitting(s, p) == []
  {
    if s != [] { NegativeKeepsNothing(s[1..], p); }
  }

  lemma UnrepresentableKeepsNothing(s: seq<Entry>, l: Limits)
    requires !Representable(l)
    ensures Kept(s, l) == []
  {
    var b := if l.bytes > 0 then Fitting(s, ByBytes(Signed(l.bytes))) else s;
    if l.bytes >= TWO_63 { NegativeKeepsNothing(s, ByBytes(Signed(l.bytes))); }
    if l.entries >= TWO_63 { NegativeKeepsNothing(b, ByCount(Signed(l.entries))); }
  }

  lemma NothingIsLongestExactlyWhen(s: seq<Entry>, l: Limits)
    ensures LongestRun([], s, l) <==> s == [] || !Fits(s[|s| - 1..], l)
  {
    assert s[|s|..] == [];
    if s != [] && !Fits(s[|s| - 1..], l) {
      forall j: nat | j < |s|
        ensures !Fits(s[j..], l)
      {
        SizeFalls(s[j..], |s| - 1 - j);
        assert s[j..][|s| - 1 - j..] == s[|s| - 1..];
      }
    }
  }

  /** Cleaning keeps the longest newest-first run of young-enough entries that fits both limits exactly where
      both limits are below 2^63, or where not even the newest of them would fit. */
  lemma CleaningKeepsTheLongestRunExactlyWhen(es: seq<Entry>, group: string, l: Limits, now: int)
    ensures var young := Young(Of(es, group), l, now);
            LongestRun(Of(Cleaned(es, group, l, now), group), young, l)
            <==> Representable(l) || young == [] || !Fits(young[|young| - 1..], l)
  {
    hide LongestRun, Fits, Cleaned, Kept;
    CleanedIsKept(es, group, l, now);
    var young := Young(Of(es, group), l, now);
    if Representable(l) {
      KeptIsLongest(young, l);
    } else {
      UnrepresentableKeepsNothing(young, l);
      NothingIsLongestExactlyWhen(young, l);
    }
  }

  // ----- Whose entries, and how young -----

  /** `r` is `s` with some left out, in its order. */
  ghost predicate Thins(s: seq<Entry>, r: seq<Entry>) {
    if s == [] then r == []
    else (r != [] && r[0] == s[0] && Thins(s[1..], r[1..])) || Thins(s[1..], r)
  }

  /** The size of a list is the sum of what each entry's message and detail take. */
  lemma {:induction false} SizeIsTheSum(s: seq<Entry>, e: Entry)
    ensures Size([]) == 0 && Size(s + [e]) == Size(s) + e.message + e.detail
  {
    if s == [] {
      assert s + [e] == [e];
    } else {
      SizeIsTheSum(s[1..], e);
      assert (s + [e])[1..] == s[1..] + [e];
    }
  }

  lemma Thinned(e: Entry, s: seq<Entry>, r: seq<Entry>)
    requires Thins(s, r)
    ensures Thins([e] + s, r) && Thins([e] + s, [e] + r)
  {
    assert ([e] + s)[1..] == s && ([e] + r)[1..] == r;
  }

  /** A group is the entries of its unit, or, of the Core's own, those of none. */
  lemma {:induction false} GroupIsTheUnits(es: seq<Entry>, group: string, e: Entry)
    ensures multiset(Of(es, group))[e]
            == if e.unit == (if group == CORE then None else Some(group)) then multiset(es)[e] else 0
  {
    if es != [] {
      GroupIsTheUnits(es[1..], group, e);
      assert es == [es[0]] + es[1..];
    }
  }

  /** The others are the rest. */
  lemma {:induction false} OthersAreTheRest(es: seq<Entry>, group: string, e: Entry)
    ensures multiset(Others(es, group))[e]
            == if e.unit == (if group == CORE then None else Some(group)) then 0 else multiset(es)[e]
  {
    if es != [] {
      OthersAreTheRest(es[1..], group, e);
      assert es == [es[0]] + es[1..];
    }
  }

  lemma {:induction false} GroupIsInOrder(es: seq<Entry>, group: string)
    ensures Thins(es, Of(es, group)) && Thins(es, Others(es, group))
  {
    if es != [] {
      var rest := es[1..];
      GroupIsInOrder(rest, group);
      assert es == [es[0]] + rest;
      Thinned(es[0], rest, Of(rest, group));
      Thinned(es[0], rest, Others(rest, group));
      assert [] + Of(rest, group) == Of(rest, group) && [] + Others(rest, group) == Others(rest, group);
      hide Thins;
    }
  }

  /** Too old is what was logged before the age allowed, counted back from now; no age allows any. */
  lemma {:induction false} YoungIsRecent(s: seq<Entry>, l: Limits, now: int, e: Entry)
    ensures multiset(Young(s, l, now))[e] == if l.age > 0 && e.at < now - l.age then 0 else multiset(s)[e]
    ensures Thins(s, Young(s, l, now))
  {
    if s != [] {
      var rest := s[1..];
      YoungIsRecent(rest, l, now, e);
      assert s == [s[0]] + rest;
      Thinned(s[0], rest, Young(rest, l, now));
      assert [] + Young(rest, l, now) == Young(rest, l, now);
    }
  }

  // ----- Cleaning again, and in another order -----

  /** The store without the group's oldest `k` entries. */
  ghost function Without(es: seq<Entry>, group: string, k: nat): seq<Entry> {
    if es == [] then []
    else if Belongs(es[0], group) && k > 0 then Without(es[1..], group, k - 1)
    else [es[0]] + Without(es[1..], group, k)
  }

  lemma {:induction false} WithoutNone(es: seq<Entry>, group: string)
    ensures Without(es, group, 0) == es
  {
    if es != [] { WithoutNone(es[1..], group); }
  }

  lemma {:induction false} WithoutTwice(es: seq<Entry>, group: string, k: nat, j: nat)
    ensures Without(Without(es, group, k), group, j) == Without(es, group, k + j)
  {
    if es == [] {
    } else if k == 0 {
      WithoutNone(es, group);
    } else if Belongs(es[0], group) {
      WithoutTwice(es[1..], group, k - 1, j);
    } else {
      WithoutTwice(es[1..], group, k, j);
      assert ([es[0]] + Without(es[1..], group, k))[1..] == Without(es[1..], group, k);
    }
  }

  /** A pass by a limit takes the oldest of the group, as many as do not fit. */
  lemma {:induction false} PrunedIsWithout(es: seq<Entry>, group: string, p: Pass)
    ensures Pruned(es, group, p) == Without(es, group, |Of(es, group)| - |Fitting(Of(es, group), p)|)
  {
    if es == [] {
    } else if Over(Of(es, group), p) {
      HeadOf(es, group);
      PrunedIsWithout(es[1..], group, p);
      assert [] + Pruned(es[1..], group, p) == Pruned(es[1..], group, p);
      if !Belongs(es[0], group) { NotFirst(es, group, p); }
    } else {
      UnderIsKept(es, group, p);
      WithoutNone(es, group);
    }
  }

  lemma NotFirst(es: seq<Entry>, group: string, p: Pass)
    requires es != [] && !Belongs(es[0], group)
    ensures Pruned(es, group, p) == [es[0]] + Pruned(es[1..], group, p)
  {
  }

  lemma {:induction false} FittingTwice(s: seq<Entry>, p: Pass, q: Pass)
    requires p.ByBytes? && q.ByCount?
    ensures Fitting(Fitting(s, p), q) == Fitting(Fitting(s, q), p)
  {
    if s == [] {
    } else if Over(s, p) && Over(s, q) {
      FittingTwice(s[1..], p, q);
    } else if Over(s, p) {
      FittingIsSuffix(s, p);
      StaysUnder(s, q, |s| - |Fitting(s, p)|);
    } else if Over(s, q) {
      FittingIsSuffix(s, q);
      StaysUnder(s, p, |s| - |Fitting(s, q)|);
    }
  }

  lemma StaysUnder(s: seq<Entry>, p: Pass, k: nat)
    requires !Over(s, p) && k <= |s|
    ensures Fitting(s[k..], p) == s[k..]
  {
    SizeFalls(s, k);
  }

  /** The bytes and the count passes give the same store in either order. */
  lemma PassesCommute(es: seq<Entry>, group: string, bytes: int, count: int)
    ensures Pruned(Pruned(es, group, ByBytes(bytes)), group, ByCount(count))
            == Pruned(Pruned(es, group, ByCount(count)), group, ByBytes(bytes))
  {
    hide *;
    var s := Of(es, group);
    TwoPasses(es, group, ByBytes(bytes), ByCount(count));
    TwoPasses(es, group, ByCount(count), ByBytes(bytes));
    FittingTwice(s, ByBytes(bytes), ByCount(count));
  }

  lemma TwoPasses(es: seq<Entry>, group: string, p: Pass, q: Pass)
    ensures Pruned(Pruned(es, group, p), group, q)
            == Without(es, group, |Of(es, group)| - |Fitting(Fitting(Of(es, group), p), q)|)
  {
    hide Pruned, Without, Of, Fitting, Others;
    var s := Of(es, group);
    PrunedIsFitting(es, group, p);
    PrunedIsWithout(es, group, p);
    PrunedIsWithout(Pruned(es, group, p), group, q);
    WithoutTwice(es, group, |s| - |Fitting(s, p)|, |Fitting(s, p)| - |Fitting(Fitting(s, p), q)|);
  }

  lemma {:induction false} AllYoungIsKept(es: seq<Entry>, group: string, l: Limits, now: int)
    requires l.age > 0 && Young(Of(es, group), l, now) == Of(es, group)
    ensures Aged(es, group, now - l.age) == es
  {
    hide Belongs;
    if es != [] {
      HeadOf(es, group);
      var s := Of(es, group);
      if Belongs(es[0], group) {
        YoungIsAll(s[1..], l, now);
        assert s[0].at >= now - l.age && Young(s, l, now)[1..] == Young(s[1..], l, now);
      }
      AllYoungIsKept(es[1..], group, l, now);
    }
  }

  lemma {:induction false} YoungIsAll(s: seq<Entry>, l: Limits, now: int)
    ensures |Young(s, l, now)| <= |s| && (|Young(s, l, now)| == |s| ==> Young(s, l, now) == s)
  {
    if s != [] { YoungIsAll(s[1..], l, now); }
  }

  lemma {:induction false} YoungStayYoung(s: seq<Entry>, l: Limits, now: int, k: nat)
    requires k <= |Young(s, l, now)|
    ensures Young(Young(s, l, now)[k..], l, now) == Young(s, l, now)[k..]
  {
    if s != [] {
      var rest := Young(s[1..], l, now);
      if l.age > 0 && s[0].at < now - l.age {
        YoungStayYoung(s[1..], l, now, k);
        assert [] + rest == rest;
      } else {
        YoungStayYoung(s[1..], l, now, if k == 0 then 0 else k - 1);
        if k > 0 { assert ([s[0]] + rest)[k..] == rest[k - 1..]; }
        assert rest[0..] == rest && ([s[0]] + rest)[1..] == rest && ([s[0]] + rest)[0..] == [s[0]] + rest;
      }
    }
  }

  lemma KeptAgain(s: seq<Entry>, l: Limits)
    ensures Kept(Kept(s, l), l) == Kept(s, l)
    ensures l.bytes > 0 ==> Fitting(Kept(s, l), ByBytes(Signed(l.bytes))) == Kept(s, l)
    ensures l.entries > 0 ==> Fitting(Kept(s, l), ByCount(Signed(l.entries))) == Kept(s, l)
  {
    var r := Kept(s, l);
    var b := if l.bytes > 0 then Fitting(s, ByBytes(Signed(l.bytes))) else s;
    FittingIsSuffix(s, ByBytes(Signed(l.bytes)));
    FittingIsSuffix(b, ByCount(Signed(l.entries)));
    if l.bytes > 0 && b != [] { StaysUnder(b, ByBytes(Signed(l.bytes)), |b| - |r|); }
  }

  lemma BoundedAgain(es: seq<Entry>, group: string, l: Limits)
    requires l.bytes > 0 ==> Fitting(Of(es, group), ByBytes(Signed(l.bytes))) == Of(es, group)
    requires l.entries > 0 ==> Fitting(Of(es, group), ByCount(Signed(l.entries))) == Of(es, group)
    ensures Bounded(es, group, l) == es
  {
    hide Fitting, Of, Pruned, Without;
    WithoutNone(es, group);
    PrunedIsWithout(es, group, ByBytes(Signed(l.bytes)));
    PrunedIsWithout(es, group, ByCount(Signed(l.entries)));
  }

  /** Cleaning a group again at the same moment removes nothing. */
  lemma CleaningAgainRemovesNone(es: seq<Entry>, group: string, l: Limits, now: int)
    ensures var once := Cleaned(es, group, l, now); Cleaned(once, group, l, now) == once
  {
    hide Kept, Young, Of, Bounded, Aged;
    var once := Cleaned(es, group, l, now);
    var young := Young(Of(es, group), l, now);
    CleanedIsKept(es, group, l, now);
    KeptIsSuffix(young, l);
    YoungStayYoung(Of(es, group), l, now, |young| - |Kept(young, l)|);
    if l.age > 0 { AllYoungIsKept(once, group, l, now); }
    KeptAgain(young, l);
    BoundedAgain(once, group, l);
  }

  // ----- A transaction that fails -----

  /** Where a transaction's first failure is, if the statement there is reached at all. */
  datatype Stage = Opening | Aging | Trimming | Counting | Committing

  predicate Reached(l: Limits, stage: Stage) {
    match stage
    case Aging => l.age > 0
    case Trimming => l.bytes > 0
    case Counting => l.entries > 0
    case _ => true
  }

  predicate Stops(l: Limits, stop: Option<Stage>) {
    stop.Some? && Reached(l, stop.value)
  }

  /** The store after a transaction and the number it reports: a failure changes nothing, and a failure to
      commit reports what the statements before it deleted. */
  ghost function Attempted(es: seq<Entry>, group: string, l: Limits, now: int, stop: Option<Stage>): (seq<Entry>, int) {
    var cleaned := Cleaned(es, group, l, now);
    if !Stops(l, stop) then (cleaned, |es| - |cleaned|)
    else (es, if stop.value.Committing? then |es| - |cleaned| else 0)
  }

  /** The number reported is the entries lost, unless a commit fails after something was deleted. */
  lemma ReportedIsLostExactlyWhen(es: seq<Entry>, group: string, l: Limits, now: int, stop: Option<Stage>)
    ensures var (left, n) := Attempted(es, group, l, now, stop);
            n == |es| - |left| <==> !(stop == Some(Committing) && Cleaned(es, group, l, now) != es)
  {
    CleanedFewer(es, group, l, now);
  }

  lemma {:induction false} AgedFewer(es: seq<Entry>, group: string, cutoff: int)
    ensures |Aged(es, group, cutoff)| <= |es|
    ensures |Aged(es, group, cutoff)| == |es| ==> Aged(es, group, cutoff) == es
  {
    if es != [] { AgedFewer(es[1..], group, cutoff); }
  }

  lemma {:induction false} PrunedFewer(es: seq<Entry>, group: string, p: Pass)
    ensures |Pruned(es, group, p)| <= |es|
    ensures |Pruned(es, group, p)| == |es| ==> Pruned(es, group, p) == es
  {
    if es != [] { PrunedFewer(es[1..], group, p); }
  }

  /** A cleaning that leaves as many entries as there were leaves those there were. */
  lemma CleanedFewer(es: seq<Entry>, group: string, l: Limits, now: int)
    ensures |Cleaned(es, group, l, now)| <= |es|
    ensures |Cleaned(es, group, l, now)| == |es| ==> Cleaned(es, group, l, now) == es
  {
    hide Aged, Pruned;
    var a := if l.age > 0 then Aged(es, group, now - l.age) else es;
    var b := if l.bytes > 0 then Pruned(a, group, ByBytes(Signed(l.bytes))) else a;
    AgedFewer(es, group, now - l.age);
    PrunedFewer(a, group, ByBytes(Signed(l.bytes)));
    PrunedFewer(b, group, ByCount(Signed(l.entries)));
  }

  lemma {:induction false} GroupAndOthers(es: seq<Entry>, group: string)
    ensures |Of(es, group)| + |Others(es, group)| == |es|
  {
    if es != [] { GroupAndOthers(es[1..], group); }
  }

  /** An entry past its age, a commit that fails: one is reported deleted, and it is still there. */
  lemma UncommittedIsReported()
    ensures var es := [Entry(None, 0, 1, 0)]; Attempted(es, CORE, Limits(1, 0, 0), 2, Some(Committing)) == (es, 1)
  {
    var es := [Entry(None, 0, 1, 0)];
    assert Aged(es[1..], CORE, 1) == [];
    assert Aged(es, CORE, 1) == [];
  }

  /** A limit of 2^64 - 1 entries deletes the only entry there is. */
  lemma LargestLimitDeletesAll()
    ensures var es, l := [Entry(None, 0, 1, 0)], Limits(0, 0, TWO_64 - 1);
            Cleaned(es, CORE, l, 0) == [] && Fits(es, l)
  {
    var es := [Entry(None, 0, 1, 0)];
    assert Pruned(es[1..], CORE, ByCount(-1)) == [];
    assert Over(Of(es, CORE), ByCount(-1));
  }

  // ----- The store and its cleaner -----

  class Store {
    var entries: seq<Entry>

    constructor (entries: seq<Entry>)
      ensures this.entries == entries
    {
      this.entries := entries;
    }

    method DeleteBefore(group: string, cutoff: int) returns (n: nat)
      modifies this
      ensures entries == Aged(old(entries), group, cutoff)
      ensures n == |old(entries)| - |entries|
    {
      var kept: seq<Entry> := [];
      n := 0;
      var i := |entries|;
      while i > 0
        invariant 0 <= i <= |entries| && entries == old(entries)
        invariant kept == Aged(entries[i..], group, cutoff) && n == |entries| - i - |kept|
      {
        i := i - 1;
        assert entries[i..][1..] == entries[i + 1..];
        if Belongs(entries[i], group) && entries[i].at < cutoff {
          n := n + 1;
        } else {
          kept := [entries[i]] + kept;
        }
      }
      assert entries[0..] == entries;
      entries := kept;
    }

    /** Deletes the group's entries that counting from the newest puts past the limit. */
    method DeleteOver(group: string, p: Pass) returns (n: nat)
      modifies this
      ensures entries == Pruned(old(entries), group, p)
      ensures n == |old(entries)| - |entries|
    {
      var kept: seq<Entry> := [];
      var total := 0;
      n := 0;
      var i := |entries|;
      while i > 0
        invariant 0 <= i <= |entries| && entries == old(entries)
        invariant kept == Pruned(entries[i..], group, p) && n == |entries| - i - |kept|
        invariant total == Measure(Of(entries[i..], group), p)
      {
        i := i - 1;
        var e := entries[i];
        assert entries[i..][1..] == entries[i + 1..];
        HeadOf(entries[i..], group);
        if Belongs(e, group) {
          total := total + (if p.ByBytes? then e.message + e.detail else 1);
        }
        if Belongs(e, group) && total > p.limit {
          n := n + 1;
        } else {
          kept := [e] + kept;
        }
      }
      assert entries[0..] == entries;
      entries := kept;
    }

    /** Applies the limits to one group in one transaction, rolled back where a statement or the commit
        fails. What a failing commit would have kept is reported all the same. */
    method Clean(group: string, l: Limits, now: int, stop: Option<Stage>) returns (removed: nat, failed: bool)
      modifies this
      ensures failed <==> Stops(l, stop)
      ensures (entries, removed as int) == Attempted(old(entries), group, l, now, stop)
    {
      var before := entries;
      removed := 0;
      if stop == Some(Opening) { return 0, true; }
      if l.age > 0 {
        if stop == Some(Aging) { return 0, true; }
        var n := DeleteBefore(group, now - l.age);
        removed := removed + n;
      }
      if l.bytes > 0 {
        if stop == Some(Trimming) {
          entries := before;
          return 0, true;
        }
        var n := DeleteOver(group, ByBytes(Signed(l.bytes)));
        removed := removed + n;
      }
      if l.entries > 0 {
        if stop == Some(Counting) {
          entries := before;
          return 0, true;
        }
        var n := DeleteOver(group, ByCount(Signed(l.entries)));
        removed := removed + n;
      }
      if stop == Some(Committing) {
        entries := before;
        return removed, true;
      }
      return removed, false;
    }

    /** Every group that has an entry, without repetition. */
    method Groups() returns (groups: seq<string>)
      ensures forall i, j :: 0 <= i < j < |groups| ==> groups[i] != groups[j]
      ensures forall g :: g in groups <==> Holds(entries, g)
    {
      groups := [];
      for i := 0 to |entries|
        invariant forall i, j :: 0 <= i < j < |groups| ==> groups[i] != groups[j]
        invariant forall g :: g in groups <==> exists k :: 0 <= k < i && GroupOf(entries[k]) == g
      {
        if GroupOf(entries[i]) !in groups {
          groups := groups + [GroupOf(entries[i])];
        }
      }
    }
  }

  function GroupOf(e: Entry): string {
    if e.unit == None then CORE else e.unit.value
  }

  /** The store after its first `n` groups were cleaned, each by its own limits. */
  ghost function CleanedAll(es: seq<Entry>, groups: seq<string>, policy: string -> Limits, now: int): seq<Entry> {
    if groups == [] then es
    else Cleaned(CleanedAll(es, groups[..|groups| - 1], policy, now), groups[|groups| - 1],
                 policy(groups[|groups| - 1]), now)
  }

  lemma {:induction false} OthersHoldGroups(es: seq<Entry>, fs: seq<Entry>, group: string, g: string)
    requires Others(es, group) == Others(fs, group) && g != group
    ensures Of(es, g) == Of(fs, g)
  {
    OfOthers(es, group, g);
    OfOthers(fs, group, g);
  }

  lemma {:induction false} OfOthers(es: seq<Entry>, group: string, g: string)
    requires g != group
    ensures Of(Others(es, group), g) == Of(es, g)
  {
    if es != [] {
      var rest := Others(es[1..], group);
      OfOthers(es[1..], group, g);
      Prepended(es[0], rest, g);
      assert [] + rest == rest && [] + Of(es[1..], g) == Of(es[1..], g);
    }
  }

  /** A cycle leaves of every group what its own limits keep, and every other group as it was. */
  lemma {:induction false} EachGroupIsCleaned(es: seq<Entry>, groups: seq<string>, policy: string -> Limits, now: int,
                                              g: string)
    requires forall i, j :: 0 <= i < j < |groups| ==> groups[i] != groups[j]
    ensures Of(CleanedAll(es, groups, policy, now), g)
            == if g in groups then Kept(Young(Of(es, g), policy(g), now), policy(g)) else Of(es, g)
  {
    if groups != [] {
      var front, last := groups[..|groups| - 1], groups[|groups| - 1];
      var before := CleanedAll(es, front, policy, now);
      EachGroupIsCleaned(es, front, policy, now, g);
      CleanedIsKept(before, last, policy(last), now);
      assert groups == front + [last];
      if g != last {
        OthersHoldGroups(before, CleanedAll(es, groups, policy, now), last, g);
      } else {
        assert g !in front;
      }
    }
  }

  ghost predicate Holds(es: seq<Entry>, group: string) {
    exists i :: 0 <= i < |es| && GroupOf(es[i]) == group
  }

  ghost function LeftByCycle(es: seq<Entry>, policy: string -> Limits, now: int, group: string): seq<Entry> {
    if Holds(es, group) then Kept(Young(Of(es, group), policy(group), now), policy(group)) else Of(es, group)
  }

  /** What goes wrong in a cycle: listing the groups, a group's transaction, or rewriting the file. */
  datatype Faults = Faults(listing: bool, cleaning: map<string, Stage>, rewriting: bool) {
    function Stop(group: string): Option<Stage> {
      if group in cleaning then Some(cleaning[group]) else None
    }
  }

  datatype Failure = Listing | Cleaning(group: string) | Rewriting

  /** What a cycle reports beyond what was lost: the deletions of the group whose commit failed. */
  ghost function Uncommitted(es: seq<Entry>, policy: string -> Limits, now: int, faults: Faults,
                             failure: Option<Failure>): int {
    match failure
    case Some(Cleaning(g)) =>
      if faults.Stop(g) == Some(Committing) then |Of(es, g)| - |LeftByCycle(es, policy, now, g)| else 0
    case _ => 0
  }

  /** A cycle's number is the entries lost, unless it ended at a group whose commit failed after something of
      it was deleted. */
  lemma CycleCountsTheLostExactlyWhen(es: seq<Entry>, policy: string -> Limits, now: int, faults: Faults,
                                      failure: Option<Failure>)
    ensures Uncommitted(es, policy, now, faults, failure) >= 0
    ensures Uncommitted(es, policy, now, faults, failure) == 0
            <==> !(failure.Some? && failure.value.Cleaning? && faults.Stop(failure.value.group) == Some(Committing)
                   && LeftByCycle(es, policy, now, failure.value.group) != Of(es, failure.value.group))
  {
    match failure
    case Some(Cleaning(g)) =>
      var young := Young(Of(es, g), policy(g), now);
      YoungIsAll(Of(es, g), policy(g), now);
      KeptIsSuffix(young, policy(g));
    case _ =>
  }

  /** Cleaning one group after others were, what the transaction would take is what a cycle would. */
  lemma CleanedTakes(es: seq<Entry>, groups: seq<string>, policy: string -> Limits, now: int, g: string)
    requires forall i, j :: 0 <= i < j < |groups| ==> groups[i] != groups[j]
    requires g !in groups && Holds(es, g)
    ensures var before := CleanedAll(es, groups, policy, now);
            |before| - |Cleaned(before, g, policy(g), now)| == |Of(es, g)| - |LeftByCycle(es, policy, now, g)|
  {
    var before := CleanedAll(es, groups, policy, now);
    EachGroupIsCleaned(es, groups, policy, now, g);
    CleanedIsKept(before, g, policy(g), now);
    GroupAndOthers(before, g);
    GroupAndOthers(Cleaned(before, g, policy(g), now), g);
  }

  class Cleaner {
    const store: Store
    var deleted: nat

    constructor (store: Store)
      ensures this.store == store && deleted == 0
    {
      this.store, deleted := store, 0;
    }

    /** One cycle over all groups, followed by a rewriting if the deletions since the last one are many. The
        number reported, and what counts towards the next rewriting, take in what an uncommitted
        transaction deleted. */
    method Cycle(policy: string -> Limits, now: int, faults: Faults)
      returns (gone: nat, vacuumed: bool, failure: Option<Failure>)
      modifies this, store
      ensures gone == |old(store.entries)| - |store.entries|
              + Uncommitted(old(store.entries), policy, now, faults, failure)
      ensures deleted == if vacuumed then 0 else old(deleted) + gone
      ensures vacuumed <==> failure == None && old(deleted) + gone >= VACUUM_AFTER
      ensures failure == Some(Listing) <==> faults.listing
      ensures failure == Some(Listing) ==> gone == 0 && store.entries == old(store.entries)
      ensures failure == Some(Rewriting) ==> faults.rewriting && old(deleted) + gone >= VACUUM_AFTER
      ensures failure == None && faults.rewriting ==> old(deleted) + gone < VACUUM_AFTER
      ensures forall g :: failure == Some(Cleaning(g)) ==>
                Holds(old(store.entries), g) && Stops(policy(g), faults.Stop(g))
                  && Of(store.entries, g) == Of(old(store.entries), g)
      ensures failure == None || failure == Some(Rewriting) ==>
                forall g :: Holds(old(store.entries), g) ==> !Stops(policy(g), faults.Stop(g))
      ensures failure == None || failure == Some(Rewriting) ==>
                forall g :: Of(store.entries, g) == LeftByCycle(old(store.entries), policy, now, g)
      ensures forall g :: Of(store.entries, g) in {Of(old(store.entries), g),
                                                   LeftByCycle(old(store.entries), policy, now, g)}
    {
      hide Of, Cleaned, LeftByCycle, Others;
      gone, vacuumed, failure := 0, false, None;
      if faults.listing {
        return 0, false, Some(Listing);
      }
      ghost var es := store.entries;
      var groups := store.Groups();
      for i := 0 to |groups|
        invariant store.entries == CleanedAll(es, groups[..i], policy, now)
        invariant gone == |es| - |store.entries| && deleted == old(deleted)
        invariant forall k :: 0 <= k < i ==> !Stops(policy(groups[k]), faults.Stop(groups[k]))
      {
        var g := groups[i];
        assert groups[..i + 1][..i] == groups[..i];
        CleanedTakes(es, groups[..i], policy, now, g);
        var n, failed := store.Clean(g, policy(g), now, faults.Stop(g));
        gone := gone + n;
        if failed {
          deleted := deleted + gone;
          PartlyCleaned(es, groups, i, policy, now);
          return gone, false, Some(Cleaning(g));
        }
      }
      assert groups[..|groups|] == groups;
      PartlyCleaned(es, groups, |groups|, policy, now);
      deleted := deleted + gone;
      if deleted >= VACUUM_AFTER {
        if faults.rewriting {
          return gone, false, Some(Rewriting);
        }
        deleted := 0;
        vacuumed := true;
      }
    }
  }

  /** After some of the groups held were cleaned, those have what their limits keep, and the others all. */
  lemma PartlyCleaned(es: seq<Entry>, groups: seq<string>, n: nat, policy: string -> Limits, now: int)
    requires forall i, j :: 0 <= i < j < |groups| ==> groups[i] != groups[j]
    requires n <= |groups| && forall g :: g in groups <==> Holds(es, g)
    ensures forall g :: Of(CleanedAll(es, groups[..n], policy, now), g)
                        == if g in groups[..n] then LeftByCycle(es, policy, now, g) else Of(es, g)
    ensures n == |groups| ==>
              forall g :: Of(CleanedAll(es, groups[..n], policy, now), g) == LeftByCycle(es, policy, now, g)
  {
    forall g
      ensures Of(CleanedAll(es, groups[..n], policy, now), g)
              == if g in groups[..n] then LeftByCycle(es, policy, now, g) else Of(es, g)
    {
      EachGroupIsCleaned(es, groups[..n], policy, now, g);
    }
    assert groups[..|groups|] == groups;
  }

  /** An instance's place in the interval, by the digest of its name. */
  function Offset(digest: Uint64, interval: int): (r: int)
    ensures interval > 0 ==> 0 <= r < interval
    ensures interval <= 0 ==> r == 0
  {
    if interval <= 0 then 0 else digest % interval
  }

  lemma Times(x: int, y: int, z: int)
    requires y >= 1 && z > 0 && x == y * z
    ensures x >= z
  {
  }

  lemma RemainderIs(d: int, i: int, q: int, r: int)
    requires i > 0 && d == q * i + r && 0 <= r < i
    ensures d % i == r
  {
    var p := d / i;
    assert (q - p) * i == d % i - r;
    if q > p { Times((q - p) * i, q - p, i); }
    if p > q { Times((p - q) * i, p - q, i); }
  }

  /** It is how far the digest is past the last whole interval. */
  lemma OffsetIsWhatRemains(digest: Uint64, interval: int)
    requires interval > 0
    ensures digest < interval ==> Offset(digest, interval) == digest
    ensures digest >= interval ==> Offset(digest, interval) == Offset(digest - interval, interval)
  {
    var q := digest / interval;
    if digest < interval { RemainderIs(digest, interval, 0, digest); }
    else {
      assert digest - interval == (q - 1) * interval + digest % interval;
      RemainderIs(digest - interval, interval, q - 1, digest % interval);
    }
  }
}
