/** What several modules of the model share: optional values and results, the order of strings by code
    points with the sort that goes by it, which is unique for what it sorts, and a few facts about finite
    sequences. The order is total, transitive and asymmetric, so that ascending listings of the same names
    are the same listing, whatever order a map gave them in. */
module Prelude {
  datatype Option<+T> = None | Some(value: T)

  datatype Result<+T, +E> = Ok(value: T) | Err(error: E)

  const TWO_63: int := 0x8000_0000_0000_0000
  const TWO_64: int := 0x1_0000_0000_0000_0000

  type Uint64 = n: int | 0 <= n < TWO_64

  /** The signed number with the same 64 bits. */
  function Signed(n: Uint64): (r: int)
    ensures -TWO_63 <= r < TWO_63 && r % TWO_64 == n
  {
    if n < TWO_63 then n else n - TWO_64
  }

  /** The order of strings by code points, which is the byte order of their UTF-8 form. */
  predicate Before(a: string, b: string) {
    if b == [] then false
    else if a == [] then true
    else if a[0] == b[0] then Before(a[1..], b[1..])
    else a[0] < b[0]
  }

  lemma {:induction false} BeforeIsTotal(a: string, b: string)
    ensures Before(a, b) || Before(b, a) || a == b
  {
    if a != [] && b != [] && a[0] == b[0] {
      BeforeIsTotal(a[1..], b[1..]);
      assert a == [a[0]] + a[1..] && b == [b[0]] + b[1..];
    }
  }

  lemma {:induction false} BeforeIsTransitive(a: string, b: string, c: string)
    requires Before(a, b) && Before(b, c)
    ensures Before(a, c)
  {
    if a != [] && a[0] == b[0] && b[0] == c[0] {
      BeforeIsTransitive(a[1..], b[1..], c[1..]);
    }
  }

  lemma {:induction false} BeforeIsAsymmetric(a: string, b: string)
    requires Before(a, b)
    ensures !Before(b, a) && a != b
  {
    if a != [] && a[0] == b[0] {
      BeforeIsAsymmetric(a[1..], b[1..]);
    }
  }

  ghost predicate Ascending(s: seq<string>) {
    forall i, j :: 0 <= i < j < |s| ==> !Before(s[j], s[i])
  }

  function Inserted(x: string, s: seq<string>): (r: seq<string>)
    ensures multiset(r) == multiset(s) + multiset{x}
  {
    if s == [] then [x]
    else if !Before(s[0], x) then [x] + s
    else
      assert s == [s[0]] + s[1..];
      [s[0]] + Inserted(x, s[1..])
  }

  lemma {:induction false} InsertedAscends(x: string, s: seq<string>)
    requires Ascending(s)
    ensures Ascending(Inserted(x, s))
  {
    if s == [] {
    } else if !Before(s[0], x) {
      BelowAll(x, s);
    } else {
      InsertedAscends(x, s[1..]);
      assert s == [s[0]] + s[1..];
      BelowInserted(s, x, Inserted(x, s[1..]));
    }
  }

  lemma BelowAll(x: string, s: seq<string>)
    requires s != [] && !Before(s[0], x)
    ensures Ascending(s) ==> forall j :: 0 <= j < |s| ==> !Before(s[j], x)
  {
    if Ascending(s) {
      forall j | 0 <= j < |s|
        ensures !Before(s[j], x)
      {
        if Before(s[j], x) {
          BeforeIsTotal(s[0], s[j]);
          if Before(s[0], s[j]) { BeforeIsTransitive(s[0], s[j], x); }
        }
      }
    }
  }

  lemma BelowInserted(s: seq<string>, x: string, rest: seq<string>)
    requires s != [] && Before(s[0], x)
    requires multiset(rest) == multiset(s[1..]) + multiset{x}
    ensures Ascending(s) ==> forall j :: 0 <= j < |rest| ==> !Before(rest[j], s[0])
  {
    if Ascending(s) {
      forall j | 0 <= j < |rest|
        ensures !Before(rest[j], s[0])
      {
        assert rest[j] in multiset(rest);
        if rest[j] == x {
          BeforeIsAsymmetric(s[0], x);
        } else {
          assert rest[j] in s[1..];
          var k :| 0 <= k < |s[1..]| && s[1..][k] == rest[j];
          assert s[k + 1] == rest[j];
        }
      }
    }
  }

  /** Ascending order, what is put in kept. */
  function Sorted(s: seq<string>): (r: seq<string>)
    ensures multiset(r) == multiset(s) && Ascending(r)
  {
    if s == [] then []
    else
      assert s == [s[0]] + s[1..];
      InsertedAscends(s[0], Sorted(s[1..]));
      Inserted(s[0], Sorted(s[1..]))
  }

  lemma LeastIsNotAfter(a: seq<string>, x: string)
    requires a != [] && Ascending(a) && x in multiset(a)
    ensures !Before(x, a[0])
  {
    var j :| 0 <= j < |a| && a[j] == x;
    if j == 0 && Before(x, a[0]) { BeforeIsAsymmetric(x, a[0]); }
  }

  lemma TailAscends(a: seq<string>)
    requires a != [] && Ascending(a)
    ensures Ascending(a[1..]) && multiset(a[1..]) == multiset(a) - multiset{a[0]}
  {
    assert a == [a[0]] + a[1..];
  }

  lemma {:induction false} AscendingIsUnique(a: seq<string>, b: seq<string>)
    requires Ascending(a) && Ascending(b) && multiset(a) == multiset(b)
    ensures a == b
  {
    hide Ascending, Before;
    assert |a| == |multiset(a)| && |b| == |multiset(b)|;
    if a != [] {
      LeastIsNotAfter(a, b[0]);
      LeastIsNotAfter(b, a[0]);
      BeforeIsTotal(a[0], b[0]);
      TailAscends(a);
      TailAscends(b);
      AscendingIsUnique(a[1..], b[1..]);
      assert a == [a[0]] + a[1..] && b == [b[0]] + b[1..];
    }
  }

  /** More places than values: some value is at two of them. */
  lemma {:induction false} Pigeonhole<T>(s: seq<T>, pool: set<T>) returns (i: nat, j: nat)
    requires forall k :: 0 <= k < |s| ==> s[k] in pool
    requires |s| > |pool|
    ensures i < j < |s| && s[i] == s[j]
    decreases |pool|
  {
    j := |s| - 1;
    if k :| 0 <= k < j && s[k] == s[j] {
      i := k;
    } else {
      i, j := Pigeonhole(s[..j], pool - {s[j]});
    }
  }
}
