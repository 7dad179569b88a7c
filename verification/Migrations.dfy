/** The migration list of a store: sorted by version, then pruned from the back in place. */
module Migrations {

  datatype Migration = Migration(version: int, script: string)

  predicate Sorted(ms: seq<Migration>) {
    forall i, j :: 0 <= i < j < |ms| ==> ms[i].version <= ms[j].version
  }

  /** The version the scan saw just before place i; it starts from -99 behind the last place. */
  function VersionAfter(ms: seq<Migration>, i: nat): int
    requires i < |ms|
  {
    if i + 1 < |ms| then ms[i + 1].version else -99
  }

  predicate Kept(ms: seq<Migration>, i: nat)
    requires i < |ms|
  {
    ms[i].script != "" && ms[i].version != VersionAfter(ms, i)
  }

  /** What the scan leaves of the entries from place i on. */
  function PrunedFrom(ms: seq<Migration>, i: nat): seq<Migration>
    requires i <= |ms|
    decreases |ms| - i
  {
    if i == |ms| then []
    else (if Kept(ms, i) then [ms[i]] else []) + PrunedFrom(ms, i + 1)
  }

  function Pruned(ms: seq<Migration>): seq<Migration> { PrunedFrom(ms, 0) }

  // ---- Sorting: any order of equal versions is possible ----

  predicate SortedFrom(sorted: seq<Migration>, input: seq<Migration>) {
    Sorted(sorted) && multiset(sorted) == multiset(input)
  }

  function Insert(m: Migration, ms: seq<Migration>): (r: seq<Migration>) {
    if ms == [] || m.version <= ms[0].version then [m] + ms else [ms[0]] + Insert(m, ms[1..])
  }

  lemma {:induction false} InsertSorted(m: Migration, ms: seq<Migration>)
    requires Sorted(ms)
    ensures Sorted(Insert(m, ms))
    ensures forall x :: x in Insert(m, ms) ==> x == m || x in ms
  {
    if ms != [] && m.version > ms[0].version {
      InsertSorted(m, ms[1..]);
      var rest := Insert(m, ms[1..]);
      forall k | 0 <= k < |rest| ensures ms[0].version <= rest[k].version {
        assert rest[k] in rest;
      }
    }
  }

  lemma {:induction false} InsertKeeps(m: Migration, ms: seq<Migration>)
    ensures multiset(Insert(m, ms)) == multiset(ms) + multiset{m}
  {
    if ms != [] && m.version > ms[0].version {
      InsertKeeps(m, ms[1..]);
      assert ms == [ms[0]] + ms[1..];
    }
  }

  /** Some sorted arrangement of the list; callers use only what the contract says. */
  function SortByVersion(ms: seq<Migration>): (r: seq<Migration>)
    ensures SortedFrom(r, ms)
  {
    if ms == [] then []
    else
      var rest := SortByVersion(ms[1..]);
      InsertSorted(ms[0], rest);
      InsertKeeps(ms[0], rest);
      assert ms == [ms[0]] + ms[1..];
      Insert(ms[0], rest)
  }

  // ---- The scan in place ----

  /** Deletes place i of the first n by moving the later ones down. */
  method DeleteAt(a: array<Migration>, i: nat, n: nat)
    requires i < n <= a.Length
    modifies a
    ensures a[..i] == old(a[..i]) && a[i..n - 1] == old(a[i + 1..n])
  {
    var k := i;
    while k < n - 1
      invariant i <= k <= n - 1
      invariant forall j :: 0 <= j < i ==> a[j] == old(a[j])
      invariant forall j :: i <= j < k ==> a[j] == old(a[j + 1])
      invariant forall j :: k <= j < n ==> a[j] == old(a[j])
    {
      a[k] := a[k + 1];
      k := k + 1;
    }
  }

  /** The backward scan: the first n entries of the array end up as the pruned list. */
  method PruneInPlace(a: array<Migration>) returns (n: nat)
    modifies a
    ensures n <= a.Length && a[..n] == Pruned(old(a[..]))
  {
    ghost var ms := a[..];
    n := a.Length;
    var prevVer := -99;
    var i := a.Length;
    while i > 0
      invariant 0 <= i <= n <= a.Length == |ms|
      invariant a[..i] == ms[..i]
      invariant a[i..n] == PrunedFrom(ms, i)
      invariant prevVer == if i < |ms| then ms[i].version else -99
    {
      i := i - 1;
      TakeLast(a[..i + 1], ms, i);
      var v := a[i];
      var badMigration := |v.script| == 0 || v.version == prevVer;
      prevVer := v.version;
      assert a[i..n] == [a[i]] + a[i + 1..n];
      if badMigration {
        DeleteAt(a, i, n);
        n := n - 1;
      }
    }
    assert a[0..n] == a[..n];
  }

  lemma TakeLast(s: seq<Migration>, ms: seq<Migration>, i: nat)
    requires i < |ms| && s == ms[..i + 1]
    ensures s[..i] == ms[..i] && s[i] == ms[i]
  {
  }

  method SortAndPrune(a: array<Migration>) returns (n: nat, ghost sorted: seq<Migration>)
    modifies a
    ensures SortedFrom(sorted, old(a[..]))
    ensures n <= a.Length && a[..n] == Pruned(sorted)
  {
    var s := SortByVersion(a[..]);
    sorted := s;
    assert |multiset(s)| == |multiset(a[..])|;
    forall k | 0 <= k < a.Length {
      a[k] := s[k];
    }
    assert a[..] == s;
    n := PruneInPlace(a);
  }

  // ---- What the pruned list is ----

  lemma {:induction false} PrunedMembers(ms: seq<Migration>, i: nat)
    requires i <= |ms|
    ensures forall m :: m in PrunedFrom(ms, i) <==> exists k :: i <= k < |ms| && Kept(ms, k) && ms[k] == m
    ensures multiset(PrunedFrom(ms, i)) <= multiset(ms[i..])
    decreases |ms| - i
  {
    if i < |ms| {
      PrunedMembers(ms, i + 1);
      assert ms[i..] == [ms[i]] + ms[i + 1..];
    }
  }

  /** An entry of a sorted list is kept exactly when its script is not empty, no later entry has its version,
      and it is not version -99 in the last place. */
  lemma KeptExactly(ms: seq<Migration>, i: nat)
    requires Sorted(ms) && i < |ms|
    ensures Kept(ms, i)
        <==> ms[i].script != ""
             && (forall j :: i < j < |ms| ==> ms[j].version > ms[i].version)
             && !(i == |ms| - 1 && ms[i].version == -99)
  {
  }

  predicate Increasing(ms: seq<Migration>) {
    forall i, j :: 0 <= i < j < |ms| ==> ms[i].version < ms[j].version
  }

  lemma KeptBelow(ms: seq<Migration>, i: nat)
    requires Sorted(ms) && i < |ms| && Kept(ms, i)
    ensures forall m :: m in PrunedFrom(ms, i + 1) ==> ms[i].version < m.version
  {
    PrunedMembers(ms, i + 1);
    KeptExactly(ms, i);
  }

  lemma {:induction false} PrunedIncreasing(ms: seq<Migration>, i: nat)
    requires Sorted(ms) && i <= |ms|
    ensures Increasing(PrunedFrom(ms, i))
    decreases |ms| - i
  {
    if i < |ms| {
      var rest := PrunedFrom(ms, i + 1);
      PrunedIncreasing(ms, i + 1);
      if Kept(ms, i) {
        KeptBelow(ms, i);
        forall k | 0 <= k < |rest| ensures ms[i].version < rest[k].version {
          assert rest[k] in rest;
        }
      }
    }
  }

  /** Whatever order the sort gives to equal versions: the result has strictly increasing versions, only non-empty
      scripts, nothing that was not in the input, and every entry whose version is its own, whose script is not
      empty and whose version is not -99. */
  lemma PrunedResult(input: seq<Migration>, sorted: seq<Migration>)
    requires SortedFrom(sorted, input)
    ensures Increasing(Pruned(sorted))
    ensures forall m :: m in Pruned(sorted) ==> m.script != ""
    ensures multiset(Pruned(sorted)) <= multiset(input)
    ensures forall i :: 0 <= i < |input| && Unproblematic(input, i) ==> input[i] in Pruned(sorted)
  {
    PrunedIncreasing(sorted, 0);
    PrunedMembers(sorted, 0);
    assert sorted[0..] == sorted;
    forall i | 0 <= i < |input| && Unproblematic(input, i)
      ensures input[i] in Pruned(sorted)
    {
      var m := input[i];
      assert m in multiset(input);
      assert m in sorted;
      var k :| 0 <= k < |sorted| && sorted[k] == m;
      if k + 1 < |sorted| && sorted[k + 1].version == m.version {
        assert sorted[k + 1] in multiset(input);
        assert sorted[k + 1] == m;
        AloneCount(input, i);
        PairCount(sorted, k);
      }
      assert Kept(sorted, k);
    }
  }

  /** No other entry has this entry's version. */
  predicate Alone(ms: seq<Migration>, i: nat)
    requires i < |ms|
  {
    forall j :: 0 <= j < |ms| && j != i ==> ms[j].version != ms[i].version
  }

  predicate Unproblematic(ms: seq<Migration>, i: nat)
    requires i < |ms|
  {
    Alone(ms, i) && ms[i].script != "" && ms[i].version != -99
  }

  lemma AloneCount(ms: seq<Migration>, i: nat)
    requires i < |ms| && Alone(ms, i)
    ensures multiset(ms)[ms[i]] == 1
  {
    assert ms == ms[..i] + [ms[i]] + ms[i + 1..];
    assert ms[i] !in ms[..i] && ms[i] !in ms[i + 1..];
  }

  lemma PairCount(ms: seq<Migration>, k: nat)
    requires k + 1 < |ms| && ms[k] == ms[k + 1]
    ensures multiset(ms)[ms[k]] >= 2
  {
    assert ms == ms[..k] + [ms[k]] + [ms[k + 1]] + ms[k + 2..];
  }

  lemma SameHead(a: seq<Migration>, b: seq<Migration>)
    requires Increasing(a) && Sorted(b) && multiset(a) == multiset(b) && a != [] && b != []
    ensures a[0] == b[0]
  {
    assert a[0] in multiset(b) && b[0] in multiset(a);
    var j :| 0 <= j < |b| && b[j] == a[0];
    var i :| 0 <= i < |a| && a[i] == b[0];
    assert a[i].version <= a[0].version;
  }

  lemma TailCounts(a: seq<Migration>)
    requires a != []
    ensures multiset(a[1..]) == multiset(a) - multiset{a[0]}
  {
    assert a == [a[0]] + a[1..];
  }

  /** Only the order among equal versions is open: with distinct versions every sort gives the same result. */
  lemma {:induction false} SortUnique(a: seq<Migration>, b: seq<Migration>)
    requires Increasing(a) && Sorted(b) && multiset(a) == multiset(b)
    ensures a == b
    decreases |a|
  {
    assert |multiset(a)| == |multiset(b)|;
    if a != [] {
      SameHead(a, b);
      TailCounts(a);
      TailCounts(b);
      SortUnique(a[1..], b[1..]);
      assert a == [a[0]] + a[1..] && b == [b[0]] + b[1..];
    }
  }
}
