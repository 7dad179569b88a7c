/** The requests made to the lock service: a `Lock` call that has registered and not yet been released.
    The list is kept in the order in which the calls registered. */
module Requests {

  /** Waiting: blocked on the send to the lock's channel. Held: the send completed and `Lock` returned. */
  datatype Phase = Waiting | Held

  /** `chan` identifies the channel (one per locker incarnation) the request sends on. */
  datatype Request = Request(owner: string, id: string, chan: nat, phase: Phase)

  type Test = Request -> bool

  function WaitingOn(chan: nat): Test { (r: Request) => r.phase == Waiting && r.chan == chan }

  function HeldOn(id: string): Test { (r: Request) => r.phase == Held && r.id == id }

  function LiveOn(id: string): Test { (r: Request) => r.id == id }

  function HeldBy(owner: string, id: string): Test {
    (r: Request) => r.phase == Held && r.owner == owner && r.id == id
  }

  function LiveBy(owner: string, id: string): Test { (r: Request) => r.owner == owner && r.id == id }

  function AnyWaiting(): Test { (r: Request) => r.phase == Waiting }

  function AnyHeld(): Test { (r: Request) => r.phase == Held }

  /** How many requests pass the test. */
  function Count(rs: seq<Request>, test: Test): nat {
    if rs == [] then 0 else (if test(rs[0]) then 1 else 0) + Count(rs[1..], test)
  }

  /** The ids an owner has requested, in request order. */
  function Ids(rs: seq<Request>, owner: string): seq<string> {
    if rs == [] then []
    else (if rs[0].owner == owner then [rs[0].id] else []) + Ids(rs[1..], owner)
  }

  /** The requests left when an owner gives up what it holds on one id. */
  function Release(rs: seq<Request>, owner: string, id: string): seq<Request> {
    if rs == [] then []
    else (if HeldBy(owner, id)(rs[0]) then [] else [rs[0]]) + Release(rs[1..], owner, id)
  }

  /** The list with every copy of an id deleted. */
  function Without(ids: seq<string>, id: string): seq<string> {
    if ids == [] then []
    else (if ids[0] == id then [] else [ids[0]]) + Without(ids[1..], id)
  }

  /** How often an id is on a list. */
  function Listings(ids: seq<string>, id: string): nat {
    if ids == [] then 0 else (if ids[0] == id then 1 else 0) + Listings(ids[1..], id)
  }

  lemma {:induction false} ListingsConcat(a: seq<string>, b: seq<string>, id: string)
    ensures Listings(a + b, id) == Listings(a, id) + Listings(b, id)
  {
    if a == [] {
      assert a + b == b;
    } else {
      assert (a + b)[1..] == a[1..] + b;
      ListingsConcat(a[1..], b, id);
    }
  }

  lemma ListingsUpTo(ids: seq<string>, n: nat, id: string)
    requires n < |ids|
    ensures Listings(ids[..n + 1], id) == Listings(ids[..n], id) + if ids[n] == id then 1 else 0
    ensures Listings(ids[..n + 1], id) <= Listings(ids, id)
  {
    assert ids[..n + 1] == ids[..n] + [ids[n]];
    ListingsConcat(ids[..n], [ids[n]], id);
    assert [ids[n]][1..] == [];
    assert ids == ids[..n + 1] + ids[n + 1..];
    ListingsConcat(ids[..n + 1], ids[n + 1..], id);
  }

  predicate NoDup(ids: seq<string>) {
    forall i, j :: 0 <= i < j < |ids| ==> ids[i] != ids[j]
  }

  // ---- Counting ----

  lemma {:induction false} CountConcat(a: seq<Request>, b: seq<Request>, test: Test)
    ensures Count(a + b, test) == Count(a, test) + Count(b, test)
  {
    if a == [] {
      assert a + b == b;
    } else {
      assert (a + b)[1..] == a[1..] + b;
      CountConcat(a[1..], b, test);
    }
  }

  lemma CountSplit(rs: seq<Request>, i: nat, test: Test)
    requires i < |rs|
    ensures Count(rs, test)
         == Count(rs[..i], test) + (if test(rs[i]) then 1 else 0) + Count(rs[i + 1..], test)
  {
    assert rs == rs[..i] + ([rs[i]] + rs[i + 1..]);
    CountConcat(rs[..i], [rs[i]] + rs[i + 1..], test);
    CountConcat([rs[i]], rs[i + 1..], test);
    assert Count([rs[i]], test) == if test(rs[i]) then 1 else 0;
  }

  lemma CountUpdate(rs: seq<Request>, i: nat, r: Request, test: Test)
    requires i < |rs|
    ensures Count(rs[i := r], test)
         == Count(rs, test) - (if test(rs[i]) then 1 else 0) + (if test(r) then 1 else 0)
  {
    CountSplit(rs, i, test);
    CountSplit(rs[i := r], i, test);
    assert rs[i := r][..i] == rs[..i] && rs[i := r][i + 1..] == rs[i + 1..];
  }

  lemma CountAppend(rs: seq<Request>, r: Request, test: Test)
    ensures Count(rs + [r], test) == Count(rs, test) + if test(r) then 1 else 0
  {
    CountConcat(rs, [r], test);
    assert Count([r], test) == if test(r) then 1 else 0;
  }

  lemma {:induction false} CountPositive(rs: seq<Request>, test: Test)
    ensures Count(rs, test) > 0 <==> exists r :: r in rs && test(r)
  {
    if rs != [] {
      CountPositive(rs[1..], test);
      assert forall r :: r in rs <==> r == rs[0] || r in rs[1..];
    }
  }

  lemma CountTwo(rs: seq<Request>, i: nat, j: nat, test: Test)
    requires i < j < |rs| && test(rs[i]) && test(rs[j])
    ensures Count(rs, test) >= 2
  {
    CountSplit(rs, i, test);
    assert rs[j] == rs[i + 1..][j - i - 1];
    CountPositive(rs[i + 1..], test);
  }

  /** A stricter test counts no more requests. */
  lemma {:induction false} CountMonotone(rs: seq<Request>, p: Test, q: Test)
    requires forall r :: p(r) ==> q(r)
    ensures Count(rs, p) <= Count(rs, q)
  {
    if rs != [] {
      CountMonotone(rs[1..], p, q);
    }
  }

  /** Two disjoint tests that make up a third share out its count. */
  lemma {:induction false} CountUnion(rs: seq<Request>, p: Test, q: Test, u: Test)
    requires forall r :: r in rs ==> (u(r) <==> p(r) || q(r)) && !(p(r) && q(r))
    ensures Count(rs, u) == Count(rs, p) + Count(rs, q)
  {
    if rs != [] {
      CountUnion(rs[1..], p, q, u);
    }
  }

  // ---- Owner lists ----

  lemma {:induction false} IdsConcat(a: seq<Request>, b: seq<Request>, owner: string)
    ensures Ids(a + b, owner) == Ids(a, owner) + Ids(b, owner)
  {
    if a == [] {
      assert a + b == b;
    } else {
      assert (a + b)[1..] == a[1..] + b;
      IdsConcat(a[1..], b, owner);
    }
  }

  lemma IdsSplit(rs: seq<Request>, i: nat, owner: string)
    requires i < |rs|
    ensures Ids(rs, owner)
         == Ids(rs[..i], owner) + (if rs[i].owner == owner then [rs[i].id] else []) + Ids(rs[i + 1..], owner)
  {
    assert rs == rs[..i] + ([rs[i]] + rs[i + 1..]);
    IdsConcat(rs[..i], [rs[i]] + rs[i + 1..], owner);
    IdsConcat([rs[i]], rs[i + 1..], owner);
    assert Ids([rs[i]], owner) == if rs[i].owner == owner then [rs[i].id] else [];
  }

  lemma IdsAppend(rs: seq<Request>, r: Request, owner: string)
    ensures Ids(rs + [r], owner) == Ids(rs, owner) + if r.owner == owner then [r.id] else []
  {
    IdsConcat(rs, [r], owner);
    assert Ids([r], owner) == if r.owner == owner then [r.id] else [];
  }

  /** Being granted does not change what an owner's list shows. */
  lemma IdsGranted(rs: seq<Request>, i: nat, owner: string)
    requires i < |rs|
    ensures Ids(rs[i := rs[i].(phase := Held)], owner) == Ids(rs, owner)
  {
    var after := rs[i := rs[i].(phase := Held)];
    IdsSplit(rs, i, owner);
    IdsSplit(after, i, owner);
    assert after[..i] == rs[..i] && after[i + 1..] == rs[i + 1..];
  }

  lemma {:induction false} IdsMember(rs: seq<Request>, owner: string, id: string)
    ensures id in Ids(rs, owner) <==> exists r :: r in rs && r.owner == owner && r.id == id
  {
    if rs != [] {
      IdsMember(rs[1..], owner, id);
      assert forall r :: r in rs <==> r == rs[0] || r in rs[1..];
    }
  }

  lemma LiveIsListed(rs: seq<Request>, owner: string, id: string)
    ensures Count(rs, LiveBy(owner, id)) > 0 <==> id in Ids(rs, owner)
  {
    CountPositive(rs, LiveBy(owner, id));
    IdsMember(rs, owner, id);
    assert forall r :: LiveBy(owner, id)(r) <==> r.owner == owner && r.id == id;
  }

  lemma {:induction false} WithoutConcat(a: seq<string>, b: seq<string>, id: string)
    ensures Without(a + b, id) == Without(a, id) + Without(b, id)
  {
    if a == [] {
      assert a + b == b;
    } else {
      assert (a + b)[1..] == a[1..] + b;
      WithoutConcat(a[1..], b, id);
    }
  }

  lemma {:induction false} WithoutAbsent(ids: seq<string>, id: string)
    requires id !in ids
    ensures Without(ids, id) == ids
  {
    if ids != [] {
      WithoutAbsent(ids[1..], id);
    }
  }

  lemma NoDupAround(a: seq<string>, id: string, b: seq<string>)
    requires NoDup(a + [id] + b)
    ensures NoDup(a + b) && id !in a && id !in b
  {
    var whole := a + [id] + b;
    forall k | 0 <= k < |a| ensures a[k] != id {
      assert whole[k] == a[k] && whole[|a|] == id;
    }
    forall k | 0 <= k < |b| ensures b[k] != id {
      assert whole[|a| + 1 + k] == b[k] && whole[|a|] == id;
    }
    forall i, j | 0 <= i < j < |a + b| ensures (a + b)[i] != (a + b)[j] {
      assert (a + b)[i] == whole[if i < |a| then i else i + 1];
      assert (a + b)[j] == whole[if j < |a| then j else j + 1];
    }
  }

  /** In a duplicate-free list, deleting every copy deletes exactly the one place. */
  lemma WithoutUnique(a: seq<string>, id: string, b: seq<string>)
    requires id !in a && id !in b
    ensures Without(a + [id] + b, id) == a + b
  {
    calc {
      Without(a + [id] + b, id);
      { WithoutConcat(a + [id], b, id); }
      Without(a + [id], id) + Without(b, id);
      { WithoutConcat(a, [id], id); assert Without([id], id) == []; }
      Without(a, id) + Without(b, id);
      { WithoutAbsent(a, id); WithoutAbsent(b, id); }
      a + b;
    }
  }

  lemma {:induction false} WithoutMembers(ids: seq<string>, id: string)
    ensures forall k :: k in Without(ids, id) <==> k in ids && k != id
  {
    if ids != [] {
      WithoutMembers(ids[1..], id);
      assert forall k :: k in ids <==> k == ids[0] || k in ids[1..];
    }
  }

  /** Deleting the first entry of a list without repeats. */
  lemma WithoutHead(ids: seq<string>)
    requires NoDup(ids) && ids != []
    ensures Without(ids, ids[0]) == ids[1..]
  {
    WithoutAbsent(ids[1..], ids[0]);
  }

  // ---- Releasing ----

  lemma {:induction false} ReleaseNothing(rs: seq<Request>, owner: string, id: string)
    requires Count(rs, HeldBy(owner, id)) == 0
    ensures Release(rs, owner, id) == rs
  {
    if rs != [] {
      ReleaseNothing(rs[1..], owner, id);
    }
  }

  lemma {:induction false} ReleaseConcat(a: seq<Request>, b: seq<Request>, owner: string, id: string)
    ensures Release(a + b, owner, id) == Release(a, owner, id) + Release(b, owner, id)
  {
    if a == [] {
      assert a + b == b;
    } else {
      assert (a + b)[1..] == a[1..] + b;
      ReleaseConcat(a[1..], b, owner, id);
    }
  }

  /** A release by the only holder takes out exactly its own request. */
  lemma ReleaseOne(rs: seq<Request>, i: nat, owner: string, id: string)
    requires i < |rs| && HeldBy(owner, id)(rs[i]) && Count(rs, HeldBy(owner, id)) == 1
    ensures Release(rs, owner, id) == rs[..i] + rs[i + 1..]
  {
    var before, after := rs[..i], rs[i + 1..];
    CountSplit(rs, i, HeldBy(owner, id));
    calc {
      Release(rs, owner, id);
      { assert rs == before + ([rs[i]] + after); }
      Release(before + ([rs[i]] + after), owner, id);
      { ReleaseConcat(before, [rs[i]] + after, owner, id); }
      Release(before, owner, id) + Release([rs[i]] + after, owner, id);
      { ReleaseConcat([rs[i]], after, owner, id); assert Release([rs[i]], owner, id) == []; }
      Release(before, owner, id) + Release(after, owner, id);
      { ReleaseNothing(before, owner, id); ReleaseNothing(after, owner, id); }
      before + after;
    }
  }

  /** A release touches only what the owner holds on the id. */
  lemma {:induction false} ReleaseKeeps(rs: seq<Request>, owner: string, id: string, test: Test)
    requires forall r :: test(r) ==> !HeldBy(owner, id)(r)
    ensures Count(Release(rs, owner, id), test) == Count(rs, test)
  {
    if rs != [] {
      ReleaseKeeps(rs[1..], owner, id, test);
      var head := if HeldBy(owner, id)(rs[0]) then [] else [rs[0]];
      CountConcat(head, Release(rs[1..], owner, id), test);
      assert Count([rs[0]], test) == if test(rs[0]) then 1 else 0;
    }
  }

  /** No release touches a request that is still waiting. */
  lemma ReleaseKeepsWaiting(rs: seq<Request>, owner: string, id: string, chan: nat)
    ensures Count(Release(rs, owner, id), WaitingOn(chan)) == Count(rs, WaitingOn(chan))
  {
    ReleaseKeeps(rs, owner, id, WaitingOn(chan));
  }

  lemma {:induction false} ReleaseMembers(rs: seq<Request>, owner: string, id: string)
    ensures forall r :: r in Release(rs, owner, id) <==> r in rs && !HeldBy(owner, id)(r)
  {
    if rs != [] {
      ReleaseMembers(rs[1..], owner, id);
      assert forall r :: r in rs <==> r == rs[0] || r in rs[1..];
    }
  }
}
