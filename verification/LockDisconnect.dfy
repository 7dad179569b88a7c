/** When an `Unlock` or a disconnect keeps exclusion, for every run it can take; when a disconnect comes back; and which
    requests it passes over. */
module LockDisconnect {
  import opened Requests
  import opened LockProtocol
  import opened LockExclusion

  /** What can happen from the start of a disconnect to its end: sends, and turns of its loop. */
  predicate SweepsOnly(steps: seq<Step>) {
    forall k :: 0 <= k < |steps| ==> steps[k].Grant? || steps[k].SweepNext? || steps[k].FinishSweep?
  }

  lemma SweepsInFront(step: Step, rest: seq<Step>)
    requires (step.Grant? || step.SweepNext?) && SweepsOnly(rest)
    ensures SweepsOnly([step] + rest)
  {
  }

  // ---- Exclusion over a whole unlock ----

  /** What can happen from the start of an `Unlock` on, as long as nobody calls: sends, and its own end. */
  predicate UnlocksOnly(steps: seq<Step>) {
    forall k :: 0 <= k < |steps| ==> steps[k].Grant? || steps[k].FinishUnlock?
  }

  lemma {:induction false} UnlockKeeps(s: State, steps: seq<Step>)
    requires Accounted(s) && Placed(s) && Exclusive(s) && IsRun(s, steps) && UnlocksOnly(steps)
    requires s.control.Free? || (s.control.Unlocking? && UnlockSafe(s, s.control.owner, s.control.id))
    ensures Exclusive(After(s, steps)) && Placed(After(s, steps))
    decreases |steps|
  {
    if steps != [] {
      UnlockKeepsStep(s, steps[0]);
      assert forall k :: 0 <= k < |steps[1..]| ==> steps[1..][k] == steps[k + 1];
      UnlockKeeps(Apply(s, steps[0]), steps[1..]);
    }
  }

  lemma UnlockKeepsStep(s: State, step: Step)
    requires Accounted(s) && Placed(s) && Exclusive(s) && Enabled(s, step) && (step.Grant? || step.FinishUnlock?)
    requires s.control.Free? || (s.control.Unlocking? && UnlockSafe(s, s.control.owner, s.control.id))
    ensures var t := Apply(s, step);
      && Accounted(t) && Placed(t) && Exclusive(t)
      && (t.control.Free? || (t.control.Unlocking? && UnlockSafe(t, t.control.owner, t.control.id)))
  {
    StepAccounted(s, step);
    if step.Grant? {
      GrantExclusive(s, step.request);
      if s.control.Unlocking? {
        GrantUnlockSafe(s, step.request, s.control.owner, s.control.id);
      }
    } else {
      HolderUnlock(s, s.control.owner, s.control.id);
    }
  }

  /** An `Unlock` that is not safe can take a token that is not the caller's, if need be after a send. */
  lemma UnlockBreaks(s: State) returns (steps: seq<Step>)
    requires Accounted(s) && Placed(s) && Exclusive(s) && s.control.Unlocking?
    requires !UnlockSafe(s, s.control.owner, s.control.id)
    ensures IsRun(s, steps) && UnlocksOnly(steps)
    ensures !(Exclusive(After(s, steps)) && Placed(After(s, steps)))
  {
    var owner, id := s.control.owner, s.control.id;
    if HasToken(s, id) {
      TakesToken(s);
      steps := [FinishUnlock];
    } else {
      var q :| q in s.requests && q.id == id && q.owner != owner;
      var i := GrantStranger(s, owner, q);
      TakesToken(Granted(s, i));
      Extend(s, Grant(i), [FinishUnlock]);
      steps := [Grant(i)] + [FinishUnlock];
    }
  }

  lemma TakesToken(s: State)
    requires Accounted(s) && Placed(s) && Exclusive(s) && s.control.Unlocking? && HasToken(s, s.control.id)
    requires Count(s.requests, HeldBy(s.control.owner, s.control.id)) == 0
    ensures IsRun(s, [FinishUnlock])
    ensures !(Exclusive(After(s, [FinishUnlock])) && Placed(After(s, [FinishUnlock])))
  {
    ReleaseSafeExactlyForHolder(s, s.control.owner, s.control.id);
    assert [FinishUnlock][1..] == [];
  }

  /** A request on an empty channel can be granted; the channel's token is then nobody else's. */
  lemma GrantStranger(s: State, owner: string, q: Request) returns (i: nat)
    requires Accounted(s) && Placed(s) && Exclusive(s) && q in s.requests && q.owner != owner && !HasToken(s, q.id)
    ensures CanGrant(s, i) && s.requests[i] == q
    ensures var t := Granted(s, i);
      && Accounted(t) && Placed(t) && Exclusive(t) && HasToken(t, q.id)
      && Count(t.requests, HeldBy(owner, q.id)) == 0
  {
    assert q.id in s.lockers && q.chan == s.lockers[q.id];
    CountPositive(s.requests, HeldOn(q.id));
    assert !HeldOn(q.id)(q);
    i :| 0 <= i < |s.requests| && s.requests[i] == q;
    GrantAccounted(s, i);
    GrantExclusive(s, i);
    NoneHeld(s, owner, q.id);
    CountUpdate(s.requests, i, q.(phase := Held), HeldBy(owner, q.id));
  }

  /** The exact condition for a whole `Unlock`, for callers of any kind: every run of sends and of its own end keeps
      channels and holders in agreement if and only if, with a token in the channel, the caller holds the id and, with
      none, every live request for the id is the caller's. */
  lemma UnlockSafeExactly(s: State, owner: string, id: string)
    requires Accounted(s) && Placed(s) && Exclusive(s) && s.control.Free? && id in s.lockers
    ensures var start := Apply(s, StartUnlock(owner, id));
      UnlockSafe(s, owner, id)
      <==> forall steps :: IsRun(start, steps) && UnlocksOnly(steps)
             ==> Exclusive(After(start, steps)) && Placed(After(start, steps))
  {
    var start := Apply(s, StartUnlock(owner, id));
    StepAccounted(s, StartUnlock(owner, id));
    if UnlockSafe(s, owner, id) {
      forall steps | IsRun(start, steps) && UnlocksOnly(steps)
        ensures Exclusive(After(start, steps)) && Placed(After(start, steps))
      {
        UnlockKeeps(start, steps);
      }
    } else {
      var steps := UnlockBreaks(start);
    }
  }

  // ---- Exclusion over a whole disconnect ----

  /** A sweep in progress that has not broken anything yet. */
  predicate Intact(s: State) { Accounted(s) && Placed(s) && Exclusive(s) && Scanning(s) }

  lemma GrantIntact(s: State, i: nat)
    requires Intact(s) && CanGrant(s, i)
    ensures Intact(Granted(s, i))
  {
    GrantAccounted(s, i);
    GrantExclusive(s, i);
    IdsGranted(s.requests, i, s.control.owner);
  }

  lemma SweepIntact(s: State)
    requires Intact(s) && Enabled(s, SweepNext)
    requires Count(s.requests, HeldBy(s.control.owner, s.control.ids[s.control.next])) > 0
    ensures Intact(Swept(s))
  {
    SweepAccounted(s);
    HolderSweep(s);
    SweepScan(s);
  }

  /** The owner waits for an id that somebody else wants as well. */
  predicate Contends(rs: seq<Request>, owner: string, r: Request, q: Request) {
    r in rs && q in rs && r.owner == owner && r.phase == Waiting && q.id == r.id && q.owner != owner
  }

  /** Another request for the id the sweep has reached, whose channel is empty, can be granted first. */
  lemma StealAfterGrant(s: State, q: Request) returns (steps: seq<Step>)
    requires Intact(s) && s.control.next < |s.control.ids| && q in s.requests && q.owner != s.control.owner
    requires q.id == s.control.ids[s.control.next] && !HasToken(s, q.id)
    ensures IsRun(s, steps) && SweepsOnly(steps) && !Exclusive(After(s, steps))
  {
    var i := GrantStranger(s, s.control.owner, q);
    GrantIntact(s, i);
    StealNow(Granted(s, i));
    Extend(s, Grant(i), [SweepNext]);
    SweepsInFront(Grant(i), [SweepNext]);
    steps := [Grant(i)] + [SweepNext];
  }

  lemma NoneHeld(s: State, owner: string, id: string)
    requires Count(s.requests, HeldOn(id)) == 0
    ensures Count(s.requests, HeldBy(owner, id)) == 0
  {
    CountMonotone(s.requests, HeldBy(owner, id), HeldOn(id));
  }

  /** A token that is not the owner's is there to be taken. */
  lemma StealNow(s: State)
    requires Intact(s) && Enabled(s, SweepNext)
    requires Count(s.requests, HeldBy(s.control.owner, s.control.ids[s.control.next])) == 0
    ensures IsRun(s, [SweepNext]) && !Exclusive(After(s, [SweepNext]))
  {
    SweepSafeExactlyForHolder(s);
    assert [SweepNext][1..] == [];
  }

  /** The owner gives up what it holds, and still waits for the contended id. */
  lemma SweepOwn(s: State, r: Request, q: Request)
    requires Intact(s) && s.control.next < |s.control.ids| && Contends(s.requests, s.control.owner, r, q)
    requires Count(s.requests, HeldBy(s.control.owner, s.control.ids[s.control.next])) > 0
    ensures Enabled(s, SweepNext) && Intact(Swept(s)) && Contends(Swept(s).requests, s.control.owner, r, q)
  {
    var owner, id := s.control.owner, s.control.ids[s.control.next];
    CountPositive(s.requests, HeldBy(owner, id));
    var _ := FindHolder(s, owner, id);
    SweepIntact(s);
    ReleaseMembers(s.requests, owner, id);
  }

  /** The owner's own send, when it is the only one to want the id, leaves the contended one as it was. */
  lemma GrantOwn(s: State, i: nat, r: Request, q: Request)
    requires Intact(s) && s.control.next < |s.control.ids| && Contends(s.requests, s.control.owner, r, q)
    requires i < |s.requests| && s.requests[i].owner == s.control.owner
    requires s.requests[i].id == s.control.ids[s.control.next] != r.id && !HasToken(s, s.requests[i].id)
    ensures CanGrant(s, i) && Intact(Granted(s, i)) && Contends(Granted(s, i).requests, s.control.owner, r, q)
    ensures HasToken(Granted(s, i), s.requests[i].id)
  {
    var owner, id := s.control.owner, s.requests[i].id;
    assert s.requests[i] in s.requests;
    CountPositive(s.requests, HeldOn(id));
    assert !HeldOn(id)(s.requests[i]);
    GrantIntact(s, i);
    var j :| 0 <= j < |s.requests| && s.requests[j] == r;
    var k :| 0 <= k < |s.requests| && s.requests[k] == q;
    assert Granted(s, i).requests[j] == r && Granted(s, i).requests[k] == q;
  }

  /** As long as the owner waits for an id that somebody else wants, the sweep can still reach it and take a token
      that is not its own. */
  lemma {:induction false} BreakingRun(s: State, r: Request, q: Request) returns (steps: seq<Step>)
    requires Intact(s) && Contends(s.requests, s.control.owner, r, q)
    ensures IsRun(s, steps) && SweepsOnly(steps) && !Exclusive(After(s, steps))
    decreases |s.control.ids| - s.control.next,
      if s.control.next < |s.control.ids| && HasToken(s, s.control.ids[s.control.next]) then 0 else 1
  {
    var owner := s.control.owner;
    IdsMember(s.requests, owner, r.id);
    assert s.control.next < |s.control.ids|;
    var id := s.control.ids[s.control.next];
    if Count(s.requests, HeldBy(owner, id)) > 0 {
      SweepOwn(s, r, q);
      var rest := BreakingRun(Swept(s), r, q);
      Extend(s, SweepNext, rest);
      SweepsInFront(SweepNext, rest);
      steps := [SweepNext] + rest;
    } else if HasToken(s, id) {
      StealNow(s);
      steps := [SweepNext];
    } else if r.id == id {
      steps := StealAfterGrant(s, q);
    } else {
      var i := ScanRequest(s);
      GrantOwn(s, i, r, q);
      var rest := BreakingRun(Granted(s, i), r, q);
      Extend(s, Grant(i), rest);
      SweepsInFront(Grant(i), rest);
      steps := [Grant(i)] + rest;
    }
  }

  /** The exact condition for a whole disconnect: every run of sends and loop turns it can take keeps channels and
      holders in agreement if and only if nobody else has a request for an id the owner still waits for. */
  lemma DisconnectSafeExactlyWhenAlone(s: State, owner: string)
    requires Good(s) && s.control.Free?
    ensures AloneWhereWaiting(s.requests, owner)
        <==> forall steps :: IsRun(Apply(s, StartSweep(owner)), steps) && SweepsOnly(steps)
               ==> Exclusive(After(Apply(s, StartSweep(owner)), steps))
  {
    var start := Apply(s, StartSweep(owner));
    if AloneWhereWaiting(s.requests, owner) {
      StepGood(s, StartSweep(owner));
      forall steps | IsRun(start, steps) && SweepsOnly(steps) ensures Exclusive(After(start, steps)) {
        AutomaticDisciplined(start, steps);
        RunGood(start, steps);
      }
    } else {
      var r, q :| r in s.requests && q in s.requests && r.owner == owner && r.phase == Waiting && q.id == r.id
        && q.owner != owner;
      StartIntact(s, owner, r);
      var steps := BreakingRun(start, r, q);
    }
  }

  lemma StartIntact(s: State, owner: string, r: Request)
    requires Good(s) && s.control.Free? && r in s.requests && r.owner == owner
    ensures var start := Apply(s, StartSweep(owner));
      start.control.Sweeping? && start.control.owner == owner && start.requests == s.requests && Intact(start)
  {
    IdsMember(s.requests, owner, r.id);
    assert Listed(s, owner);
    var start := Apply(s, StartSweep(owner));
    ControlAccounted(s, start);
    assert start.control.ids[0..] == start.control.ids;
  }

  // ---- Coming back ----

  /** Each id is counted at least as often as the list has it. */
  predicate ListCounted(s: State, ids: seq<string>) {
    forall id :: id in ids ==> Listings(ids, id) <= CounterOf(s, id)
  }

  /** At no place before n has an id come up more often than it is counted. */
  predicate NotShort(s: State, ids: seq<string>, n: nat)
    requires n <= |ids|
  {
    forall m :: 0 <= m < n ==> Listings(ids[..m + 1], ids[m]) <= CounterOf(s, ids[m])
  }

  /** Place n is the first of the list at which an id has come up more often than it is counted. */
  predicate FirstShort(s: State, ids: seq<string>, n: nat) {
    n < |ids| && NotShort(s, ids, n) && Listings(ids[..n + 1], ids[n]) > CounterOf(s, ids[n])
  }

  /** Where a sweep that began at `start` stands: what its list has named so far has been taken off the counters. */
  ghost predicate Paid(start: State, ids: seq<string>, s: State) {
    && s.control.Sweeping? && s.control.ids == ids && s.control.next <= |ids| && s.lockers == start.lockers
    && (forall id :: CounterOf(s, id) == CounterOf(start, id) - Listings(ids[..s.control.next], id))
    && NotShort(start, ids, s.control.next)
  }

  lemma PaidTurn(start: State, ids: seq<string>, s: State)
    requires Accounted(s) && Paid(start, ids, s) && Enabled(s, SweepNext)
    ensures Paid(start, ids, Swept(s))
  {
    PaidOneMore(start, ids, s);
    StillNotShort(start, ids, s);
  }

  lemma StillNotShort(start: State, ids: seq<string>, s: State)
    requires Accounted(s) && Paid(start, ids, s) && Enabled(s, SweepNext)
    ensures NotShort(start, ids, s.control.next + 1)
  {
    TokenIsCounted(s, ids[s.control.next]);
    ListingsUpTo(ids, s.control.next, ids[s.control.next]);
  }

  lemma PaidOneMore(start: State, ids: seq<string>, s: State)
    requires Paid(start, ids, s) && Enabled(s, SweepNext)
    ensures forall id :: CounterOf(Swept(s), id) == CounterOf(start, id) - Listings(ids[..s.control.next + 1], id)
  {
    forall id ensures CounterOf(Swept(s), id) == CounterOf(start, id) - Listings(ids[..s.control.next + 1], id) {
      ListingsUpTo(ids, s.control.next, id);
    }
  }

  lemma TokenIsCounted(s: State, id: string)
    requires Accounted(s)
    ensures 0 <= CounterOf(s, id) && (HasToken(s, id) ==> 0 < CounterOf(s, id))
  {
    if id in s.lockers {
      assert Balanced(s, id);
    }
  }

  /** A sweep that has gone through its list has paid for all of it. */
  lemma PaidInFull(start: State, ids: seq<string>, s: State)
    requires Accounted(s) && Paid(start, ids, s) && s.control.next == |ids|
    ensures ListCounted(start, ids)
  {
    assert ids[..|ids|] == ids;
    forall id | id in ids ensures Listings(ids, id) <= CounterOf(start, id) {
      TokenIsCounted(s, id);
    }
  }

  /** A sweep that is stuck is at the first place its list is short. */
  lemma StuckIsShort(start: State, ids: seq<string>, s: State)
    requires Paid(start, ids, s) && Stuck(s)
    ensures FirstShort(start, ids, s.control.next) && !ListCounted(start, ids)
  {
    var n := s.control.next;
    ListingsUpTo(ids, n, ids[n]);
    assert ids[n] in ids;
  }

  /** Over every run of a disconnect: it is at its end only if every id of the list was counted often enough. */
  lemma {:induction false} PaidAlong(start: State, ids: seq<string>, s: State, steps: seq<Step>)
    requires Accounted(s) && IsRun(s, steps) && SweepsOnly(steps)
    requires if s.control.Free? then ListCounted(start, ids) else Paid(start, ids, s)
    ensures var t := After(s, steps);
      Accounted(t) && if t.control.Free? then ListCounted(start, ids) else Paid(start, ids, t)
    decreases |steps|
  {
    if steps != [] {
      StepAccounted(s, steps[0]);
      if steps[0].SweepNext? {
        PaidTurn(start, ids, s);
      } else if steps[0].FinishSweep? {
        PaidInFull(start, ids, s);
      }
      assert forall k :: 0 <= k < |steps[1..]| ==> steps[1..][k] == steps[k + 1];
      PaidAlong(start, ids, Apply(s, steps[0]), steps[1..]);
    }
  }

  /** A disconnect can always be brought to its end or to where it is stuck. */
  lemma {:induction false} RunToEnd(s: State) returns (steps: seq<Step>)
    requires Accounted(s) && s.control.Sweeping? && s.control.next <= |s.control.ids|
    ensures IsRun(s, steps) && SweepsOnly(steps)
    ensures After(s, steps).control.Free? || Stuck(After(s, steps))
    decreases |s.control.ids| - s.control.next,
      if s.control.next < |s.control.ids| && HasToken(s, s.control.ids[s.control.next]) then 0 else 1
  {
    steps := [];
    if s.control.next == |s.control.ids| {
      steps := [FinishSweep];
      assert steps[1..] == [];
    } else if !Stuck(s) {
      var id := s.control.ids[s.control.next];
      assert Balanced(s, id);
      var step := SweepNext;
      if !HasToken(s, id) {
        var i := CountedWaiter(s, id);
        assert Attached(s, s.requests[i]);
        step := Grant(i);
      }
      StepAccounted(s, step);
      var rest := RunToEnd(Apply(s, step));
      Extend(s, step, rest);
      SweepsInFront(step, rest);
      steps := [step] + rest;
    }
  }

  lemma StartPaid(s: State, owner: string)
    requires Accounted(s) && s.control.Free? && owner in s.owners
    ensures Accounted(Apply(s, StartSweep(owner))) && Paid(s, s.owners[owner], Apply(s, StartSweep(owner)))
  {
    StepAccounted(s, StartSweep(owner));
    assert s.owners[owner][..0] == [];
  }

  /** The exact condition for a disconnect to come back, for callers of any kind, decided before the call: every id of
      the owner's list is counted at least as often as it is listed. Then no run of sends and loop turns is stuck, and
      one completes it; otherwise no run completes it, and one is stuck. */
  lemma DisconnectReturnsExactlyWhenCounted(s: State, owner: string)
    requires Accounted(s) && s.control.Free?
    ensures var start := Apply(s, StartSweep(owner));
      && (ListCounted(s, OwnerList(s, owner))
          <==> exists steps :: IsRun(start, steps) && SweepsOnly(steps) && After(start, steps).control.Free?)
      && (ListCounted(s, OwnerList(s, owner))
          <==> forall steps :: IsRun(start, steps) && SweepsOnly(steps) ==> !Stuck(After(start, steps)))
  {
    var start, ids := Apply(s, StartSweep(owner)), OwnerList(s, owner);
    var end := [];
    if owner in s.owners {
      StartPaid(s, owner);
      end := RunToEnd(start);
    }
    EndsByTheList(s, owner, end);
    forall steps | IsRun(start, steps) && SweepsOnly(steps)
      ensures After(start, steps).control.Free? ==> ListCounted(s, ids)
      ensures Stuck(After(start, steps)) ==> !ListCounted(s, ids)
    {
      EndsByTheList(s, owner, steps);
    }
  }

  lemma EndsByTheList(s: State, owner: string, steps: seq<Step>)
    requires Accounted(s) && s.control.Free?
    requires IsRun(Apply(s, StartSweep(owner)), steps) && SweepsOnly(steps)
    ensures var t := After(Apply(s, StartSweep(owner)), steps);
      && (t.control.Free? ==> ListCounted(s, OwnerList(s, owner)))
      && (Stuck(t) ==> t.control.Sweeping? && !ListCounted(s, OwnerList(s, owner)) && t.lockers == s.lockers
                       && t.control.ids == OwnerList(s, owner) && FirstShort(s, t.control.ids, t.control.next))
  {
    var start, ids := Apply(s, StartSweep(owner)), OwnerList(s, owner);
    if owner in s.owners {
      StartPaid(s, owner);
    }
    PaidAlong(s, ids, start, steps);
    var t := After(start, steps);
    if Stuck(t) {
      StuckIsShort(s, ids, t);
    }
  }

  // ---- Requests that are on no list ----

  /** What an `Unlock` does to the lists, for callers of any kind, whether or not they hold the id: the caller's own
      list loses every copy of it and keeps every other id as often and in the order it had them, its key goes when the
      list is empty, and no other owner's list changes. */
  lemma UnlockForgetsId(s: State, owner: string, id: string)
    requires HasToken(s, id)
    ensures var before, after := OwnerList(s, owner), OwnerList(Unlocked(s, owner, id), owner);
      && (forall k :: Listings(after, k) == if k == id then 0 else Listings(before, k))
      && (forall a, b :: before == a + b ==> after == Without(a, id) + Without(b, id))
      && (forall k :: k in before && k != id ==> Without([k], id) == [k])
      && Without([id], id) == []
    ensures owner in Unlocked(s, owner, id).owners <==> OwnerList(Unlocked(s, owner, id), owner) != []
    ensures forall o :: o != owner ==>
              (o in Unlocked(s, owner, id).owners <==> o in s.owners)
              && OwnerList(Unlocked(s, owner, id), o) == OwnerList(s, o)
  {
    var before, after := OwnerList(s, owner), OwnerList(Unlocked(s, owner, id), owner);
    assert after == Without(before, id);
    forall k ensures Listings(after, k) == if k == id then 0 else Listings(before, k) {
      WithoutListings(before, id, k);
    }
    forall a, b | before == a + b ensures after == Without(a, id) + Without(b, id) {
      WithoutConcat(a, b, id);
    }
  }

  lemma {:induction false} WithoutListings(ids: seq<string>, id: string, k: string)
    ensures Listings(Without(ids, id), k) == if k == id then 0 else Listings(ids, k)
  {
    if ids != [] {
      var head := if ids[0] == id then [] else [ids[0]];
      WithoutListings(ids[1..], id, k);
      ListingsConcat(head, Without(ids[1..], id), k);
      assert Listings(head, k) == if ids[0] == k && k != id then 1 else 0 by {
        assert [ids[0]][1..] == [];
      }
    }
  }

  /** After an `Unlock` by the holder, the owner's list is still the list of its live ids if and only if the released
      request was its only one for the id. */
  lemma ListExactlyWhenAskedOnce(s: State, owner: string, id: string)
    requires Accounted(s) && Exclusive(s) && HasToken(s, id) && Count(s.requests, HeldBy(owner, id)) > 0
    requires OwnerList(s, owner) == Ids(s.requests, owner)
    ensures var t := Unlocked(s, owner, id);
      OwnerList(t, owner) == Ids(t.requests, owner) <==> Count(s.requests, LiveBy(owner, id)) == 1
  {
    var t := Unlocked(s, owner, id);
    var i := FindHolder(s, owner, id);
    var before, after := s.requests[..i], s.requests[i + 1..];
    IdsSplit(s.requests, i, owner);
    IdsConcat(before, after, owner);
    WithoutPast(Ids(before, owner), id, Ids(after, owner));
    OneRequestLess(s, owner, id);
    LiveIsListed(t.requests, owner, id);
    var left := Ids(t.requests, owner);
    assert OwnerList(t, owner) == Without(left, id);
    if id in left {
      WithoutMembers(left, id);
    } else {
      WithoutAbsent(left, id);
    }
  }

  lemma WithoutPast(a: seq<string>, id: string, b: seq<string>)
    ensures Without(a + [id] + b, id) == Without(a + b, id)
  {
    WithoutConcat(a + [id], b, id);
    WithoutConcat(a, [id], id);
    WithoutConcat(a, b, id);
    assert Without([id], id) == [];
  }

  lemma OneRequestLess(s: State, owner: string, id: string)
    requires Accounted(s) && Exclusive(s) && HasToken(s, id) && Count(s.requests, HeldBy(owner, id)) > 0
    ensures Count(Release(s.requests, owner, id), LiveBy(owner, id)) == Count(s.requests, LiveBy(owner, id)) - 1
  {
    var i := FindHolder(s, owner, id);
    CountSplit(s.requests, i, LiveBy(owner, id));
    CountConcat(s.requests[..i], s.requests[i + 1..], LiveBy(owner, id));
  }

  /** A disconnect passes over every id that is not on the owner's list. */
  lemma {:induction false} PassedOver(s: State, owner: string, id: string, steps: seq<Step>)
    requires IsRun(s, steps) && SweepsOnly(steps)
    requires s.control.Free? || (s.control.Sweeping? && s.control.owner == owner && id !in s.control.ids)
    ensures Count(After(s, steps).requests, LiveBy(owner, id)) == Count(s.requests, LiveBy(owner, id))
    decreases |steps|
  {
    if steps != [] {
      match steps[0] {
        case Grant(i) => CountUpdate(s.requests, i, s.requests[i].(phase := Held), LiveBy(owner, id));
        case SweepNext => ReleaseKeeps(s.requests, owner, s.control.ids[s.control.next], LiveBy(owner, id));
        case _ =>
      }
      assert forall k :: 0 <= k < |steps[1..]| ==> steps[1..][k] == steps[k + 1];
      PassedOver(Apply(s, steps[0]), owner, id, steps[1..]);
    }
  }

  /** What a holder's `Unlock` and a later disconnect leave of the owner's requests for the id: all but the one that
      was unlocked. So nothing is left if and only if the owner had asked once. */
  lemma SurplusSurvivesDisconnect(s: State, owner: string, id: string, steps: seq<Step>)
    requires Accounted(s) && Exclusive(s) && HasToken(s, id) && Count(s.requests, HeldBy(owner, id)) > 0
    requires IsRun(Apply(Unlocked(s, owner, id), StartSweep(owner)), steps) && SweepsOnly(steps)
    ensures var left := After(Apply(Unlocked(s, owner, id), StartSweep(owner)), steps).requests;
      && Count(left, LiveBy(owner, id)) == Count(s.requests, LiveBy(owner, id)) - 1
      && (id !in Ids(left, owner) <==> Count(s.requests, LiveBy(owner, id)) == 1)
  {
    var t := Unlocked(s, owner, id);
    OneRequestLess(s, owner, id);
    WithoutMembers(OwnerList(s, owner), id);
    assert id !in OwnerList(t, owner);
    PassedOver(Apply(t, StartSweep(owner)), owner, id, steps);
    LiveIsListed(After(Apply(t, StartSweep(owner)), steps).requests, owner, id);
  }
}
