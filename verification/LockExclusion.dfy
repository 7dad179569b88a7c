/** What the lock service gives owners that keep three rules: ask for an id only when they have no live request
    for it, unlock only what they hold or are alone to wait for, and disconnect only when nobody else wants an id they
    still wait for. */
module LockExclusion {
  import opened Requests
  import opened LockProtocol

  predicate AllHeld(rs: seq<Request>, owner: string) {
    forall r :: r in rs && r.owner == owner ==> r.phase == Held
  }

  /** Nobody else has a live request for an id the owner still waits for. */
  predicate AloneWhereWaiting(rs: seq<Request>, owner: string) {
    forall r, q :: r in rs && q in rs && r.owner == owner && r.phase == Waiting && q.id == r.id ==> q.owner == owner
  }

  /** Every live request for the id is the owner's. */
  predicate OnlyOwner(rs: seq<Request>, owner: string, id: string) {
    forall r :: r in rs && r.id == id ==> r.owner == owner
  }

  /** The token an `Unlock` receives is the caller's: the caller holds the id or, as long as its channel is empty,
      nobody else can be granted it first. */
  predicate UnlockSafe(s: State, owner: string, id: string) {
    if HasToken(s, id) then Count(s.requests, HeldBy(owner, id)) > 0 else OnlyOwner(s.requests, owner, id)
  }

  predicate Disciplined(s: State, step: Step) {
    match step
    case Register(owner, id) => id !in Ids(s.requests, owner)
    case StartUnlock(owner, id) => id !in s.lockers || (UnlockSafe(s, owner, id) && CounterOf(s, id) > 0)
    case StartSweep(owner) => AloneWhereWaiting(s.requests, owner)
    case _ => true
  }

  /** Every live request, held or waiting, uses the current channel of its id. */
  predicate Placed(s: State) {
    forall r :: r in s.requests ==> r.id in s.lockers && r.chan == s.lockers[r.id]
  }

  /** A channel is full exactly when one request holds its id, and empty when none does. */
  predicate Exclusive(s: State) {
    forall id :: id in s.lockers ==>
      s.lockers[id] < |s.tokens| && s.tokens[s.lockers[id]] == Count(s.requests, HeldOn(id))
  }

  /** A sweep has given up the first `next` entries of the list it scans; the rest is what the owner still requests. */
  predicate Scanning(s: State) {
    && s.control.Sweeping? && s.control.next <= |s.control.ids|
    && NoDup(Ids(s.requests, s.control.owner))
    && Ids(s.requests, s.control.owner) == s.control.ids[s.control.next..]
  }

  /** The owner's list is its live ids in request order, without repeats, and absent when there are none. */
  predicate Listed(s: State, owner: string) {
    var ids := Ids(s.requests, owner);
    && NoDup(ids)
    && if s.control.Sweeping? && s.control.owner == owner then
         && owner in s.owners && s.owners[owner] == s.control.ids
         && Scanning(s) && AloneWhereWaiting(s.requests, owner)
       else
         && (owner in s.owners <==> ids != [])
         && (owner in s.owners ==> s.owners[owner] == ids)
  }

  ghost predicate Good(s: State) {
    && Accounted(s) && Placed(s) && Exclusive(s)
    && (forall owner :: Listed(s, owner))
    && (s.control.Unlocking? ==> UnlockSafe(s, s.control.owner, s.control.id) && CounterOf(s, s.control.id) > 0)
  }

  lemma AtMostOneHolder(s: State, owner: string, id: string)
    requires Accounted(s) && Exclusive(s) && id in s.lockers
    ensures Count(s.requests, HeldBy(owner, id)) <= Count(s.requests, HeldOn(id)) <= 1
  {
    CountMonotone(s.requests, HeldBy(owner, id), HeldOn(id));
  }

  /** The request whose release `owner` is entitled to. */
  lemma FindHolder(s: State, owner: string, id: string) returns (i: nat)
    requires Accounted(s) && Exclusive(s) && id in s.lockers
    requires Count(s.requests, HeldBy(owner, id)) > 0
    ensures i < |s.requests| && HeldBy(owner, id)(s.requests[i])
    ensures Count(s.requests, HeldBy(owner, id)) == 1 == Count(s.requests, HeldOn(id)) && HasToken(s, id)
    ensures Release(s.requests, owner, id) == s.requests[..i] + s.requests[i + 1..]
  {
    AtMostOneHolder(s, owner, id);
    CountPositive(s.requests, HeldBy(owner, id));
    var r :| r in s.requests && HeldBy(owner, id)(r);
    i :| 0 <= i < |s.requests| && s.requests[i] == r;
    ReleaseOne(s.requests, i, owner, id);
  }

  /** A holder's release frees the id and moves nobody else. */
  lemma ReleaseHeld(s: State, owner: string, id: string, other: string)
    requires Accounted(s) && Exclusive(s) && id in s.lockers
    requires Count(s.requests, HeldBy(owner, id)) > 0
    ensures Count(Release(s.requests, owner, id), HeldOn(other))
         == if other == id then 0 else Count(s.requests, HeldOn(other))
  {
    var i := FindHolder(s, owner, id);
    CountSplit(s.requests, i, HeldOn(other));
    CountConcat(s.requests[..i], s.requests[i + 1..], HeldOn(other));
  }

  lemma ReleaseIds(s: State, owner: string, id: string, other: string)
    requires Accounted(s) && Exclusive(s) && id in s.lockers
    requires Count(s.requests, HeldBy(owner, id)) > 0
    requires NoDup(Ids(s.requests, other))
    ensures NoDup(Ids(Release(s.requests, owner, id), other))
    ensures Ids(Release(s.requests, owner, id), other)
         == if other == owner then Without(Ids(s.requests, other), id) else Ids(s.requests, other)
  {
    var i := FindHolder(s, owner, id);
    var before, after := s.requests[..i], s.requests[i + 1..];
    IdsSplit(s.requests, i, other);
    IdsConcat(before, after, other);
    if other == owner {
      NoDupAround(Ids(before, other), id, Ids(after, other));
      WithoutUnique(Ids(before, other), id, Ids(after, other));
    } else {
      assert Ids(s.requests, other) == Ids(before, other) + Ids(after, other);
    }
  }

  // ---- Each step keeps the invariant ----

  lemma RegisterListed(s: State, owner: string, id: string, other: string)
    requires s.control.Free? && id !in Ids(s.requests, owner) && Listed(s, other)
    ensures Listed(Registered(s, owner, id), other)
  {
    IdsAppend(s.requests, Request(owner, id, ChannelFor(s, id), Waiting), other);
  }

  lemma RegisterExclusive(s: State, owner: string, id: string)
    requires Accounted(s) && Placed(s) && Exclusive(s)
    ensures Exclusive(Registered(s, owner, id)) && Placed(Registered(s, owner, id))
  {
    var t := Registered(s, owner, id);
    var r := Request(owner, id, ChannelFor(s, id), Waiting);
    forall q | q in t.requests ensures q.id in t.lockers && q.chan == t.lockers[q.id] {
      assert q in s.requests || q == r;
    }
    forall k | k in t.lockers
      ensures t.lockers[k] < |t.tokens| && t.tokens[t.lockers[k]] == Count(t.requests, HeldOn(k))
    {
      CountAppend(s.requests, r, HeldOn(k));
      CountPositive(s.requests, HeldOn(k));
    }
  }

  lemma RegisterGood(s: State, owner: string, id: string)
    requires Good(s) && s.control.Free? && Disciplined(s, Register(owner, id))
    ensures Good(Registered(s, owner, id))
  {
    RegisterAccounted(s, owner, id);
    RegisterExclusive(s, owner, id);
    forall other ensures Listed(Registered(s, owner, id), other) {
      assert Listed(s, other);
      RegisterListed(s, owner, id, other);
    }
  }

  lemma GrantExclusive(s: State, i: nat)
    requires Accounted(s) && Placed(s) && Exclusive(s) && CanGrant(s, i)
    ensures Placed(Granted(s, i)) && Exclusive(Granted(s, i))
  {
    var t := Granted(s, i);
    var r := s.requests[i];
    assert r in s.requests;
    forall q | q in t.requests ensures q.id in t.lockers && q.chan == t.lockers[q.id] {
      assert q in s.requests || q == r.(phase := Held);
    }
    forall k | k in t.lockers
      ensures t.lockers[k] < |t.tokens| && t.tokens[t.lockers[k]] == Count(t.requests, HeldOn(k))
    {
      CountUpdate(s.requests, i, r.(phase := Held), HeldOn(k));
    }
  }

  lemma GrantUnlockSafe(s: State, i: nat, owner: string, id: string)
    requires Accounted(s) && Placed(s) && CanGrant(s, i) && id in s.lockers && UnlockSafe(s, owner, id)
    ensures UnlockSafe(Granted(s, i), owner, id)
  {
    var t := Granted(s, i);
    var r := s.requests[i];
    assert r in s.requests;
    CountUpdate(s.requests, i, r.(phase := Held), HeldBy(owner, id));
    if !HasToken(t, id) {
      forall q | q in t.requests && q.id == id ensures q.owner == owner {
        assert q in s.requests || q == r.(phase := Held);
      }
    }
  }

  lemma GrantListed(s: State, i: nat, other: string)
    requires CanGrant(s, i) && Listed(s, other)
    ensures Listed(Granted(s, i), other)
  {
    IdsGranted(s.requests, i, other);
    assert s.requests[i] in s.requests;
    assert forall q :: q in Granted(s, i).requests ==> q in s.requests || q == s.requests[i].(phase := Held);
  }

  lemma GrantGood(s: State, i: nat)
    requires Good(s) && CanGrant(s, i)
    ensures Good(Granted(s, i))
  {
    var t := Granted(s, i);
    GrantAccounted(s, i);
    GrantExclusive(s, i);
    forall other ensures Listed(t, other) {
      assert Listed(s, other);
      GrantListed(s, i, other);
    }
    if s.control.Unlocking? {
      GrantUnlockSafe(s, i, s.control.owner, s.control.id);
    }
  }

  /** When a holder unlocks, channels and holders still agree, and a dropped locker leaves no request behind. */
  lemma HolderUnlock(s: State, owner: string, id: string)
    requires Accounted(s) && Placed(s) && Exclusive(s) && HasToken(s, id)
    requires Count(s.requests, HeldBy(owner, id)) > 0
    ensures Placed(Unlocked(s, owner, id)) && Exclusive(Unlocked(s, owner, id))
  {
    var t := Unlocked(s, owner, id);
    AtMostOneHolder(s, owner, id);
    forall k | k in t.lockers
      ensures t.lockers[k] < |t.tokens| && t.tokens[t.lockers[k]] == Count(t.requests, HeldOn(k))
    {
      ReleaseHeld(s, owner, id, k);
    }
    ReleaseMembers(s.requests, owner, id);
    ReleaseHeld(s, owner, id, id);
    assert Balanced(s, id);
    forall q | q in t.requests ensures q.id in t.lockers && q.chan == t.lockers[q.id] {
      assert q in s.requests;
      if q.id == id {
        CountPositive(s.requests, WaitingOn(s.lockers[id]));
        CountPositive(t.requests, HeldOn(id));
        assert q.phase == Waiting ==> WaitingOn(s.lockers[id])(q);
        assert q.phase == Held ==> HeldOn(id)(q);
      }
    }
  }

  lemma UnlockListed(s: State, other: string)
    requires Good(s) && Enabled(s, FinishUnlock)
    ensures Listed(Apply(s, FinishUnlock), other)
  {
    assert Listed(s, other) && Listed(s, s.control.owner);
    ReleaseIds(s, s.control.owner, s.control.id, other);
  }

  lemma UnlockGood(s: State)
    requires Good(s) && Enabled(s, FinishUnlock)
    ensures Good(Apply(s, FinishUnlock))
  {
    UnlockAccounted(s, s.control.owner, s.control.id);
    HolderUnlock(s, s.control.owner, s.control.id);
    forall other ensures Listed(Apply(s, FinishUnlock), other) {
      UnlockListed(s, other);
    }
  }

  /** The request behind the entry a sweep has reached. */
  lemma ScanRequest(s: State) returns (i: nat)
    requires Scanning(s) && s.control.next < |s.control.ids|
    ensures i < |s.requests| && s.requests[i].owner == s.control.owner
    ensures s.requests[i].id == s.control.ids[s.control.next]
  {
    var owner, id := s.control.owner, s.control.ids[s.control.next];
    assert Ids(s.requests, owner)[0] == id;
    IdsMember(s.requests, owner, id);
    var r :| r in s.requests && r.owner == owner && r.id == id;
    i :| 0 <= i < |s.requests| && s.requests[i] == r;
  }

  /** When the owner holds the entry it gives up, the scan goes on with one entry less. */
  lemma SweepScan(s: State)
    requires Accounted(s) && Exclusive(s) && Scanning(s) && Enabled(s, SweepNext)
    requires Count(s.requests, HeldBy(s.control.owner, s.control.ids[s.control.next])) > 0
    ensures Scanning(Swept(s))
  {
    var owner, id := s.control.owner, s.control.ids[s.control.next];
    ReleaseIds(s, owner, id, owner);
    WithoutHead(Ids(s.requests, owner));
    assert s.control.ids[s.control.next..][1..] == s.control.ids[s.control.next + 1..];
  }

  /** When the owner holds the entry it gives up, channels and holders still agree. */
  lemma HolderSweep(s: State)
    requires Accounted(s) && Placed(s) && Exclusive(s) && Enabled(s, SweepNext)
    requires Count(s.requests, HeldBy(s.control.owner, s.control.ids[s.control.next])) > 0
    ensures Placed(Swept(s)) && Exclusive(Swept(s))
  {
    var owner, id := s.control.owner, s.control.ids[s.control.next];
    var t := Swept(s);
    ReleaseMembers(s.requests, owner, id);
    AtMostOneHolder(s, owner, id);
    forall k | k in t.lockers
      ensures t.lockers[k] < |t.tokens| && t.tokens[t.lockers[k]] == Count(t.requests, HeldOn(k))
    {
      ReleaseHeld(s, owner, id, k);
    }
  }

  /** The exact condition for one turn of a disconnect, for callers of any kind: it keeps channels and holders in
      agreement if and only if the owner it sweeps holds the id. `UnlockForOwner` does not check this. */
  lemma SweepSafeExactlyForHolder(s: State)
    requires Accounted(s) && Placed(s) && Exclusive(s) && Enabled(s, SweepNext)
    ensures Exclusive(Swept(s)) <==> Count(s.requests, HeldBy(s.control.owner, s.control.ids[s.control.next])) > 0
  {
    var owner, id := s.control.owner, s.control.ids[s.control.next];
    if Count(s.requests, HeldBy(owner, id)) == 0 {
      ReleaseNothing(s.requests, owner, id);
      assert Count(s.requests, HeldOn(id)) == 1;
    } else {
      HolderSweep(s);
    }
  }

  /** The entry a disciplined sweep has reached: a token in its channel is the owner's. Without a token the owner's own
      send is next, and it needs no mutex. */
  lemma SweepReady(s: State)
    requires Good(s) && s.control.Sweeping? && s.control.next < |s.control.ids|
    ensures var owner, id := s.control.owner, s.control.ids[s.control.next];
      && id in s.lockers
      && (HasToken(s, id) ==> Count(s.requests, HeldBy(owner, id)) > 0)
      && (!HasToken(s, id) ==>
            exists i: nat :: CanGrant(s, i) && s.requests[i].owner == owner && s.requests[i].id == id)
      && (AllHeld(s.requests, owner) ==> HasToken(s, id))
  {
    var owner, id := s.control.owner, s.control.ids[s.control.next];
    assert Listed(s, owner);
    var i := ScanRequest(s);
    var r := s.requests[i];
    assert r in s.requests;
    CountPositive(s.requests, HeldOn(id));
    CountPositive(s.requests, HeldBy(owner, id));
    if HasToken(s, id) {
      var h :| h in s.requests && HeldOn(id)(h);
      if r.phase == Held {
        assert HeldBy(owner, id)(r);
      } else {
        assert h.owner == owner;
        assert HeldBy(owner, id)(h);
      }
    } else {
      assert !HeldOn(id)(r);
      assert CanGrant(s, i);
    }
  }

  lemma SweepListedOther(s: State, other: string)
    requires Good(s) && Enabled(s, SweepNext) && other != s.control.owner
    ensures Listed(Apply(s, SweepNext), other)
  {
    SweepReady(s);
    assert Listed(s, other);
    ReleaseIds(s, s.control.owner, s.control.ids[s.control.next], other);
  }

  lemma SweepListedOwner(s: State)
    requires Good(s) && Enabled(s, SweepNext)
    ensures Listed(Apply(s, SweepNext), s.control.owner)
  {
    SweepReady(s);
    assert Listed(s, s.control.owner);
    ReleaseMembers(s.requests, s.control.owner, s.control.ids[s.control.next]);
    SweepScan(s);
  }

  lemma SweepGood(s: State)
    requires Good(s) && Enabled(s, SweepNext)
    ensures Good(Apply(s, SweepNext))
  {
    SweepAccounted(s);
    SweepReady(s);
    HolderSweep(s);
    forall other ensures Listed(Swept(s), other) {
      if other == s.control.owner {
        SweepListedOwner(s);
      } else {
        SweepListedOther(s, other);
      }
    }
  }

  lemma StartGood(s: State, step: Step)
    requires Good(s) && Enabled(s, step) && Disciplined(s, step)
    requires step.StartUnlock? || step.StartSweep? || step.FinishSweep?
    ensures Good(Apply(s, step))
  {
    var t := Apply(s, step);
    ControlAccounted(s, t);
    forall other ensures Listed(t, other) {
      assert Listed(s, other);
    }
  }

  lemma StepGood(s: State, step: Step)
    requires Good(s) && Enabled(s, step) && Disciplined(s, step)
    ensures Good(Apply(s, step))
  {
    match step
    case Register(owner, id) => RegisterGood(s, owner, id);
    case Grant(i) => GrantGood(s, i);
    case FinishUnlock => UnlockGood(s);
    case SweepNext => SweepGood(s);
    case _ => StartGood(s, step);
  }

  // ---- Runs ----

  predicate IsDisciplinedRun(s: State, steps: seq<Step>)
    decreases |steps|
  {
    steps == []
    || (Enabled(s, steps[0]) && Disciplined(s, steps[0]) && IsDisciplinedRun(Apply(s, steps[0]), steps[1..]))
  }

  lemma {:induction false} RunGood(s: State, steps: seq<Step>)
    requires Good(s) && IsDisciplinedRun(s, steps)
    ensures IsRun(s, steps) && Good(After(s, steps))
    decreases |steps|
  {
    if steps != [] {
      StepGood(s, steps[0]);
      RunGood(Apply(s, steps[0]), steps[1..]);
    }
  }

  /** Steps that no caller decides on; no rule is about them. */
  predicate Automatic(step: Step) { !step.Register? && !step.StartUnlock? && !step.StartSweep? }

  lemma {:induction false} AutomaticDisciplined(s: State, steps: seq<Step>)
    requires IsRun(s, steps) && forall k :: 0 <= k < |steps| ==> Automatic(steps[k])
    ensures IsDisciplinedRun(s, steps)
    decreases |steps|
  {
    if steps != [] {
      assert forall k :: 0 <= k < |steps[1..]| ==> steps[1..][k] == steps[k + 1];
      AutomaticDisciplined(Apply(s, steps[0]), steps[1..]);
    }
  }

  /** A call that starts by the rules keeps the invariant to its end. */
  lemma CallGood(s: State, steps: seq<Step>)
    requires Good(s) && IsRun(s, steps) && steps != [] && Disciplined(s, steps[0])
    requires forall k :: 0 < k < |steps| ==> Automatic(steps[k])
    ensures Good(After(s, steps))
  {
    assert forall k :: 0 <= k < |steps[1..]| ==> steps[1..][k] == steps[k + 1];
    StepGood(s, steps[0]);
    AutomaticDisciplined(Apply(s, steps[0]), steps[1..]);
    RunGood(Apply(s, steps[0]), steps[1..]);
  }

  /** No call of a disciplined run is ever stuck. */
  lemma GoodNotStuck(s: State)
    requires Good(s)
    ensures !Stuck(s)
  {
    if s.control.Sweeping? && s.control.next < |s.control.ids| {
      var id := s.control.ids[s.control.next];
      SweepReady(s);
      assert Balanced(s, id);
      CountPositive(s.requests, WaitingOn(s.lockers[id]));
      if !HasToken(s, id) {
        var i: nat :| CanGrant(s, i) && s.requests[i].id == id;
        assert s.requests[i] in s.requests && WaitingOn(s.lockers[id])(s.requests[i]);
      }
    }
  }

  lemma InitGood()
    ensures Good(Init())
  {
    forall owner ensures Listed(Init(), owner) {
      assert Ids([], owner) == [];
    }
  }

  predicate BothHold(rs: seq<Request>, i: nat, j: nat) {
    && i < |rs| && j < |rs| && rs[i].id == rs[j].id
    && rs[i].phase == Held && rs[j].phase == Held
  }

  /** Mutual exclusion over every disciplined run: an id has at most one holder, whose channel is full exactly then. */
  lemma MutualExclusion(steps: seq<Step>, i: nat, j: nat)
    requires IsDisciplinedRun(Init(), steps)
    ensures IsRun(Init(), steps)
    ensures var s := After(Init(), steps);
      && (BothHold(s.requests, i, j) ==> i == j)
      && (forall id :: id in s.lockers ==>
            (HasToken(s, id) <==> exists r :: r in s.requests && r.id == id && r.phase == Held))
  {
    InitGood();
    RunGood(Init(), steps);
    var s := After(Init(), steps);
    if BothHold(s.requests, i, j) && i != j {
      assert s.requests[i] in s.requests;
      CountTwo(s.requests, if i < j then i else j, if i < j then j else i, HeldOn(s.requests[i].id));
    }
    forall id | id in s.lockers
      ensures HasToken(s, id) <==> exists r :: r in s.requests && r.id == id && r.phase == Held
    {
      CountPositive(s.requests, HeldOn(id));
      assert forall r :: HeldOn(id)(r) <==> r.id == id && r.phase == Held;
    }
  }

  /** No release of a disciplined run blocks for good, and the token it takes is its own owner's. An `Unlock` of a held
      id finds its token there, and so does a disconnect of an owner that holds all it asked for; any other may have to
      wait for the owner's own send, which needs no mutex. */
  lemma ReleaseNeverBlocks(steps: seq<Step>)
    requires IsDisciplinedRun(Init(), steps)
    ensures IsRun(Init(), steps)
    ensures var s := After(Init(), steps);
      && (s.control.Unlocking? ==>
            (Count(s.requests, HeldBy(s.control.owner, s.control.id)) > 0 ==> Enabled(s, FinishUnlock))
            && (Enabled(s, FinishUnlock) || exists i: nat :: SendsFor(s, i, s.control.owner, s.control.id))
            && forall r :: r in s.requests && r.phase == Held && r.id == s.control.id ==> r.owner == s.control.owner)
      && (s.control.Sweeping? && s.control.next < |s.control.ids| ==>
            (AllHeld(s.requests, s.control.owner) ==> Enabled(s, SweepNext))
            && (Enabled(s, SweepNext)
                || exists i: nat :: SendsFor(s, i, s.control.owner, s.control.ids[s.control.next]))
            && forall r :: r in s.requests && r.phase == Held && r.id == s.control.ids[s.control.next]
                 ==> r.owner == s.control.owner)
  {
    InitGood();
    RunGood(Init(), steps);
    var s := After(Init(), steps);
    if s.control.Unlocking? {
      UnlockOnlyHolder(s);
    } else if s.control.Sweeping? && s.control.next < |s.control.ids| {
      SweepOnlyHolder(s);
    }
  }

  /** A send the owner itself can make for an id. */
  predicate SendsFor(s: State, i: nat, owner: string, id: string) {
    Enabled(s, Grant(i)) && s.requests[i].owner == owner && s.requests[i].id == id
  }

  /** A disciplined `Unlock` that waits: without a token the caller's own send is next. */
  lemma UnlockOnlyHolder(s: State)
    requires Good(s) && s.control.Unlocking?
    ensures var owner, id := s.control.owner, s.control.id;
      && (Count(s.requests, HeldBy(owner, id)) > 0 ==> Enabled(s, FinishUnlock))
      && (Enabled(s, FinishUnlock) || exists i: nat :: SendsFor(s, i, owner, id))
      && forall r :: r in s.requests && r.phase == Held && r.id == id ==> r.owner == owner
  {
    var owner, id := s.control.owner, s.control.id;
    if Count(s.requests, HeldBy(owner, id)) > 0 {
      OnlyHolder(s, owner, id);
    } else {
      var i := CountedWaiter(s, id);
      assert s.requests[i] in s.requests;
      assert SendsFor(s, i, owner, id);
      CountPositive(s.requests, HeldOn(id));
      assert forall r :: r in s.requests && r.phase == Held && r.id == id ==> HeldOn(id)(r);
    }
  }

  lemma SweepOnlyHolder(s: State)
    requires Good(s) && s.control.Sweeping? && s.control.next < |s.control.ids|
    ensures var owner, id := s.control.owner, s.control.ids[s.control.next];
      && (AllHeld(s.requests, owner) ==> Enabled(s, SweepNext))
      && (Enabled(s, SweepNext) || exists i: nat :: SendsFor(s, i, owner, id))
      && forall r :: r in s.requests && r.phase == Held && r.id == id ==> r.owner == owner
  {
    var owner, id := s.control.owner, s.control.ids[s.control.next];
    SweepReady(s);
    if HasToken(s, id) {
      OnlyHolder(s, owner, id);
    } else {
      var i: nat :| CanGrant(s, i) && s.requests[i].owner == owner && s.requests[i].id == id;
      assert SendsFor(s, i, owner, id);
      CountPositive(s.requests, HeldOn(id));
      assert forall r :: r in s.requests && r.phase == Held && r.id == id ==> HeldOn(id)(r);
    }
  }

  lemma OnlyHolder(s: State, owner: string, id: string)
    requires Accounted(s) && Exclusive(s) && id in s.lockers && Count(s.requests, HeldBy(owner, id)) > 0
    ensures HasToken(s, id)
    ensures forall r :: r in s.requests && r.phase == Held && r.id == id ==> r.owner == owner
  {
    var i := FindHolder(s, owner, id);
    forall r | r in s.requests && r.phase == Held && r.id == id ensures r.owner == owner {
      var j :| 0 <= j < |s.requests| && s.requests[j] == r;
      if i != j {
        CountTwo(s.requests, if i < j then i else j, if i < j then j else i, HeldOn(id));
      }
    }
  }

  /** The exact condition for one release: from a state where channels and holders agree, an `Unlock` by `owner`
      keeps them in agreement if and only if `owner` itself holds the id. `Unlock` does not check this. */
  lemma ReleaseSafeExactlyForHolder(s: State, owner: string, id: string)
    requires Accounted(s) && Placed(s) && Exclusive(s) && HasToken(s, id)
    ensures Exclusive(Unlocked(s, owner, id)) && Placed(Unlocked(s, owner, id))
        <==> Count(s.requests, HeldBy(owner, id)) > 0
  {
    var t := Unlocked(s, owner, id);
    if Count(s.requests, HeldBy(owner, id)) == 0 {
      ReleaseNothing(s.requests, owner, id);
      CountPositive(s.requests, HeldOn(id));
      var r :| r in s.requests && HeldOn(id)(r);
      assert r in t.requests;
    } else {
      HolderUnlock(s, owner, id);
    }
  }
}
