/** The lock service as a step system: what each piece of a `Lock`, `Unlock` or `UnlockForOwner` call
    does to the shared maps, in the order in which calls can interleave. */
module LockProtocol {
  import opened Requests

  /** Who holds `mutexLocker`. An `Unlock` that found its locker keeps the mutex while it receives the token;
      an `UnlockForOwner` keeps it for its whole loop over the owner's list. */
  datatype Control =
    | Free
    | Unlocking(owner: string, id: string)
    | Sweeping(owner: string, ids: seq<string>, next: nat)

  /** `lockers` maps an id to its current channel, numbered by creation; `tokens[c]` is the content of channel c. */
  datatype State = State(
    lockers: map<string, nat>,
    tokens: seq<nat>,
    owners: map<string, seq<string>>,
    counters: map<string, int>,
    requests: seq<Request>,
    control: Control)

  /** The atomic pieces. `Grant(i)` is the send of request i, which needs no mutex. */
  datatype Step =
    | Register(owner: string, id: string)
    | Grant(request: nat)
    | StartUnlock(owner: string, id: string)
    | FinishUnlock
    | StartSweep(owner: string)
    | SweepNext
    | FinishSweep

  function Init(): State { State(map[], [], map[], map[], [], Free) }

  /** Go reads a missing counter as zero and a missing list as empty. */
  function CounterOf(s: State, id: string): int {
    if id in s.counters then s.counters[id] else 0
  }

  function OwnerList(s: State, owner: string): seq<string> {
    if owner in s.owners then s.owners[owner] else []
  }

  function ChannelFor(s: State, id: string): nat {
    if id in s.lockers then s.lockers[id] else |s.tokens|
  }

  /** A token can be received from the current channel of the id. */
  predicate HasToken(s: State, id: string) {
    id in s.lockers && s.lockers[id] < |s.tokens| && s.tokens[s.lockers[id]] > 0
  }

  /** A channel of capacity one accepts a send when it is empty. */
  predicate CanGrant(s: State, i: nat) {
    && i < |s.requests| && s.requests[i].phase == Waiting
    && s.requests[i].chan < |s.tokens| && s.tokens[s.requests[i].chan] == 0
  }

  predicate Enabled(s: State, step: Step) {
    match step
    case Register(_, _) => s.control.Free?
    case Grant(i) => CanGrant(s, i)
    case StartUnlock(_, _) => s.control.Free?
    case FinishUnlock => s.control.Unlocking? && HasToken(s, s.control.id)
    case StartSweep(_) => s.control.Free?
    case SweepNext =>
      s.control.Sweeping? && s.control.next < |s.control.ids| && HasToken(s, s.control.ids[s.control.next])
    case FinishSweep => s.control.Sweeping? && s.control.next == |s.control.ids|
  }

  function Registered(s: State, owner: string, id: string): State {
    var chan := ChannelFor(s, id);
    s.(lockers := s.lockers[id := chan],
       tokens := if id in s.lockers then s.tokens else s.tokens + [0],
       owners := s.owners[owner := OwnerList(s, owner) + [id]],
       counters := s.counters[id := CounterOf(s, id) + 1],
       requests := s.requests + [Request(owner, id, chan, Waiting)])
  }

  function Granted(s: State, i: nat): State
    requires CanGrant(s, i)
  {
    var r := s.requests[i];
    s.(tokens := s.tokens[r.chan := 1], requests := s.requests[i := r.(phase := Held)])
  }

  function Unlocked(s: State, owner: string, id: string): State
    requires HasToken(s, id)
  {
    var chan := s.lockers[id];
    var left := CounterOf(s, id) - 1;
    var list := Without(OwnerList(s, owner), id);
    State(
      if left == 0 then s.lockers - {id} else s.lockers,
      s.tokens[chan := s.tokens[chan] - 1],
      if list == [] then s.owners - {owner} else s.owners[owner := list],
      if left == 0 then s.counters - {id} else s.counters[id := left],
      Release(s.requests, owner, id),
      Free)
  }

  function Swept(s: State): State
    requires s.control.Sweeping? && s.control.next < |s.control.ids|
    requires HasToken(s, s.control.ids[s.control.next])
  {
    var id := s.control.ids[s.control.next];
    var chan := s.lockers[id];
    s.(tokens := s.tokens[chan := s.tokens[chan] - 1],
       counters := s.counters[id := CounterOf(s, id) - 1],
       requests := Release(s.requests, s.control.owner, id),
       control := s.control.(next := s.control.next + 1))
  }

  function Apply(s: State, step: Step): State
    requires Enabled(s, step)
  {
    match step
    case Register(owner, id) => Registered(s, owner, id)
    case Grant(i) => Granted(s, i)
    case StartUnlock(owner, id) => if id in s.lockers then s.(control := Unlocking(owner, id)) else s
    case FinishUnlock => Unlocked(s, s.control.owner, s.control.id)
    case StartSweep(owner) =>
      if owner in s.owners then s.(control := Sweeping(owner, s.owners[owner], 0)) else s
    case SweepNext => Swept(s)
    case FinishSweep => s.(owners := s.owners - {s.control.owner}, control := Free)
  }

  // ---- Runs ----

  predicate IsRun(s: State, steps: seq<Step>)
    decreases |steps|
  {
    steps == [] || (Enabled(s, steps[0]) && IsRun(Apply(s, steps[0]), steps[1..]))
  }

  function After(s: State, steps: seq<Step>): State
    requires IsRun(s, steps)
    decreases |steps|
  {
    if steps == [] then s else After(Apply(s, steps[0]), steps[1..])
  }

  /** A step in front of a run. */
  lemma Extend(s: State, step: Step, rest: seq<Step>)
    requires Enabled(s, step) && IsRun(Apply(s, step), rest)
    ensures IsRun(s, [step] + rest) && After(s, [step] + rest) == After(Apply(s, step), rest)
  {
    assert ([step] + rest)[1..] == rest;
  }

  // ---- Accounting, for callers of any kind ----

  predicate Separate(lockers: map<string, nat>) {
    forall a, b :: a in lockers && b in lockers && a != b ==> lockers[a] != lockers[b]
  }

  /** A waiting request waits on the current channel of its id. */
  predicate Attached(s: State, r: Request) {
    r.phase == Waiting ==> r.id in s.lockers && s.lockers[r.id] == r.chan
  }

  predicate Balanced(s: State, id: string)
    requires id in s.lockers && s.lockers[id] < |s.tokens|
  {
    && id in s.counters
    && s.counters[id] == Count(s.requests, WaitingOn(s.lockers[id])) + s.tokens[s.lockers[id]]
  }

  predicate Accounted(s: State) {
    && s.counters.Keys == s.lockers.Keys
    && Separate(s.lockers)
    && (forall c :: 0 <= c < |s.tokens| ==> s.tokens[c] <= 1)
    && (forall r :: r in s.requests ==> Attached(s, r) && r.chan < |s.tokens|)
    && (forall id :: id in s.lockers ==> s.lockers[id] < |s.tokens| && Balanced(s, id))
    && (s.control.Unlocking? ==> s.control.id in s.lockers)
  }

  /** Nobody can be waiting on a channel that does not exist yet. */
  lemma FreshChannelUnused(s: State)
    requires Accounted(s)
    ensures Count(s.requests, WaitingOn(|s.tokens|)) == 0
  {
    CountPositive(s.requests, WaitingOn(|s.tokens|));
  }

  lemma RegisterBalanced(s: State, owner: string, id: string, k: string)
    requires Accounted(s) && (k == id || k in s.lockers)
    ensures var t := Registered(s, owner, id); t.lockers[k] < |t.tokens| && Balanced(t, k)
  {
    var t := Registered(s, owner, id);
    CountAppend(s.requests, Request(owner, id, ChannelFor(s, id), Waiting), WaitingOn(t.lockers[k]));
    if k in s.lockers {
      assert Balanced(s, k);
    } else {
      FreshChannelUnused(s);
    }
  }

  lemma RegisterAccounted(s: State, owner: string, id: string)
    requires Accounted(s)
    ensures Accounted(Registered(s, owner, id))
  {
    var t := Registered(s, owner, id);
    forall k | k in t.lockers ensures t.lockers[k] < |t.tokens| && Balanced(t, k) {
      RegisterBalanced(s, owner, id, k);
    }
    forall q | q in t.requests ensures Attached(t, q) && q.chan < |t.tokens| {
      assert q in s.requests || q == Request(owner, id, ChannelFor(s, id), Waiting);
    }
  }

  lemma GrantAccounted(s: State, i: nat)
    requires Accounted(s) && CanGrant(s, i)
    ensures Accounted(Granted(s, i))
  {
    var t := Granted(s, i);
    var r := s.requests[i];
    assert Attached(s, r);
    forall k | k in t.lockers ensures Balanced(t, k) {
      assert Balanced(s, k);
      CountUpdate(s.requests, i, r.(phase := Held), WaitingOn(t.lockers[k]));
    }
    forall q | q in t.requests ensures Attached(t, q) && q.chan < |t.tokens| {
      assert q in s.requests || q == r.(phase := Held);
    }
  }

  /** Dropping the locker is safe: a counter that reaches zero leaves nobody waiting on its channel. */
  lemma UnlockAccounted(s: State, owner: string, id: string)
    requires Accounted(s) && HasToken(s, id)
    ensures Accounted(Unlocked(s, owner, id))
  {
    var t := Unlocked(s, owner, id);
    assert Balanced(s, id);
    ReleaseMembers(s.requests, owner, id);
    CountPositive(s.requests, WaitingOn(s.lockers[id]));
    forall k | k in t.lockers ensures t.lockers[k] < |t.tokens| && Balanced(t, k) {
      assert Balanced(s, k);
      ReleaseKeepsWaiting(s.requests, owner, id, t.lockers[k]);
    }
    forall q | q in t.requests ensures Attached(t, q) && q.chan < |t.tokens| {
      assert q in s.requests && Attached(s, q);
      if q.phase == Waiting && q.id == id {
        assert WaitingOn(s.lockers[id])(q);
      }
    }
  }

  lemma SweepAccounted(s: State)
    requires Accounted(s) && Enabled(s, SweepNext)
    ensures Accounted(Swept(s))
  {
    var t := Swept(s);
    var id := s.control.ids[s.control.next];
    assert Balanced(s, id);
    ReleaseMembers(s.requests, s.control.owner, id);
    forall k | k in t.lockers ensures t.lockers[k] < |t.tokens| && Balanced(t, k) {
      assert Balanced(s, k);
      ReleaseKeepsWaiting(s.requests, s.control.owner, id, t.lockers[k]);
    }
    forall q | q in t.requests ensures Attached(t, q) && q.chan < |t.tokens| {
      assert q in s.requests && Attached(s, q);
    }
  }

  /** Token accounting is kept by every step of every caller, disciplined or not. */
  lemma StepAccounted(s: State, step: Step)
    requires Accounted(s) && Enabled(s, step)
    ensures Accounted(Apply(s, step))
  {
    match step
    case Register(owner, id) => RegisterAccounted(s, owner, id);
    case Grant(i) => GrantAccounted(s, i);
    case StartUnlock(owner, id) => ControlAccounted(s, Apply(s, step));
    case FinishUnlock => UnlockAccounted(s, s.control.owner, s.control.id);
    case StartSweep(owner) => ControlAccounted(s, Apply(s, step));
    case SweepNext => SweepAccounted(s);
    case FinishSweep => ControlAccounted(s, Apply(s, step));
  }

  lemma ControlAccounted(s: State, t: State)
    requires Accounted(s)
    requires t == s.(owners := t.owners, control := t.control)
    requires t.control.Unlocking? ==> t.control.id in t.lockers
    ensures Accounted(t)
  {
    forall id | id in t.lockers ensures t.lockers[id] < |t.tokens| && Balanced(t, id) {
      assert Balanced(s, id);
    }
    forall r | r in t.requests ensures Attached(t, r) && r.chan < |t.tokens| {
      assert Attached(s, r);
    }
  }

  /** Over every run, from the empty service, of callers of any kind. */
  lemma {:induction false} RunAccounted(s: State, steps: seq<Step>)
    requires Accounted(s) && IsRun(s, steps)
    ensures Accounted(After(s, steps))
    decreases |steps|
  {
    if steps != [] {
      StepAccounted(s, steps[0]);
      RunAccounted(Apply(s, steps[0]), steps[1..]);
    }
  }

  /** All waiters for one id share the channel of the id's current locker: none is stranded on a dropped one. */
  lemma WaitersShareChannel(steps: seq<Step>, i: nat, j: nat)
    requires IsRun(Init(), steps)
    requires i < |After(Init(), steps).requests| && j < |After(Init(), steps).requests|
    ensures var s := After(Init(), steps);
      var a, b := s.requests[i], s.requests[j];
      a.phase == Waiting && b.phase == Waiting && a.id == b.id ==>
        a.id in s.lockers && a.chan == b.chan == s.lockers[a.id]
  {
    RunAccounted(Init(), steps);
    var s := After(Init(), steps);
    assert Attached(s, s.requests[i]) && Attached(s, s.requests[j]);
  }

  /** A positive counter over an empty channel counts a waiter, and the waiter's send needs no mutex. */
  lemma CountedWaiter(s: State, id: string) returns (i: nat)
    requires Accounted(s) && id in s.lockers && !HasToken(s, id) && s.counters[id] > 0
    ensures CanGrant(s, i) && s.requests[i].id == id
  {
    assert Balanced(s, id);
    CountPositive(s.requests, WaitingOn(s.lockers[id]));
    var r :| r in s.requests && WaitingOn(s.lockers[id])(r);
    i :| 0 <= i < |s.requests| && s.requests[i] == r;
    assert Attached(s, r);
    assert r.id == id;
  }

  /** An `Unlock` blocked on an empty channel can go on exactly when the counter is positive: then, and only then,
      some request for the id is waiting, and its send needs no mutex. */
  lemma BlockedUnlockProceedsExactlyWhenCounted(steps: seq<Step>)
    requires IsRun(Init(), steps) && After(Init(), steps).control.Unlocking?
    ensures var s := After(Init(), steps);
      var id := s.control.id;
      && id in s.lockers && id in s.counters
      && (!HasToken(s, id) ==>
            (s.counters[id] > 0
             <==> exists i: nat :: i < |s.requests| && s.requests[i].id == id && Enabled(s, Grant(i))))
  {
    RunAccounted(Init(), steps);
    var s := After(Init(), steps);
    var id := s.control.id;
    assert Balanced(s, id);
    if !HasToken(s, id) {
      CountPositive(s.requests, WaitingOn(s.lockers[id]));
      if s.counters[id] > 0 {
        var i := CountedWaiter(s, id);
        assert Enabled(s, Grant(i));
      }
      forall i: nat | i < |s.requests| && s.requests[i].id == id && Enabled(s, Grant(i)) ensures s.counters[id] > 0 {
        assert Attached(s, s.requests[i]);
        assert WaitingOn(s.lockers[id])(s.requests[i]);
      }
    }
  }

  /** The call that holds the mutex has reached an id nobody waits for and nobody holds. */
  predicate Stuck(s: State) {
    || (s.control.Unlocking? && CounterOf(s, s.control.id) == 0)
    || (s.control.Sweeping? && s.control.next < |s.control.ids| && CounterOf(s, s.control.ids[s.control.next]) == 0)
  }

  lemma StuckStep(s: State, step: Step)
    requires Accounted(s) && Stuck(s) && Enabled(s, step)
    ensures step.Grant? && Apply(s, step).control == s.control && Apply(s, step).counters == s.counters
  {
    var id := if s.control.Unlocking? then s.control.id else s.control.ids[s.control.next];
    if id in s.lockers {
      assert Balanced(s, id);
    }
  }

  /** A stuck call waits for good, whatever the others do: the mutex stays taken, the only steps left are sends,
      and no token for the id ever arrives. */
  lemma {:induction false} StuckForGood(s: State, steps: seq<Step>)
    requires Accounted(s) && Stuck(s) && IsRun(s, steps)
    ensures var t := After(s, steps);
      && t.control == s.control && Stuck(t) && !Enabled(t, FinishUnlock) && !Enabled(t, SweepNext)
      && forall k :: 0 <= k < |steps| ==> steps[k].Grant?
    decreases |steps|
  {
    if steps == [] {
      if Enabled(s, FinishUnlock) {
        StuckStep(s, FinishUnlock);
      }
      if Enabled(s, SweepNext) {
        StuckStep(s, SweepNext);
      }
    } else {
      StuckStep(s, steps[0]);
      StepAccounted(s, steps[0]);
      StuckForGood(Apply(s, steps[0]), steps[1..]);
      assert forall k :: 0 < k < |steps| ==> steps[k] == steps[1..][k - 1];
    }
  }

  /** From every accounted state in which an `Unlock` is waiting for its token: some run completes it if and only if
      the counter is positive. */
  lemma UnlockReturnsExactlyWhenCounted(s: State)
    requires Accounted(s) && s.control.Unlocking?
    ensures (exists steps :: IsRun(s, steps) && After(s, steps).control.Free?) <==> s.counters[s.control.id] > 0
  {
    var id := s.control.id;
    assert Balanced(s, id);
    if s.counters[id] == 0 {
      forall steps | IsRun(s, steps) ensures !After(s, steps).control.Free? {
        StuckForGood(s, steps);
      }
    } else if HasToken(s, id) {
      FinishNow(s, []);
    } else {
      var i := CountedWaiter(s, id);
      assert [Grant(i)][1..] == [];
      FinishNow(s, [Grant(i)]);
    }
  }

  /** After at most one send the token can be received. */
  lemma FinishNow(s: State, sends: seq<Step>)
    requires s.control.Unlocking? && |sends| <= 1 && IsRun(s, sends) && Enabled(After(s, sends), FinishUnlock)
    requires sends != [] ==> sends[0].Grant?
    ensures IsRun(s, sends + [FinishUnlock]) && After(s, sends + [FinishUnlock]).control.Free?
  {
    var steps := sends + [FinishUnlock];
    assert [FinishUnlock][1..] == [];
    if sends == [] {
      assert steps == [FinishUnlock];
    } else {
      assert steps[1..] == [FinishUnlock] && sends[1..] == [];
    }
  }
}
