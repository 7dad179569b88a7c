/** The lock service's maps as they are updated in place, each method tied to the steps of LockProtocol. */
module LockService {
  import opened Requests
  import opened LockProtocol
  import opened LockExclusion
  import opened LockDisconnect

  /** How a call ends: it comes back, it waits for good with the mutex taken, or it meets an id whose locker is gone. */
  datatype Ending = Completed | Blocked | MissingLocker

  lemma {:induction false} RunThenStep(s: State, steps: seq<Step>, step: Step)
    requires IsRun(s, steps) && Enabled(After(s, steps), step)
    ensures IsRun(s, steps + [step])
    ensures After(s, steps + [step]) == Apply(After(s, steps), step)
    decreases |steps|
  {
    if steps == [] {
      assert [] + [step] == [step] && [step][1..] == [];
    } else {
      RunThenStep(Apply(s, steps[0]), steps[1..], step);
      assert (steps + [step])[1..] == steps[1..] + [step];
    }
  }

  /** The list when the backward scan has passed everything from place n on. */
  function Scanned(all: seq<string>, n: nat, id: string): seq<string>
    requires n <= |all|
    decreases |all| - n
  {
    if n == |all| then all
    else
      var list := Scanned(all, n + 1, id);
      if n < |list| && all[n] == id then list[..n] + list[n + 1..] else list
  }

  /** What is left to scan is untouched, and what has been passed has lost every copy of the id. */
  lemma {:induction false} ScannedIs(all: seq<string>, n: nat, id: string)
    requires n <= |all|
    ensures Scanned(all, n, id) == all[..n] + Without(all[n..], id)
    decreases |all| - n
  {
    if n < |all| {
      ScannedIs(all, n + 1, id);
      assert all[n..][1..] == all[n + 1..];
      assert all[..n + 1] == all[..n] + [all[n]];
    }
  }

  lemma ScanTurn(all: seq<string>, i: nat, id: string)
    requires i < |all|
    ensures var list := Scanned(all, i + 1, id);
      && i < |list| && list[i] == all[i]
      && Scanned(all, i, id) == if all[i] == id then list[..i] + list[i + 1..] else list
  {
    ScannedIs(all, i + 1, id);
  }

  lemma ScanEnds(all: seq<string>, id: string)
    ensures Scanned(all, |all|, id) == all && Scanned(all, 0, id) == Without(all, id)
  {
    ScannedIs(all, 0, id);
    assert all[0..] == all;
  }

  /** The owner map with one owner's list replaced, and the key gone when the list is empty. */
  function WithList(owners: map<string, seq<string>>, owner: string, list: seq<string>): map<string, seq<string>> {
    if list == [] then owners - {owner} else owners[owner := list]
  }

  /** The two maps agree on every owner but one. */
  ghost predicate SameElsewhere(before: map<string, seq<string>>, after: map<string, seq<string>>, owner: string) {
    forall o :: o != owner ==> (o in after <==> o in before) && (o in after ==> after[o] == before[o])
  }

  lemma RebuildMap(before: map<string, seq<string>>, after: map<string, seq<string>>, owner: string)
    requires SameElsewhere(before, after, owner)
    ensures after == if owner in after then before[owner := after[owner]] else before - {owner}
  {
  }

  lemma {:induction false} JoinRuns(s: State, a: seq<Step>, b: seq<Step>)
    requires IsRun(s, a) && IsRun(After(s, a), b)
    ensures IsRun(s, a + b) && After(s, a + b) == After(After(s, a), b)
    decreases |a|
  {
    if a == [] {
      assert a + b == b;
    } else {
      assert (a + b)[0] == a[0] && (a + b)[1..] == a[1..] + b;
      JoinRuns(Apply(s, a[0]), a[1..], b);
    }
  }

  predicate GrantsOnly(steps: seq<Step>) {
    forall k :: 0 <= k < |steps| ==> steps[k].Grant?
  }

  /** A whole `Unlock`, with the sends that come in between. */
  ghost predicate IsUnlockRun(steps: seq<Step>, owner: string, id: string) {
    exists sends :: GrantsOnly(sends) && steps == [StartUnlock(owner, id)] + sends + [FinishUnlock]
  }

  class Service {
    var lockers: map<string, nat>            // the channel of each id's locker
    var owners2Lockers: map<string, seq<string>>
    var lockersCounters: map<string, int>

    // Outside the maps: the number of tokens in every channel made so far, every `Lock` call not yet released,
    // and the call that holds `mutexLocker`.
    var channels: seq<nat>
    var requests: seq<Request>
    var control: Control

    ghost predicate Valid()
      reads this
    {
      forall owner :: owner in owners2Lockers ==> owners2Lockers[owner] != []
    }

    ghost function View(): State
      reads this
    {
      State(lockers, channels, owners2Lockers, lockersCounters, requests, control)
    }

    function ListOf(owner: string): seq<string>
      reads this
    {
      if owner in owners2Lockers then owners2Lockers[owner] else []
    }

    constructor ()
      ensures Valid() && View() == Init()
    {
      lockers := map[];
      owners2Lockers := map[];
      lockersCounters := map[];
      channels := [];
      requests := [];
      control := Free;
    }

    /** The part of `Lock` done under the mutex. The caller goes on to send on channel `m`. */
    method Lock(owner: string, id: string) returns (m: nat)
      requires Valid() && control.Free?
      modifies this
      ensures Valid() && View() == Registered(old(View()), owner, id)
      ensures id in lockers && m == lockers[id]
    {
      if id in lockers {
        m := lockers[id];
      } else {
        m := |channels|;
        channels := channels + [0];
        lockers := lockers[id := m];
      }
      AddToList(owner, id);
      lockersCounters := lockersCounters[id := (if id in lockersCounters then lockersCounters[id] else 0) + 1];
      requests := requests + [Request(owner, id, m, Waiting)];
    }

    method AddToList(owner: string, id: string)
      requires Valid()
      modifies this`owners2Lockers
      ensures Valid() && owners2Lockers == old(owners2Lockers)[owner := old(ListOf(owner)) + [id]]
    {
      if owner !in owners2Lockers {
        owners2Lockers := owners2Lockers[owner := []];
      }
      owners2Lockers := owners2Lockers[owner := owners2Lockers[owner] + [id]];
    }

    /** The send that ends `Lock`; it takes no mutex. */
    method Send(i: nat)
      requires CanGrant(View(), i)
      modifies this`requests, this`channels
      ensures View() == Granted(old(View()), i)
    {
      var r := requests[i];
      channels := channels[r.chan := 1];
      requests := requests[i := r.(phase := Held)];
    }

    /** Any number of waiting sends that go through, in any order, while another call holds the mutex. */
    method WaitersSend() returns (ghost steps: seq<Step>)
      requires Accounted(View())
      modifies this`requests, this`channels
      ensures Accounted(View())
      ensures IsRun(old(View()), steps) && After(old(View()), steps) == View() && GrantsOnly(steps)
    {
      steps := [];
      ghost var start := View();
      var n: nat := *;
      while n > 0
        invariant Accounted(View())
        invariant IsRun(start, steps) && After(start, steps) == View() && GrantsOnly(steps)
      {
        var i: int := *;
        if 0 <= i && CanGrant(State(lockers, channels, owners2Lockers, lockersCounters, requests, control), i) {
          RunThenStep(start, steps, Grant(i));
          GrantAccounted(View(), i);
          steps := steps + [Grant(i)];
          Send(i);
        }
        n := n - 1;
      }
    }

    /** Waits for a token of the id: with the channel still empty, the next send is a waiter's. When nobody is counted
        the wait has no end. */
    method AwaitToken(id: string) returns (ok: bool, ghost steps: seq<Step>)
      requires Accounted(View()) && id in lockers
      modifies this`requests, this`channels
      ensures Accounted(View())
      ensures IsRun(old(View()), steps) && After(old(View()), steps) == View() && GrantsOnly(steps)
      ensures (ok <==> CounterOf(View(), id) > 0) && (ok ==> HasToken(View(), id))
      ensures !ok ==> CounterOf(View(), id) == 0
    {
      ghost var start := View();
      ghost var sends := WaitersSend();
      ghost var last;
      ok, last := LastSend(id);
      JoinRuns(start, sends, last);
      steps := sends + last;
    }

    /** The end of the wait: the channel is full, or some waiter's send is next. */
    method LastSend(id: string) returns (ok: bool, ghost steps: seq<Step>)
      requires Accounted(View()) && id in lockers
      modifies this`requests, this`channels
      ensures Accounted(View())
      ensures IsRun(old(View()), steps) && After(old(View()), steps) == View() && GrantsOnly(steps)
      ensures (ok <==> CounterOf(View(), id) > 0) && (ok ==> HasToken(View(), id))
      ensures !ok ==> CounterOf(View(), id) == 0
    {
      steps := [];
      CounterMeans(View(), id);
      ok := lockersCounters[id] > 0;
      if ok && channels[lockers[id]] == 0 {
        ghost var i := WaiterSends(id);
        steps := [Grant(i)];
        assert [Grant(i)][1..] == [];
      }
    }

    /** The send of some waiter on the id's empty channel. */
    method WaiterSends(id: string) returns (i: nat)
      requires Accounted(View()) && id in lockers && !HasToken(View(), id) && lockersCounters[id] > 0
      modifies this`requests, this`channels
      ensures Accounted(View()) && HasToken(View(), id)
      ensures CanGrant(old(View()), i) && View() == Granted(old(View()), i)
    {
      ghost var waiter := CountedWaiter(View(), id);
      assert Attached(View(), requests[waiter]);
      i :| 0 <= i < |requests| && requests[i].phase == Waiting && requests[i].chan == lockers[id];
      GrantAccounted(View(), i);
      Send(i);
    }

    /** The whole `Unlock`, for callers of any kind, with waiters' sends let in while it waits for its token. It comes
        back unless the id has a locker with a counter of zero; for callers that keep the rules it always does. */
    method Unlock(owner: string, id: string) returns (ending: Ending, ghost steps: seq<Step>)
      requires Valid() && Accounted(View()) && control.Free?
      modifies this
      ensures Valid() && Accounted(View())
      ensures IsRun(old(View()), steps) && After(old(View()), steps) == View()
      ensures ending == if id in old(lockers) && old(CounterOf(View(), id)) == 0 then Blocked else Completed
      ensures ending.Completed? ==>
          control.Free? && if id in old(lockers) then IsUnlockRun(steps, owner, id) else View() == old(View())
      ensures ending.Blocked? ==> control == Unlocking(owner, id) && Stuck(View())
      ensures old(Good(View()) && Disciplined(View(), StartUnlock(owner, id))) ==> ending.Completed? && Good(View())
    {
      ghost var start := View();
      steps := [];
      if id !in lockers {
        return Completed, steps;
      }
      control := Unlocking(owner, id);
      StepAccounted(start, StartUnlock(owner, id));
      var ok;
      ghost var sends;
      ok, sends := AwaitToken(id);
      if !ok {
        steps := UnlockBlocks(start, owner, id, sends, View());
        return Blocked, steps;
      }
      steps := UnlockCompletes(start, owner, id, sends, View());
      Receive(owner, id);
      ending := Completed;
    }

    /** What `Unlock` does once it has a token to receive. */
    method Receive(owner: string, id: string)
      requires Valid() && HasToken(View(), id)
      modifies this
      ensures Valid() && View() == Unlocked(old(View()), owner, id)
    {
      var m := lockers[id];
      channels := channels[m := channels[m] - 1];
      lockersCounters := lockersCounters[id := (if id in lockersCounters then lockersCounters[id] else 0) - 1];
      if lockersCounters[id] == 0 {
        lockers := lockers - {id};
        lockersCounters := lockersCounters - {id};
      }
      ForgetInList(owner, id);
      requests := Release(requests, owner, id);
      control := Free;
      ghost var after := Unlocked(old(View()), owner, id);
      assert lockersCounters == after.counters;
    }

    /** The backward scan of `Unlock` that deletes from the list it scans. */
    method ForgetInList(owner: string, id: string)
      requires Valid()
      modifies this`owners2Lockers
      ensures Valid()
      ensures owners2Lockers == WithList(old(owners2Lockers), owner, Without(old(ListOf(owner)), id))
    {
      ghost var all := ListOf(owner);
      var i := |ListOf(owner)| - 1;
      ScanEnds(all, id);
      while i >= 0
        invariant -1 <= i < |all|
        invariant ListOf(owner) == Scanned(all, i + 1, id)
        invariant Valid() && SameElsewhere(old(owners2Lockers), owners2Lockers, owner)
      {
        ScanTurn(all, i, id);
        if id == owners2Lockers[owner][i] {
          DeleteAt(owner, i);
        }
        i := i - 1;
      }
      RebuildMap(old(owners2Lockers), owners2Lockers, owner);
    }

    /** Shortens a list by one entry, and deletes the key of one that becomes empty. */
    method DeleteAt(owner: string, i: nat)
      requires Valid() && i < |ListOf(owner)|
      modifies this`owners2Lockers
      ensures Valid() && ListOf(owner) == old(ListOf(owner))[..i] + old(ListOf(owner))[i + 1..]
      ensures SameElsewhere(old(owners2Lockers), owners2Lockers, owner)
    {
      owners2Lockers := owners2Lockers[owner := owners2Lockers[owner][..i] + owners2Lockers[owner][i + 1..]];
      if |owners2Lockers[owner]| == 0 {
        owners2Lockers := owners2Lockers - {owner};
      }
    }

    /** One iteration of the `UnlockForOwner` loop, for an id whose channel holds a token. */
    method SweepOne()
      requires Enabled(View(), SweepNext)
      modifies this`channels, this`lockersCounters, this`requests, this`control
      ensures View() == Swept(old(View()))
      ensures control == Sweeping(old(control).owner, old(control).ids, old(control).next + 1)
    {
      var id := control.ids[control.next];
      var m := lockers[id];
      channels := channels[m := channels[m] - 1];
      lockersCounters := lockersCounters[id := (if id in lockersCounters then lockersCounters[id] else 0) - 1];
      requests := Release(requests, control.owner, id);
      control := control.(next := control.next + 1);
    }

    /** One turn of the loop, with waiters' sends let in while it waits for its token. */
    method SweepTurn() returns (ending: Ending, ghost steps: seq<Step>)
      requires Accounted(View()) && control.Sweeping? && control.next < |control.ids|
      modifies this`channels, this`lockersCounters, this`requests, this`control
      ensures Accounted(View())
      ensures IsRun(old(View()), steps) && After(old(View()), steps) == View() && SweepsOnly(steps)
      ensures ending.Completed? ==> control == Sweeping(old(control).owner, old(control).ids, old(control).next + 1)
      ensures !ending.Completed? ==> control == old(control) && Stuck(View())
      ensures ending.MissingLocker? <==> old(control).ids[old(control).next] !in lockers
    {
      var id := control.ids[control.next];
      if id in lockers {
        var ok;
        ok, steps := TurnWithLocker(id);
        ending := if ok then Completed else Blocked;
      } else {
        ending, steps := MissingLocker, [];
      }
      assert !ending.Completed? ==> CounterOf(View(), id) == 0;
    }

    method TurnWithLocker(id: string) returns (ok: bool, ghost steps: seq<Step>)
      requires Accounted(View()) && control.Sweeping? && control.next < |control.ids|
      requires id == control.ids[control.next] && id in lockers
      modifies this`channels, this`lockersCounters, this`requests, this`control
      ensures Accounted(View())
      ensures IsRun(old(View()), steps) && After(old(View()), steps) == View() && SweepsOnly(steps)
      ensures ok ==> control == Sweeping(old(control).owner, old(control).ids, old(control).next + 1)
      ensures !ok ==> control == old(control) && CounterOf(View(), id) == 0
    {
      ghost var start := View();
      ok, steps := AwaitToken(id);
      if ok {
        steps := TakeTurn(start, steps);
      }
    }

    /** The turn itself, once its token is there. */
    method TakeTurn(ghost start: State, ghost sends: seq<Step>) returns (ghost steps: seq<Step>)
      requires Accounted(View()) && Enabled(View(), SweepNext)
      requires IsRun(start, sends) && After(start, sends) == View() && GrantsOnly(sends)
      modifies this`channels, this`lockersCounters, this`requests, this`control
      ensures Accounted(View()) && control == Sweeping(old(control).owner, old(control).ids, old(control).next + 1)
      ensures IsRun(start, steps) && After(start, steps) == View() && SweepsOnly(steps)
    {
      ghost var ready := View();
      SweepOne();
      steps := TurnTaken(start, sends, ready, View());
    }

    /** The whole disconnect, for callers of any kind, with waiters' sends let in between and during its iterations. It
        is a run of the protocol, and when it comes back nothing is listed for the owner. It comes back exactly when
        every id of the list is counted at least as often as it is listed; otherwise it ends at the first place that is
        short, where it waits for good or, if the id has no locker, meets none. By the rules it always comes back, with
        nothing left of the owner. */
    method UnlockForOwner(owner: string) returns (ending: Ending, ghost steps: seq<Step>)
      requires Valid() && Accounted(View()) && control.Free?
      modifies this
      ensures Valid() && Accounted(View())
      ensures IsRun(old(View()), steps) && After(old(View()), steps) == View()
      ensures steps != [] && steps[0] == StartSweep(owner) && SweepsOnly(steps[1..])
      ensures ending.Completed? ==> control.Free? && owner !in owners2Lockers
      ensures !ending.Completed? ==> control.Sweeping? && control.owner == owner && Stuck(View())
      ensures ending.Completed? <==> ListCounted(old(View()), old(ListOf(owner)))
      ensures !ending.Completed? ==>
          && FirstShort(old(View()), old(ListOf(owner)), control.next)
          && (ending.MissingLocker? <==> old(ListOf(owner))[control.next] !in old(lockers))
      ensures old(Good(View()) && Disciplined(View(), StartSweep(owner))) ==>
          ending.Completed? && Good(View()) && Ids(requests, owner) == []
    {
      ghost var start := View();
      ghost var sweeps := [];
      ending := Completed;
      if owner in owners2Lockers {
        var locks := owners2Lockers[owner];
        control := Sweeping(owner, locks, 0);
        ending, sweeps := SweepAll(owner, locks);
      }
      Extend(start, StartSweep(owner), sweeps);
      steps := [StartSweep(owner)] + sweeps;
      assert steps[1..] == sweeps;
      EndsByTheList(start, owner, sweeps);
      ByTheRules(start, owner, steps, View(), ending);
    }

    method SweepAll(owner: string, locks: seq<string>) returns (ending: Ending, ghost steps: seq<Step>)
      requires Valid() && Accounted(View()) && control == Sweeping(owner, locks, 0)
      modifies this
      ensures Valid() && Accounted(View())
      ensures IsRun(old(View()), steps) && After(old(View()), steps) == View() && SweepsOnly(steps)
      ensures ending.Completed? ==> control.Free? && owner !in owners2Lockers
      ensures !ending.Completed? ==> control.Sweeping? && control.owner == owner && Stuck(View())
      ensures !ending.Completed? ==> (ending.MissingLocker? <==> control.ids[control.next] !in lockers)
    {
      ghost var start := View();
      steps := [];
      while control.next < |locks|
        invariant Valid() && Accounted(View())
        invariant control.Sweeping? && control.owner == owner && control.ids == locks && control.next <= |locks|
        invariant IsRun(start, steps) && After(start, steps) == View() && SweepsOnly(steps)
        decreases |locks| - control.next
      {
        ghost var turn;
        ending, turn := SweepTurn();
        JoinRuns(start, steps, turn);
        steps := steps + turn;
        if !ending.Completed? {
          return;
        }
      }
      steps := EndSweep(start, steps);
      ending := Completed;
    }

    method EndSweep(ghost start: State, ghost done: seq<Step>) returns (ghost steps: seq<Step>)
      requires Valid() && Accounted(View()) && Enabled(View(), FinishSweep)
      requires IsRun(start, done) && After(start, done) == View() && SweepsOnly(done)
      modifies this`owners2Lockers, this`control
      ensures Valid() && Accounted(View()) && control.Free? && old(control).owner !in owners2Lockers
      ensures IsRun(start, steps) && After(start, steps) == View() && SweepsOnly(steps)
    {
      RunThenStep(start, done, FinishSweep);
      StepAccounted(View(), FinishSweep);
      steps := done + [FinishSweep];
      owners2Lockers := owners2Lockers - {control.owner};
      control := Free;
    }
  }

  lemma CounterMeans(s: State, id: string)
    requires Accounted(s) && id in s.lockers
    ensures id in s.counters && s.counters[id] >= 0 && s.lockers[id] < |s.tokens|
    ensures HasToken(s, id) ==> s.counters[id] > 0
  {
    assert Balanced(s, id);
  }

  lemma TurnTaken(start: State, sends: seq<Step>, s: State, t: State) returns (steps: seq<Step>)
    requires IsRun(start, sends) && After(start, sends) == s && GrantsOnly(sends)
    requires Accounted(s) && Enabled(s, SweepNext) && t == Swept(s)
    ensures IsRun(start, steps) && After(start, steps) == t && SweepsOnly(steps) && Accounted(t)
  {
    RunThenStep(start, sends, SweepNext);
    SweepAccounted(s);
    steps := sends + [SweepNext];
  }

  /** An `Unlock` that waits for good did not start by the rules. */
  lemma UnlockBlocks(start: State, owner: string, id: string, sends: seq<Step>, s: State) returns (steps: seq<Step>)
    requires start.control.Free? && id in start.lockers && IsRun(Apply(start, StartUnlock(owner, id)), sends)
    requires After(Apply(start, StartUnlock(owner, id)), sends) == s && GrantsOnly(sends) && Stuck(s)
    ensures IsRun(start, steps) && After(start, steps) == s
    ensures !(Good(start) && Disciplined(start, StartUnlock(owner, id)))
  {
    Extend(start, StartUnlock(owner, id), sends);
    steps := [StartUnlock(owner, id)] + sends;
    if Good(start) && Disciplined(start, StartUnlock(owner, id)) {
      CallGood(start, steps);
      GoodNotStuck(s);
    }
  }

  /** An `Unlock` that gets its token is a run of the protocol, and keeps the invariant if it started by the rules. */
  lemma UnlockCompletes(start: State, owner: string, id: string, sends: seq<Step>, s: State) returns (steps: seq<Step>)
    requires start.control.Free? && id in start.lockers && IsRun(Apply(start, StartUnlock(owner, id)), sends)
    requires After(Apply(start, StartUnlock(owner, id)), sends) == s && GrantsOnly(sends)
    requires Accounted(s) && s.control == Unlocking(owner, id) && HasToken(s, id)
    ensures IsRun(start, steps) && After(start, steps) == Unlocked(s, owner, id) && IsUnlockRun(steps, owner, id)
    ensures Accounted(Unlocked(s, owner, id))
    ensures Good(start) && Disciplined(start, StartUnlock(owner, id)) ==> Good(Unlocked(s, owner, id))
  {
    Extend(start, StartUnlock(owner, id), sends);
    RunThenStep(start, [StartUnlock(owner, id)] + sends, FinishUnlock);
    steps := [StartUnlock(owner, id)] + sends + [FinishUnlock];
    UnlockAccounted(s, owner, id);
    if Good(start) && Disciplined(start, StartUnlock(owner, id)) {
      UnlockAutomatic(steps, owner, id, sends);
      CallGood(start, steps);
    }
  }

  lemma UnlockAutomatic(steps: seq<Step>, owner: string, id: string, sends: seq<Step>)
    requires GrantsOnly(sends) && steps == [StartUnlock(owner, id)] + sends + [FinishUnlock]
    ensures steps[0] == StartUnlock(owner, id) && forall k :: 0 < k < |steps| ==> Automatic(steps[k])
  {
  }

  /** A disconnect that starts by the rules is not stuck, keeps the invariant, and leaves nothing of the owner. */
  lemma ByTheRules(start: State, owner: string, steps: seq<Step>, s: State, ending: Ending)
    requires IsRun(start, steps) && After(start, steps) == s
    requires steps != [] && steps[0] == StartSweep(owner) && SweepsOnly(steps[1..])
    requires ending.Completed? ==> s.control.Free? && owner !in s.owners
    requires !ending.Completed? ==> Stuck(s)
    ensures Good(start) && Disciplined(start, StartSweep(owner)) ==>
        ending.Completed? && Good(s) && Ids(s.requests, owner) == []
  {
    if Good(start) && Disciplined(start, StartSweep(owner)) {
      assert forall k :: 0 < k < |steps| ==> steps[k] == steps[1..][k - 1];
      CallGood(start, steps);
      GoodNotStuck(s);
      assert Listed(s, owner);
    }
  }
}
