/** Draining of disciplined runs, what the counters count, and runs that break a rule. */
module LockDrain {
  import opened Requests
  import opened LockProtocol
  import opened LockExclusion

  // ---- The maps as a view of the live requests ----

  function Requesters(rs: seq<Request>, id: string): set<string> {
    set r | r in rs && r.id == id :: r.owner
  }

  lemma {:induction false} RequestersCounted(rs: seq<Request>, id: string)
    requires forall owner :: NoDup(Ids(rs, owner))
    ensures |Requesters(rs, id)| == Count(rs, LiveOn(id))
  {
    if rs != [] {
      var rest := rs[1..];
      forall owner ensures NoDup(Ids(rest, owner)) {
        assert NoDup(Ids(rs, owner));
        assert forall k :: 0 <= k < |Ids(rest, owner)| ==>
            Ids(rest, owner)[k] == Ids(rs, owner)[if rs[0].owner == owner then k + 1 else k];
      }
      RequestersCounted(rest, id);
      if rs[0].id == id {
        var owner := rs[0].owner;
        assert Requesters(rs, id) == Requesters(rest, id) + {owner};
        IdsMember(rest, owner, id);
        assert NoDup(Ids(rs, owner)) && Ids(rs, owner) == [id] + Ids(rest, owner);
        assert forall k :: 0 <= k < |Ids(rest, owner)| ==> Ids(rs, owner)[k + 1] == Ids(rest, owner)[k];
        assert Ids(rs, owner)[0] == id && id !in Ids(rest, owner);
      } else {
        assert Requesters(rs, id) == Requesters(rest, id);
      }
    }
  }

  /** Over disciplined runs the three maps are one relation seen three ways: a list per owner of its live ids in
      request order, a counter per id of the owners that list it, and a locker for every id that is listed. */
  lemma MapsRefineRequests(steps: seq<Step>)
    requires IsDisciplinedRun(Init(), steps)
    ensures IsRun(Init(), steps)
    ensures var s := After(Init(), steps); !s.control.Sweeping? ==>
      && (forall owner :: owner in s.owners <==> Ids(s.requests, owner) != [])
      && (forall owner :: owner in s.owners ==> s.owners[owner] == Ids(s.requests, owner) && NoDup(s.owners[owner]))
      && (forall id :: id in s.counters ==> s.counters[id] == |set o | o in s.owners && id in s.owners[o]|)
      && (forall o, id :: o in s.owners && id in s.owners[o] ==> id in s.lockers)
  {
    InitGood();
    RunGood(Init(), steps);
    var s := After(Init(), steps);
    if !s.control.Sweeping? {
      forall owner
        ensures owner in s.owners <==> Ids(s.requests, owner) != []
        ensures owner in s.owners ==> s.owners[owner] == Ids(s.requests, owner) && NoDup(s.owners[owner])
      {
        assert Listed(s, owner);
      }
      forall id | id in s.counters ensures s.counters[id] == |set o | o in s.owners && id in s.owners[o]| {
        CounterIsListing(s, id);
      }
      forall o, id | o in s.owners && id in s.owners[o] ensures id in s.lockers {
        assert Listed(s, o);
        IdsMember(s.requests, o, id);
      }
    }
  }

  lemma CounterIsListing(s: State, id: string)
    requires Good(s) && !s.control.Sweeping? && id in s.counters
    ensures s.counters[id] == |set o | o in s.owners && id in s.owners[o]|
  {
    assert Balanced(s, id);
    CountUnion(s.requests, WaitingOn(s.lockers[id]), HeldOn(id), LiveOn(id));
    forall owner ensures NoDup(Ids(s.requests, owner)) {
      assert Listed(s, owner);
    }
    RequestersCounted(s.requests, id);
    forall o ensures o in Requesters(s.requests, id) <==> o in s.owners && id in s.owners[o] {
      assert Listed(s, o);
      IdsMember(s.requests, o, id);
    }
    assert Requesters(s.requests, id) == set o | o in s.owners && id in s.owners[o];
  }

  // ---- Draining ----

  /** Every waiting request still has a grant and a release to go, every held one a release. */
  function Measure(s: State): nat {
    2 * Count(s.requests, AnyWaiting()) + Count(s.requests, AnyHeld())
  }

  predicate Works(step: Step) { step.Grant? || step.FinishUnlock? || step.SweepNext? }

  function Work(steps: seq<Step>): nat {
    if steps == [] then 0 else (if Works(steps[0]) then 1 else 0) + Work(steps[1..])
  }

  lemma ReleaseMeasure(s: State, owner: string, id: string)
    requires Accounted(s) && Exclusive(s) && id in s.lockers && Count(s.requests, HeldBy(owner, id)) > 0
    ensures Count(Release(s.requests, owner, id), AnyWaiting()) == Count(s.requests, AnyWaiting())
    ensures Count(Release(s.requests, owner, id), AnyHeld()) == Count(s.requests, AnyHeld()) - 1
  {
    var i := FindHolder(s, owner, id);
    CountSplit(s.requests, i, AnyWaiting());
    CountConcat(s.requests[..i], s.requests[i + 1..], AnyWaiting());
    CountSplit(s.requests, i, AnyHeld());
    CountConcat(s.requests[..i], s.requests[i + 1..], AnyHeld());
  }

  /** With no new request, each send and each release brings the measure down by exactly one. */
  lemma StepMeasure(s: State, step: Step)
    requires Good(s) && Enabled(s, step) && Disciplined(s, step) && !step.Register?
    ensures Measure(Apply(s, step)) == Measure(s) - if Works(step) then 1 else 0
  {
    match step
    case Grant(i) =>
      CountUpdate(s.requests, i, s.requests[i].(phase := Held), AnyWaiting());
      CountUpdate(s.requests, i, s.requests[i].(phase := Held), AnyHeld());
    case FinishUnlock => ReleaseMeasure(s, s.control.owner, s.control.id);
    case SweepNext =>
      SweepReady(s);
      ReleaseMeasure(s, s.control.owner, s.control.ids[s.control.next]);
    case _ =>
  }

  lemma {:induction false} RunMeasure(s: State, steps: seq<Step>)
    requires Good(s) && IsDisciplinedRun(s, steps) && forall k :: 0 <= k < |steps| ==> !steps[k].Register?
    ensures IsRun(s, steps) && Measure(After(s, steps)) == Measure(s) - Work(steps)
    decreases |steps|
  {
    if steps != [] {
      StepGood(s, steps[0]);
      StepMeasure(s, steps[0]);
      RunMeasure(Apply(s, steps[0]), steps[1..]);
    }
  }

  /** Nothing is live: no owner has a list, every channel is empty and every counter zero. */
  predicate Drained(s: State) {
    && s.control.Free? && s.requests == [] && s.owners == map[]
    && (forall id :: id in s.counters ==> s.counters[id] == 0)
    && (forall id :: id in s.lockers ==> !HasToken(s, id))
  }

  lemma EmptyIsDrained(s: State)
    requires Good(s) && s.control.Free? && s.requests == []
    ensures Drained(s)
  {
    forall owner ensures owner !in s.owners {
      assert Listed(s, owner);
    }
    forall id | id in s.counters ensures s.counters[id] == 0 && !HasToken(s, id) {
      assert Balanced(s, id);
    }
  }

  /** A disciplined state is never stuck: until it is drained some step other than a new request is enabled. */
  lemma NextStep(s: State) returns (step: Step)
    requires Good(s) && !Drained(s)
    ensures Enabled(s, step) && Disciplined(s, step) && !step.Register?
    ensures Works(step) || Rank(Apply(s, step)) < Rank(s)
  {
    if s.control.Unlocking? {
      UnlockOnlyHolder(s);
      if HasToken(s, s.control.id) {
        step := FinishUnlock;
      } else {
        var i: nat :| SendsFor(s, i, s.control.owner, s.control.id);
        step := Grant(i);
      }
    } else if s.control.Sweeping? {
      assert Listed(s, s.control.owner);
      if s.control.next < |s.control.ids| {
        SweepReady(s);
        if HasToken(s, s.control.ids[s.control.next]) {
          step := SweepNext;
        } else {
          var i: nat :| CanGrant(s, i);
          step := Grant(i);
        }
      } else {
        step := FinishSweep;
      }
    } else {
      step := NextFreeStep(s);
    }
  }

  /** With the mutex free, the first request's id is held, and its holder can unlock it, or the request can be
      granted. */
  lemma NextFreeStep(s: State) returns (step: Step)
    requires Good(s) && s.control.Free? && !Drained(s)
    ensures Enabled(s, step) && Disciplined(s, step)
    ensures step.Grant? || (step.StartUnlock? && step.id in s.lockers)
  {
    if s.requests == [] {
      EmptyIsDrained(s);
    }
    var r := s.requests[0];
    assert r in s.requests;
    CountPositive(s.requests, HeldOn(r.id));
    if exists q :: q in s.requests && q.phase == Held && q.id == r.id {
      var q :| q in s.requests && q.phase == Held && q.id == r.id;
      CountPositive(s.requests, HeldBy(q.owner, q.id));
      assert HeldBy(q.owner, q.id)(q);
      OnlyHolder(s, q.owner, q.id);
      assert Balanced(s, q.id);
      step := StartUnlock(q.owner, q.id);
    } else {
      assert Count(s.requests, HeldOn(r.id)) == 0;
      step := Grant(0);
    }
  }

  function Rank(s: State): nat {
    match s.control
    case Sweeping(_, _, _) => 2
    case Free => 1
    case Unlocking(_, _) => 0
  }

  /** From every disciplined state there is a disciplined run, without new requests, that drains it
      in exactly `Measure` sends and releases. */
  lemma {:induction false} Drain(s: State) returns (steps: seq<Step>)
    requires Good(s)
    ensures IsDisciplinedRun(s, steps) && (forall k :: 0 <= k < |steps| ==> !steps[k].Register?)
    ensures IsRun(s, steps) && Drained(After(s, steps)) && Work(steps) == Measure(s)
    ensures var t := After(s, steps);
      && t.control == Free && t.requests == [] && t.owners == map[]
      && (forall c :: 0 <= c < |t.tokens| && c in t.lockers.Values ==> t.tokens[c] == 0)
      && forall id :: id in t.counters ==> t.counters[id] == 0
    decreases Measure(s), Rank(s)
  {
    if Drained(s) {
      steps := [];
      assert Measure(s) == 0;
    } else {
      var step := NextStep(s);
      StepGood(s, step);
      StepMeasure(s, step);
      var rest := Drain(Apply(s, step));
      steps := [step] + rest;
      assert steps[1..] == rest;
    }
  }

  /** Counters stay positive as long as no owner is swept. */
  predicate NoIdle(s: State) {
    forall id :: id in s.counters ==> s.counters[id] > 0
  }

  lemma StepNoIdle(s: State, step: Step)
    requires Accounted(s) && NoIdle(s) && Enabled(s, step) && !step.SweepNext?
    ensures NoIdle(Apply(s, step))
  {
    if step.FinishUnlock? {
      assert s.counters[s.control.id] > 0;
    }
  }

  lemma {:induction false} RunNoIdle(s: State, steps: seq<Step>)
    requires Accounted(s) && NoIdle(s) && IsRun(s, steps)
    requires forall k :: 0 <= k < |steps| ==> !steps[k].SweepNext?
    ensures NoIdle(After(s, steps))
    decreases |steps|
  {
    if steps != [] {
      StepAccounted(s, steps[0]);
      StepNoIdle(s, steps[0]);
      RunNoIdle(Apply(s, steps[0]), steps[1..]);
    }
  }

  /** A drained run leaves no locker behind if every release went through `Unlock`. */
  lemma UnlocksLeaveNothing(steps: seq<Step>)
    requires IsDisciplinedRun(Init(), steps) && forall k :: 0 <= k < |steps| ==> !steps[k].SweepNext?
    ensures IsRun(Init(), steps)
    ensures var s := After(Init(), steps); Drained(s) ==> s.lockers == map[] && s.counters == map[]
  {
    InitGood();
    RunGood(Init(), steps);
    RunNoIdle(Init(), steps);
    var s := After(Init(), steps);
    if Drained(s) {
      assert forall id :: id !in s.counters;
      assert s.lockers.Keys == s.counters.Keys == {};
    }
  }

  // ---- Runs that break a rule ----

  /** Prepends two steps to a run. */
  lemma Extend2(s: State, a: Step, b: Step, rest: seq<Step>)
    requires Enabled(s, a) && Enabled(Apply(s, a), b) && IsRun(Apply(Apply(s, a), b), rest)
    ensures IsRun(s, [a, b] + rest) && After(s, [a, b] + rest) == After(Apply(Apply(s, a), b), rest)
  {
    var s1 := Apply(s, a);
    assert [a, b] + rest == [a] + ([b] + rest);
    Extend(s1, b, rest);
    Extend(s, a, [b] + rest);
  }

  /** The lock "x" held by "a", with "b" waiting behind it. */
  function Contended(): State {
    State(map["x" := 0], [1], map["a" := ["x"], "b" := ["x"]], map["x" := 2],
          [Request("a", "x", 0, Held), Request("b", "x", 0, Waiting)], Free)
  }

  /** The lock "x" held by "a" alone. */
  function Alone(): State {
    State(map["x" := 0], [1], map["a" := ["x"]], map["x" := 1], [Request("a", "x", 0, Held)], Free)
  }

  lemma ReachAlone()
    ensures Enabled(Init(), Register("a", "x")) && Enabled(Apply(Init(), Register("a", "x")), Grant(0))
    ensures Apply(Apply(Init(), Register("a", "x")), Grant(0)) == Alone()
  {
    var s := Apply(Init(), Register("a", "x"));
    var r := Request("a", "x", 0, Waiting);
    assert s.requests == [] + [r] == [r];
    assert s.tokens == [] + [0] == [0];
    assert s.owners["a"] == [] + ["x"] == ["x"];
    assert CanGrant(s, 0);
    var t := Apply(s, Grant(0));
    assert t.requests == [r.(phase := Held)] && t.tokens == [1];
    assert t.lockers == map["x" := 0] && t.counters == map["x" := 1] && t.owners == map["a" := ["x"]];
  }

  lemma ReachContended() returns (steps: seq<Step>)
    ensures IsDisciplinedRun(Init(), steps) && IsRun(Init(), steps) && After(Init(), steps) == Contended()
  {
    ReachAlone();
    var s1 := Apply(Init(), Register("a", "x"));
    var s2 := Apply(s1, Grant(0));
    assert Ids(s2.requests, "b") == [] && Ids([], "a") == [];
    var s3 := Apply(s2, Register("b", "x"));
    assert s3.requests == Contended().requests && s3.owners["b"] == ["x"];
    assert s3 == Contended();
    Extend(s2, Register("b", "x"), []);
    Extend2(Init(), Register("a", "x"), Grant(0), [Register("b", "x")]);
    steps := [Register("a", "x"), Grant(0)] + [Register("b", "x")];
    assert steps[1..] == [Grant(0), Register("b", "x")] && steps[1..][1..] == [Register("b", "x")];
    assert steps[1..][1..][1..] == [];
  }

  /** "b", which holds nothing, calls `Unlock`: the token of "a" is taken and "b" becomes a second holder. */
  lemma StrangerUnlockBreaksExclusion()
    ensures exists steps :: IsRun(Contended(), steps) && BothHold(After(Contended(), steps).requests, 0, 1)
  {
    var s := Contended();
    var s1 := Apply(s, StartUnlock("b", "x"));
    assert HasToken(s1, "x");
    var s2 := Apply(s1, FinishUnlock);
    ReleaseNothing(s.requests, "b", "x") by {
      CountPositive(s.requests, HeldBy("b", "x"));
    }
    assert s2.requests == s.requests && s2.tokens == [0];
    var s3 := Apply(s2, Grant(1));
    Extend(s2, Grant(1), []);
    Extend2(s, StartUnlock("b", "x"), FinishUnlock, [Grant(1)]);
    assert BothHold(s3.requests, 0, 1);
  }

  /** "b" disconnects while it waits: the sweep takes the token of "a", and "b" becomes a second holder. */
  lemma DisconnectWhileWaitingBreaksExclusion()
    ensures exists steps :: IsRun(Contended(), steps) && BothHold(After(Contended(), steps).requests, 0, 1)
  {
    var s := Contended();
    var s1 := Apply(s, StartSweep("b"));
    assert s1.control == Sweeping("b", ["x"], 0) && HasToken(s1, "x");
    var s2 := Apply(s1, SweepNext);
    ReleaseNothing(s.requests, "b", "x") by {
      CountPositive(s.requests, HeldBy("b", "x"));
    }
    assert s2.requests == s.requests && s2.tokens == [0];
    var s3 := Apply(s2, Grant(1));
    Extend(s2, Grant(1), []);
    Extend2(s, StartSweep("b"), SweepNext, [Grant(1)]);
    assert BothHold(s3.requests, 0, 1);
  }

  /** After a stranger's `Unlock` of a lock nobody waits for, a disconnect of the holder
      meets an id whose locker is gone. */
  lemma StrangerUnlockLeavesMissingLocker()
    ensures exists steps :: IsRun(Init(), steps) && var s := After(Init(), steps);
      s.control.Sweeping? && s.control.next < |s.control.ids| && s.control.ids[s.control.next] !in s.lockers
  {
    var s1 := Apply(Init(), Register("a", "x"));
    var s2 := Apply(s1, Grant(0));
    ReachAlone();
    var s3 := Apply(s2, StartUnlock("b", "x"));
    var s4 := Apply(s3, FinishUnlock);
    assert s4.owners == s2.owners && s4.lockers == map[];
    var s5 := Apply(s4, StartSweep("a"));
    Extend(s4, StartSweep("a"), []);
    Extend2(s2, StartUnlock("b", "x"), FinishUnlock, [StartSweep("a")]);
    Extend2(Init(), Register("a", "x"), Grant(0), [StartUnlock("b", "x"), FinishUnlock] + [StartSweep("a")]);
    assert s5.control.ids[0] !in s5.lockers;
  }

  /** The lock "x" asked for by "a" a second time, after "a" has unlocked it: nobody's list has it any more. */
  function Unlisted(): State {
    State(map["x" := 0], [0], map[], map["x" := 1], [Request("a", "x", 0, Waiting)], Free)
  }

  /** "a" holds the lock and waits for it. */
  function Twice(): State {
    State(map["x" := 0], [1], map["a" := ["x", "x"]], map["x" := 2],
          [Request("a", "x", 0, Held), Request("a", "x", 0, Waiting)], Free)
  }

  lemma AskAgain()
    ensures Apply(Alone(), Register("a", "x")) == Twice()
  {
    var s := Apply(Alone(), Register("a", "x"));
    assert s.requests == Twice().requests && s.owners["a"] == ["x"] + ["x"] == ["x", "x"];
    assert s.owners == Twice().owners && s.counters == Twice().counters && s.lockers == Twice().lockers;
  }

  lemma UnlistedSteps()
    ensures var s := Apply(Twice(), StartUnlock("a", "x"));
      Enabled(s, FinishUnlock) && Apply(s, FinishUnlock) == Unlisted()
  {
    var s := Twice().(control := Unlocking("a", "x"));
    assert Apply(Twice(), StartUnlock("a", "x")) == s;
    TwiceUnlocked(s);
  }

  lemma TwiceUnlocked(s: State)
    requires s == Twice().(control := Unlocking("a", "x"))
    ensures HasToken(s, "x") && Unlocked(s, "a", "x") == Unlisted()
  {
    OneRelease(s.requests[0], s.requests[1]);
    assert OwnerList(s, "a") == ["x", "x"] && CounterOf(s, "x") == 2;
    assert s.tokens[0 := 0] == [0];
    assert s.owners - {"a"} == map[];
  }

  lemma OneRelease(held: Request, waiting: Request)
    requires HeldBy("a", "x")(held) && waiting.phase == Waiting
    ensures Release([held, waiting], "a", "x") == [waiting] && Without(["x", "x"], "x") == []
  {
    assert [held, waiting][1..] == [waiting] && [waiting][1..] == [];
    assert Release([waiting], "a", "x") == [waiting] + Release([], "a", "x") == [waiting];
    assert Release([held, waiting], "a", "x") == [] + Release([waiting], "a", "x");
    assert ["x", "x"][1..] == ["x"] && ["x"][1..] == [];
    assert Without(["x"], "x") == [];
  }

  lemma ReachUnlisted()
    ensures IsRun(Alone(), [Register("a", "x"), StartUnlock("a", "x"), FinishUnlock])
    ensures After(Alone(), [Register("a", "x"), StartUnlock("a", "x"), FinishUnlock]) == Unlisted()
  {
    AskAgain();
    UnlistedSteps();
    var s2 := Apply(Apply(Alone(), Register("a", "x")), StartUnlock("a", "x"));
    Extend(s2, FinishUnlock, []);
    Extend2(Alone(), Register("a", "x"), StartUnlock("a", "x"), [FinishUnlock]);
    assert [Register("a", "x"), StartUnlock("a", "x")] + [FinishUnlock]
        == [Register("a", "x"), StartUnlock("a", "x"), FinishUnlock];
  }

  /** The lock "x" given up by a disconnect of "a": its locker stays, with a counter of zero. */
  function Idle(): State {
    State(map["x" := 0], [0], map[], map["x" := 0], [], Free)
  }

  lemma ReachIdle()
    ensures IsRun(Alone(), [StartSweep("a"), SweepNext, FinishSweep])
    ensures After(Alone(), [StartSweep("a"), SweepNext, FinishSweep]) == Idle()
  {
    var s := Alone();
    var s1 := Apply(s, StartSweep("a"));
    assert s1.control == Sweeping("a", ["x"], 0);
    var s2 := Apply(s1, SweepNext);
    assert s2.requests == [];
    assert Apply(s2, FinishSweep) == Idle();
    Extend(s2, FinishSweep, []);
    Extend2(s, StartSweep("a"), SweepNext, [FinishSweep]);
    assert [StartSweep("a"), SweepNext] + [FinishSweep] == [StartSweep("a"), SweepNext, FinishSweep];
  }

  /** After a disconnect of the only holder, an `Unlock` of the id by anybody takes the mutex and never gives it
      back. */
  lemma StrayUnlockBlocksForGood(owner: string, steps: seq<Step>)
    requires IsRun(Apply(Idle(), StartUnlock(owner, "x")), steps)
    ensures IsRun(Alone(), [StartSweep("a"), SweepNext, FinishSweep])
    ensures After(Alone(), [StartSweep("a"), SweepNext, FinishSweep]) == Idle()
    ensures After(Apply(Idle(), StartUnlock(owner, "x")), steps).control == Unlocking(owner, "x")
  {
    ReachIdle();
    assert Accounted(Idle());
    var s := Apply(Idle(), StartUnlock(owner, "x"));
    StepAccounted(Idle(), StartUnlock(owner, "x"));
    StuckForGood(s, steps);
  }

  /** "a" asks a second time for the lock it holds. Its `Unlock` takes both copies out of its list, so that the
      second request, once granted, is held for good: a disconnect of "a" passes it over. */
  lemma SecondRequestEscapesDisconnect()
    ensures exists steps :: IsRun(Alone(), steps) && After(Alone(), steps) == Unlisted()
    ensures IsRun(Unlisted(), [Grant(0), StartSweep("a")])
    ensures var s := After(Unlisted(), [Grant(0), StartSweep("a")]);
      s.control.Free? && s.requests == [Request("a", "x", 0, Held)] && s.owners == map[]
  {
    ReachUnlisted();
    var s := Apply(Unlisted(), Grant(0));
    assert s.requests == [Request("a", "x", 0, Held)];
    Extend2(Unlisted(), Grant(0), StartSweep("a"), []);
    assert [Grant(0), StartSweep("a")] + [] == [Grant(0), StartSweep("a")];
  }
}
