/** The once-per-period gate as a timed state machine. */
module OnceGate {

  /** A pending `AfterFunc`: it runs at some moment not before `due`. */
  datatype Timer = Timer(id: string, due: nat)

  datatype Success = Success(id: string, at: nat)

  /** `log` records every call that was let through, oldest first. */
  datatype State = State(now: nat, oncers: set<string>, timers: seq<Timer>, log: seq<Success>)

  /** Time passes, a caller asks, or a timer whose time has come deletes its id. */
  datatype Step = Tick(ticks: nat) | Call(id: string) | Fire(timer: nat)

  function Init(now: nat): State { State(now, {}, [], []) }

  predicate Enabled(s: State, step: Step) {
    step.Fire? ==> step.timer < |s.timers| && s.timers[step.timer].due <= s.now
  }

  function Called(s: State, ttl: nat, id: string): State {
    if id in s.oncers then s
    else s.(oncers := s.oncers + {id},
            timers := s.timers + [Timer(id, s.now + ttl)],
            log := s.log + [Success(id, s.now)])
  }

  function Fired(s: State, k: nat): State
    requires k < |s.timers|
  {
    s.(oncers := s.oncers - {s.timers[k].id}, timers := s.timers[..k] + s.timers[k + 1..])
  }

  function Apply(s: State, ttl: nat, step: Step): State
    requires Enabled(s, step)
  {
    match step
    case Tick(d) => s.(now := s.now + d)
    case Call(id) => Called(s, ttl, id)
    case Fire(k) => Fired(s, k)
  }

  predicate IsRun(s: State, ttl: nat, steps: seq<Step>)
    decreases |steps|
  {
    steps == [] || (Enabled(s, steps[0]) && IsRun(Apply(s, ttl, steps[0]), ttl, steps[1..]))
  }

  function After(s: State, ttl: nat, steps: seq<Step>): State
    requires IsRun(s, ttl, steps)
    decreases |steps|
  {
    if steps == [] then s else After(Apply(s, ttl, steps[0]), ttl, steps[1..])
  }

  /** The timers outstanding for an id. */
  function Outstanding(timers: seq<Timer>, id: string): nat {
    if timers == [] then 0 else (if timers[0].id == id then 1 else 0) + Outstanding(timers[1..], id)
  }

  lemma {:induction false} OutstandingConcat(a: seq<Timer>, b: seq<Timer>, id: string)
    ensures Outstanding(a + b, id) == Outstanding(a, id) + Outstanding(b, id)
  {
    if a == [] {
      assert a + b == b;
    } else {
      assert (a + b)[1..] == a[1..] + b;
      OutstandingConcat(a[1..], b, id);
    }
  }

  lemma OutstandingSplit(ts: seq<Timer>, k: nat, id: string)
    requires k < |ts|
    ensures Outstanding(ts, id) == Outstanding(ts[..k] + ts[k + 1..], id) + if ts[k].id == id then 1 else 0
  {
    assert ts == ts[..k] + ([ts[k]] + ts[k + 1..]);
    OutstandingConcat(ts[..k], [ts[k]] + ts[k + 1..], id);
    OutstandingConcat(ts[..k], ts[k + 1..], id);
  }

  /** Successes for one id are at least a period apart. */
  predicate Spaced(log: seq<Success>, ttl: nat) {
    forall i, j :: 0 <= i < j < |log| && log[i].id == log[j].id ==> log[i].at + ttl <= log[j].at
  }

  /** An id is blocked at least until its latest success is a period old: its timer is due no earlier,
      and an id that is absent has no younger success. */
  predicate Blocked(s: State, ttl: nat, e: Success) {
    && (forall t :: t in s.timers && t.id == e.id ==> e.at + ttl <= t.due)
    && (e.id !in s.oncers ==> e.at + ttl <= s.now)
  }

  ghost predicate Good(s: State, ttl: nat) {
    && (forall id :: Outstanding(s.timers, id) == if id in s.oncers then 1 else 0)
    && (forall i :: 0 <= i < |s.log| ==> Blocked(s, ttl, s.log[i]))
    && Spaced(s.log, ttl)
  }

  lemma CallGood(s: State, ttl: nat, id: string)
    requires Good(s, ttl)
    ensures Good(Called(s, ttl, id), ttl)
  {
    if id !in s.oncers {
      var t := Called(s, ttl, id);
      forall other ensures Outstanding(t.timers, other) == if other in t.oncers then 1 else 0 {
        OutstandingConcat(s.timers, [Timer(id, s.now + ttl)], other);
        assert Outstanding([Timer(id, s.now + ttl)], other) == if id == other then 1 else 0;
      }
      forall i | 0 <= i < |t.log| ensures Blocked(t, ttl, t.log[i]) {
        if i < |s.log| {
          assert Blocked(s, ttl, s.log[i]);
        } else {
          NoTimer(s.timers, id);
        }
      }
    }
  }

  lemma {:induction false} NoTimer(ts: seq<Timer>, id: string)
    ensures Outstanding(ts, id) == 0 <==> forall t :: t in ts ==> t.id != id
  {
    if ts != [] {
      NoTimer(ts[1..], id);
      assert forall t :: t in ts <==> t == ts[0] || t in ts[1..];
    }
  }

  lemma FireGood(s: State, ttl: nat, k: nat)
    requires Good(s, ttl) && Enabled(s, Fire(k))
    ensures Good(Fired(s, k), ttl)
  {
    var t := Fired(s, k);
    forall id ensures Outstanding(t.timers, id) == if id in t.oncers then 1 else 0 {
      OutstandingSplit(s.timers, k, id);
    }
    forall i | 0 <= i < |t.log| ensures Blocked(t, ttl, t.log[i]) {
      assert Blocked(s, ttl, s.log[i]);
      assert s.timers[k] in s.timers;
    }
  }

  lemma StepGood(s: State, ttl: nat, step: Step)
    requires Good(s, ttl) && Enabled(s, step)
    ensures Good(Apply(s, ttl, step), ttl)
  {
    match step
    case Tick(d) =>
      forall i | 0 <= i < |s.log| ensures Blocked(Apply(s, ttl, step), ttl, s.log[i]) {
        assert Blocked(s, ttl, s.log[i]);
      }
    case Call(id) => CallGood(s, ttl, id);
    case Fire(k) => FireGood(s, ttl, k);
  }

  lemma {:induction false} RunGood(s: State, ttl: nat, steps: seq<Step>)
    requires Good(s, ttl) && IsRun(s, ttl, steps)
    ensures Good(After(s, ttl, steps), ttl)
    decreases |steps|
  {
    if steps != [] {
      StepGood(s, ttl, steps[0]);
      RunGood(Apply(s, ttl, steps[0]), ttl, steps[1..]);
    }
  }

  /** Over every timed run an id is present exactly when one timer for it is outstanding (and never more),
      and two successes for it are at least a period apart. */
  lemma GateSafety(now: nat, ttl: nat, steps: seq<Step>, id: string, i: nat, j: nat)
    requires IsRun(Init(now), ttl, steps)
    ensures var s := After(Init(now), ttl, steps);
      && Outstanding(s.timers, id) == (if id in s.oncers then 1 else 0)
      && (i < j < |s.log| && s.log[i].id == s.log[j].id ==> s.log[i].at + ttl <= s.log[j].at)
  {
    RunGood(Init(now), ttl, steps);
  }

  // ---- Windows ----

  /** The moments at which an id was let through. */
  function Times(log: seq<Success>, id: string): seq<nat> {
    if log == [] then []
    else (if log[0].id == id then [log[0].at] else []) + Times(log[1..], id)
  }

  function CountIn(times: seq<nat>, lo: nat, hi: nat): nat {
    if times == [] then 0 else (if lo <= times[0] <= hi then 1 else 0) + CountIn(times[1..], lo, hi)
  }

  predicate Apart(times: seq<nat>, ttl: nat) {
    forall i, j :: 0 <= i < j < |times| ==> times[i] + ttl <= times[j]
  }

  lemma {:induction false} TimesFrom(log: seq<Success>, id: string)
    ensures forall t :: t in Times(log, id) ==> Success(id, t) in log
  {
    if log != [] {
      TimesFrom(log[1..], id);
      assert forall e :: e in log <==> e == log[0] || e in log[1..];
    }
  }

  lemma {:induction false} SpacedTimes(log: seq<Success>, ttl: nat, id: string)
    requires Spaced(log, ttl)
    ensures Apart(Times(log, id), ttl)
  {
    if log != [] {
      SpacedTimes(log[1..], ttl, id);
      TimesFrom(log[1..], id);
      var rest := Times(log[1..], id);
      if log[0].id == id {
        forall k | 0 <= k < |rest| ensures log[0].at + ttl <= rest[k] {
          var i :| 0 <= i < |log[1..]| && log[1..][i] == Success(id, rest[k]);
          assert log[i + 1] == Success(id, rest[k]);
        }
        assert Times(log, id) == [log[0].at] + rest;
      } else {
        assert Times(log, id) == rest;
      }
    }
  }

  lemma {:induction false} CountFrom(times: seq<nat>, lo: nat, later: nat, hi: nat)
    requires lo <= later && forall k :: 0 <= k < |times| ==> later <= times[k]
    ensures CountIn(times, lo, hi) == CountIn(times, later, hi)
  {
    if times != [] {
      CountFrom(times[1..], lo, later, hi);
    }
  }

  lemma {:induction false} NoneIn(times: seq<nat>, lo: nat, hi: nat)
    requires hi < lo
    ensures CountIn(times, lo, hi) == 0
  {
    if times != [] {
      NoneIn(times[1..], lo, hi);
    }
  }

  lemma OnePeriodMore(n: nat, ttl: nat, length: nat)
    requires n == 0 || (n - 1) * ttl + ttl <= length
    ensures n * ttl <= length
  {
    assert n > 0 ==> n * ttl == (n - 1) * ttl + ttl;
  }

  /** Between n moments that lie apart there are n - 1 whole periods. */
  lemma {:induction false} WindowBound(times: seq<nat>, ttl: nat, lo: nat, hi: nat)
    requires Apart(times, ttl) && lo <= hi
    ensures CountIn(times, lo, hi) == 0 || (CountIn(times, lo, hi) - 1) * ttl <= hi - lo
    decreases |times|
  {
    if times != [] {
      var t, rest := times[0], times[1..];
      assert forall k :: 0 <= k < |rest| ==> rest[k] == times[k + 1];
      if lo <= t <= hi {
        CountFrom(rest, lo, t + ttl, hi);
        if t + ttl <= hi {
          WindowBound(rest, ttl, t + ttl, hi);
          OnePeriodMore(CountIn(rest, t + ttl, hi), ttl, hi - t);
        } else {
          NoneIn(rest, t + ttl, hi);
        }
      } else {
        WindowBound(rest, ttl, lo, hi);
      }
    }
  }

  lemma WholePeriods(n: nat, d: nat, length: nat)
    requires d > 0 && n * d <= length
    ensures n <= length / d
  {
    var q := length / d;
    assert length < q * d + d;
    assert (q + 1 - n) * d == q * d + d - n * d > 0;
  }

  /** Over every timed run, any closed window of length L sees at most L / ttl + 1 successes for an id. */
  lemma WindowedSuccesses(now: nat, ttl: nat, steps: seq<Step>, id: string, from: nat, length: nat)
    requires ttl > 0 && IsRun(Init(now), ttl, steps)
    ensures CountIn(Times(After(Init(now), ttl, steps).log, id), from, from + length) <= length / ttl + 1
  {
    RunGood(Init(now), ttl, steps);
    SpacedTimes(After(Init(now), ttl, steps).log, ttl, id);
    WindowBound(Times(After(Init(now), ttl, steps).log, id), ttl, from, from + length);
    var n := CountIn(Times(After(Init(now), ttl, steps).log, id), from, from + length);
    if n > 0 {
      WholePeriods(n - 1, ttl, length);
    }
  }

  /** One id, asked again just as each timer fires. */
  function Busy(ttl: nat, id: string, n: nat): seq<Step> {
    if n == 0 then [Call(id)] else [Call(id), Tick(ttl), Fire(0)] + Busy(ttl, id, n - 1)
  }

  /** Where the busy caller succeeds: now, and after each of n periods. */
  function BusyTimes(now: nat, ttl: nat, n: nat): seq<nat>
    decreases n
  {
    if n == 0 then [now] else [now] + BusyTimes(now + ttl, ttl, n - 1)
  }

  lemma {:induction false} BusySucceeds(s: State, ttl: nat, id: string, n: nat)
    requires s.timers == [] && id !in s.oncers
    ensures IsRun(s, ttl, Busy(ttl, id, n))
    ensures Times(After(s, ttl, Busy(ttl, id, n)).log, id) == Times(s.log, id) + BusyTimes(s.now, ttl, n)
    decreases n
  {
    var steps := Busy(ttl, id, n);
    var s1 := Called(s, ttl, id);
    assert s1.timers == [Timer(id, s.now + ttl)];
    TimesAppend(s.log, Success(id, s.now), id);
    if n == 0 {
      assert steps[1..] == [];
    } else {
      var s2 := Apply(s1, ttl, Tick(ttl));
      var s3 := Apply(s2, ttl, Fire(0));
      var rest := Busy(ttl, id, n - 1);
      BusySucceeds(s3, ttl, id, n - 1);
      assert steps[1..] == [Tick(ttl), Fire(0)] + rest && steps[1..][1..] == [Fire(0)] + rest;
      assert steps[1..][1..][1..] == rest;
      assert IsRun(s2, ttl, [Fire(0)] + rest) && After(s2, ttl, [Fire(0)] + rest) == After(s3, ttl, rest);
      assert IsRun(s1, ttl, steps[1..]) && After(s1, ttl, steps[1..]) == After(s3, ttl, rest);
      assert Times(s.log, id) + [s.now] + BusyTimes(s.now + ttl, ttl, n - 1)
          == Times(s.log, id) + ([s.now] + BusyTimes(s.now + ttl, ttl, n - 1));
    }
  }

  lemma {:induction false} TimesAppend(log: seq<Success>, e: Success, id: string)
    ensures Times(log + [e], id) == Times(log, id) + if e.id == id then [e.at] else []
  {
    if log == [] {
      assert log + [e] == [e] && [e][1..] == [];
    } else {
      assert (log + [e])[1..] == log[1..] + [e] && (log + [e])[0] == log[0];
      TimesAppend(log[1..], e, id);
      var first := if log[0].id == id then [log[0].at] else [];
      assert Times(log + [e], id) == first + (Times(log[1..], id) + if e.id == id then [e.at] else []);
      assert Times(log, id) == first + Times(log[1..], id);
    }
  }

  lemma {:induction false} BusyCount(now: nat, ttl: nat, n: nat, lo: nat, hi: nat)
    requires lo <= now && now + n * ttl <= hi
    ensures CountIn(BusyTimes(now, ttl, n), lo, hi) == n + 1
    decreases n
  {
    if n == 0 {
      assert [now][1..] == [];
    } else {
      assert now + ttl + (n - 1) * ttl == now + n * ttl;
      BusyCount(now + ttl, ttl, n - 1, lo, hi);
      assert BusyTimes(now, ttl, n)[1..] == BusyTimes(now + ttl, ttl, n - 1);
    }
  }

  lemma WholeDivision(n: nat, d: nat)
    requires d > 0
    ensures n * d / d == n
  {
    var q := n * d / d;
    WholePeriods(n, d, n * d);
    assert q * d <= n * d;
    assert (n + 1 - q) * d == n * d + d - q * d > 0;
  }

  /** The bound on windows is reached, for every period and every window that is a number of whole periods long. */
  lemma WindowBoundReached(now: nat, ttl: nat, id: string, n: nat)
    ensures IsRun(Init(now), ttl, Busy(ttl, id, n))
    ensures CountIn(Times(After(Init(now), ttl, Busy(ttl, id, n)).log, id), now, now + n * ttl) == n + 1
    ensures ttl > 0 ==> n * ttl / ttl + 1 == n + 1
  {
    BusySucceeds(Init(now), ttl, id, n);
    BusyCount(now, ttl, n, now, now + n * ttl);
    assert [] + BusyTimes(now, ttl, n) == BusyTimes(now, ttl, n);
    if ttl > 0 {
      WholeDivision(n, ttl);
    }
  }

  // ---- The gate's map as it is updated ----

  class Gate {
    const ttl: nat
    var oncers: set<string>
    var timers: seq<Timer>
    var now: nat
    ghost var log: seq<Success>

    ghost function View(): State
      reads this
    {
      State(now, oncers, timers, log)
    }

    constructor (ttl: nat, now: nat)
      ensures this.ttl == ttl && View() == Init(now) && Good(View(), ttl)
    {
      this.ttl, this.now := ttl, now;
      oncers, timers, log := {}, [], [];
    }

    /** nil for the first caller, the error for every other until the timer has fired. */
    method Once(id: string) returns (ok: bool)
      requires Good(View(), ttl)
      modifies this
      ensures View() == Called(old(View()), ttl, id) && Good(View(), ttl)
      ensures ok <==> id !in old(oncers)
      ensures ok ==> forall i :: 0 <= i < |old(log)| && old(log)[i].id == id ==> old(log)[i].at + ttl <= now
    {
      CallGood(View(), ttl, id);
      if id in oncers {
        return false;
      }
      assert forall i :: 0 <= i < |log| ==> Blocked(View(), ttl, log[i]);
      MakeOncer(id);
      oncers := oncers + {id};
      log := log + [Success(id, now)];
      return true;
    }

    method MakeOncer(id: string)
      modifies this`timers
      ensures timers == old(timers) + [Timer(id, now + ttl)]
    {
      timers := timers + [Timer(id, now + ttl)];
    }

    /** The timer's callback. */
    method Expire(k: nat)
      requires Good(View(), ttl) && Enabled(View(), Fire(k))
      modifies this
      ensures View() == Fired(old(View()), k) && Good(View(), ttl)
      ensures old(timers)[k].id !in oncers
    {
      FireGood(View(), ttl, k);
      oncers := oncers - {timers[k].id};
      timers := timers[..k] + timers[k + 1..];
    }
  }
}
