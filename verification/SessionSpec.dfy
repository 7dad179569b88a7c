/** The session store on values: sessions in memory, their records in the database, and deletions still to come. */
module SessionSpec {

  /** Keys, tokens, connection ids and addresses: the store only compares and carries them. */
  type Text(==, !new)

  /** A JSON value the store only carries: user ids, subscription settings. */
  type Json(==, !new)

  type Subscriptions = map<Text, Json>

  datatype Conn = Conn(connId: Text, subs: Subscriptions)

  datatype Session = Session(
    apiKey: Text,
    accessToken: Text,
    userId: Json,
    connections: seq<Conn>,
    createdAt: int,
    lastRequest: int,
    ttl: int,
    v: int)

  const ZERO_TIME := 0

  /** What a copy carries: everything but the time of creation. */
  function Copied(s: Session): Session { s.(createdAt := ZERO_TIME) }

  /** `db` holds the record of each key. `pending` counts, per key, the background deletions that have not run. */
  datatype State = State(mem: map<Text, Session>, db: map<Text, Session>, pending: multiset<Text>)

  function Init(): State { State(map[], map[], multiset{}) }

  // ---- A session's connections ----

  /** The first connection with the id, or the number of connections. */
  function Find(conns: seq<Conn>, connId: Text): (i: nat)
    ensures i <= |conns|
    ensures i < |conns| ==> conns[i].connId == connId
    ensures forall k :: 0 <= k < i ==> conns[k].connId != connId
  {
    if conns == [] || conns[0].connId == connId then 0 else 1 + Find(conns[1..], connId)
  }

  function Subscribed(conns: seq<Conn>, connId: Text, uri: Text, extra: Json): seq<Conn> {
    var i := Find(conns, connId);
    if i < |conns| then conns[i := Conn(connId, conns[i].subs[uri := extra])]
    else conns + [Conn(connId, map[uri := extra])]
  }

  function Unsubscribed(conns: seq<Conn>, connId: Text, uri: Text): seq<Conn> {
    var i := Find(conns, connId);
    if i < |conns| then conns[i := Conn(connId, conns[i].subs - {uri})] else conns
  }

  function Disconnected(conns: seq<Conn>, connId: Text): seq<Conn> {
    var i := Find(conns, connId);
    if i < |conns| then conns[..i] + conns[i + 1..] else conns
  }

  predicate Unique(conns: seq<Conn>) {
    forall i, j :: 0 <= i < j < |conns| ==> conns[i].connId != conns[j].connId
  }

  /** The map the list stands for: the first connection with an id counts. */
  function AsMap(conns: seq<Conn>): map<Text, Subscriptions> {
    if conns == [] then map[] else AsMap(conns[1..])[conns[0].connId := conns[0].subs]
  }

  lemma FindIs(conns: seq<Conn>, i: nat)
    requires Unique(conns) && i < |conns|
    ensures Find(conns, conns[i].connId) == i
  {
  }

  lemma {:induction false} AsMapAt(conns: seq<Conn>, connId: Text)
    ensures var i := Find(conns, connId);
      (connId in AsMap(conns) <==> i < |conns|) && (i < |conns| ==> AsMap(conns)[connId] == conns[i].subs)
  {
    if conns != [] {
      AsMapAt(conns[1..], connId);
    }
  }

  lemma FindUpdated(conns: seq<Conn>, at: nat, subs: Subscriptions, connId: Text)
    requires at < |conns|
    ensures var after := conns[at := Conn(conns[at].connId, subs)];
      Find(after, connId) == Find(conns, connId) && (Unique(conns) ==> Unique(after))
  {
    var after := conns[at := Conn(conns[at].connId, subs)];
    var i, j := Find(conns, connId), Find(after, connId);
    assert forall k :: 0 <= k < |conns| ==> after[k].connId == conns[k].connId;
    assert i < |conns| ==> after[i].connId == connId;
    assert j < |conns| ==> conns[j].connId == connId;
  }

  /** A list of connections with distinct ids is a map from ids to subscriptions, and the three operations are the
      map's: insert into the connection's subscriptions (making the connection if need be), remove one, forget one. */
  lemma SubscribedIsInsert(conns: seq<Conn>, connId: Text, uri: Text, extra: Json)
    requires Unique(conns)
    ensures var after := Subscribed(conns, connId, uri, extra);
      var m := AsMap(conns);
      Unique(after) && AsMap(after) == m[connId := (if connId in m then m[connId] else map[])[uri := extra]]
  {
    var after := Subscribed(conns, connId, uri, extra);
    var i := Find(conns, connId);
    AsMapAt(conns, connId);
    if i < |conns| {
      UpdatedMap(conns, i, conns[i].subs[uri := extra]);
    } else {
      AppendedMap(conns, Conn(connId, map[uri := extra]));
      assert map[][uri := extra] == map[uri := extra];
    }
  }

  lemma UnsubscribedIsRemove(conns: seq<Conn>, connId: Text, uri: Text)
    requires Unique(conns)
    ensures var after := Unsubscribed(conns, connId, uri);
      var m := AsMap(conns);
      Unique(after) && AsMap(after) == if connId in m then m[connId := m[connId] - {uri}] else m
  {
    var i := Find(conns, connId);
    AsMapAt(conns, connId);
    if i < |conns| {
      UpdatedMap(conns, i, conns[i].subs - {uri});
    }
  }

  lemma UpdatedMap(conns: seq<Conn>, at: nat, subs: Subscriptions)
    requires Unique(conns) && at < |conns|
    ensures var after := conns[at := Conn(conns[at].connId, subs)];
      Unique(after) && AsMap(after) == AsMap(conns)[conns[at].connId := subs]
  {
    var after := conns[at := Conn(conns[at].connId, subs)];
    forall id ensures (id in AsMap(after) <==> id in AsMap(conns) || id == conns[at].connId)
      && (id in AsMap(after) ==> AsMap(after)[id] == if id == conns[at].connId then subs else AsMap(conns)[id])
    {
      FindUpdated(conns, at, subs, id);
      FindIs(conns, at);
      AsMapAt(conns, id);
      AsMapAt(after, id);
    }
  }

  lemma AppendedMap(conns: seq<Conn>, c: Conn)
    requires Unique(conns) && Find(conns, c.connId) == |conns|
    ensures Unique(conns + [c]) && AsMap(conns + [c]) == AsMap(conns)[c.connId := c.subs]
  {
    forall id {
      AppendedAt(conns, c, id);
    }
  }

  lemma AppendedAt(conns: seq<Conn>, c: Conn, id: Text)
    ensures var m := AsMap(conns + [c]);
      Find(conns, c.connId) == |conns| ==>
        (id in m <==> id in AsMap(conns) || id == c.connId)
        && (id in m ==> m[id] == if id == c.connId then c.subs else AsMap(conns)[id])
  {
    AsMapAt(conns, id);
    AsMapAt(conns + [c], id);
    FindAppended(conns, c, id);
  }

  lemma FindAppended(conns: seq<Conn>, c: Conn, id: Text)
    ensures Find(conns + [c], id)
         == if Find(conns, id) < |conns| then Find(conns, id) else if c.connId == id then |conns| else |conns| + 1
  {
    var i, j := Find(conns, id), Find(conns + [c], id);
    assert forall k :: 0 <= k < |conns| ==> (conns + [c])[k] == conns[k];
    assert (conns + [c])[|conns|] == c;
    assert j < |conns| ==> conns[j].connId == id;
    assert i < |conns| ==> (conns + [c])[i].connId == id;
  }

  lemma DisconnectedIsForget(conns: seq<Conn>, connId: Text)
    requires Unique(conns)
    ensures var after := Disconnected(conns, connId);
      Unique(after) && AsMap(after) == AsMap(conns) - {connId}
  {
    var at := Find(conns, connId);
    AsMapAt(conns, connId);
    if at < |conns| {
      RemovedUnique(conns, at);
      forall id {
        RemovedAt(conns, at, id);
      }
    }
  }

  lemma DisconnectedGone(conns: seq<Conn>, connId: Text)
    requires Unique(conns)
    ensures forall k :: 0 <= k < |Disconnected(conns, connId)| ==> Disconnected(conns, connId)[k].connId != connId
  {
    var at := Find(conns, connId);
    if at < |conns| {
      var after := Disconnected(conns, connId);
      assert forall k :: 0 <= k < |after| ==> after[k] == conns[if k < at then k else k + 1];
    }
  }

  lemma RemovedAt(conns: seq<Conn>, at: nat, id: Text)
    requires Unique(conns) && at < |conns| && Unique(conns[..at] + conns[at + 1..])
    ensures var m := AsMap(conns[..at] + conns[at + 1..]);
      (id in m <==> id in AsMap(conns) && id != conns[at].connId) && (id in m ==> m[id] == AsMap(conns)[id])
  {
    AsMapAt(conns, id);
    AsMapAt(conns[..at] + conns[at + 1..], id);
    RemovedFind(conns, at, id);
  }

  lemma RemovedUnique(conns: seq<Conn>, at: nat)
    requires Unique(conns) && at < |conns|
    ensures Unique(conns[..at] + conns[at + 1..])
  {
    var after := conns[..at] + conns[at + 1..];
    assert forall k :: 0 <= k < |after| ==> after[k] == conns[if k < at then k else k + 1];
  }

  lemma RemovedFind(conns: seq<Conn>, at: nat, id: Text)
    requires Unique(conns) && at < |conns|
    ensures var after := conns[..at] + conns[at + 1..];
      var i, j := Find(conns, id), Find(after, id);
      (j < |after| <==> i < |conns| && id != conns[at].connId) && (j < |after| ==> after[j] == conns[i])
  {
    var after := conns[..at] + conns[at + 1..];
    var i, j := Find(conns, id), Find(after, id);
    assert forall k :: 0 <= k < |after| ==> after[k] == conns[if k < at then k else k + 1];
    if j < |after| {
      FindIs(conns, if j < at then j else j + 1);
    }
    if i < |conns| && i != at {
      assert after[if i < at then i else i - 1] == conns[i];
    }
  }

  // ---- Operations ----

  /** Every call of the store at the grain at which it is atomic. Finding the session and operating on it is one step;
      a background deletion is a later step of its own. */
  datatype Step =
    | Create(id: Text, token: Text, user: Json, at: int, expires: int)
    | Subscribe(key: Text, connId: Text, uri: Text, extra: Json)
    | Unsubscribe(key: Text, connId: Text, uri: Text)
    | Disconnect(key: Text, connId: Text)
    | DeleteKey(key: Text)
    | DeleteForUser(user: Json)
    | RunPending(key: Text)
    | DropConnections
    | Sweep(at: int)
    | Restart(at: int)

  /** Saving writes a copy; the session's own version goes up afterwards. */
  function Updated(st: State, s: Session): State {
    st.(mem := st.mem[s.apiKey := s.(v := s.v + 1)], db := st.db[s.apiKey := Copied(s)])
  }

  /** The same by a handler that found `s` earlier: when `s` is no longer the session stored under its key, only the
      record is written. */
  function Operated(st: State, s: Session, stored: bool): State {
    if stored then Updated(st, s) else UpdatedLate(st, s)
  }

  function UpdatedLate(st: State, s: Session): State { st.(db := st.db[s.apiKey := Copied(s)]) }

  function Deleted(st: State, key: Text): State {
    st.(mem := st.mem - {key}, db := st.db - {key})
  }

  function KeysOf(st: State, user: Json): set<Text> {
    set k | k in st.mem && st.mem[k].userId == user
  }

  function Rotten(st: State, at: int): set<Text> {
    set k | k in st.mem && st.mem[k].ttl < at
  }

  function Emptied(s: Session): Session { s.(connections := []) }

  /** A record read back at `at`: a session that has not expired, without connections. */
  function Reloaded(db: map<Text, Session>, at: int): map<Text, Session> {
    map k | k in db && !(db[k].ttl < at) :: Emptied(db[k])
  }

  function Emptying(st: State, keys: set<Text>): State
    requires keys <= st.mem.Keys
  {
    st.(mem := map k | k in st.mem :: if k in keys then Emptied(st.mem[k]) else st.mem[k],
        db := st.db + map k | k in keys :: Copied(Emptied(st.mem[k])))
  }

  function Dropped(st: State, key: Text): State
    requires key in st.mem
  {
    st.(mem := st.mem[key := Emptied(st.mem[key])], db := st.db[key := Copied(Emptied(st.mem[key]))])
  }

  /** One record read back at `at`. */
  function Loaded(st: State, r: Session, at: int): State {
    if r.ttl < at then st.(db := st.db - {r.apiKey}) else Kept(st, r)
  }

  function Kept(st: State, r: Session): State {
    st.(mem := st.mem[r.apiKey := Emptied(r)], db := st.db[r.apiKey := Copied(Emptied(r))])
  }

  function Apply(st: State, step: Step): State {
    match step
    case Create(id, token, user, at, expires) =>
      Updated(st, Session(id, token, user, [], at, ZERO_TIME, expires, 0))
    case Subscribe(key, connId, uri, extra) =>
      if key !in st.mem then st
      else Updated(st, st.mem[key].(connections := Subscribed(st.mem[key].connections, connId, uri, extra)))
    case Unsubscribe(key, connId, uri) =>
      if key !in st.mem || Find(st.mem[key].connections, connId) == |st.mem[key].connections| then st
      else Updated(st, st.mem[key].(connections := Unsubscribed(st.mem[key].connections, connId, uri)))
    case Disconnect(key, connId) =>
      if key !in st.mem then st
      else Updated(st, st.mem[key].(connections := Disconnected(st.mem[key].connections, connId)))
    case DeleteKey(key) => Deleted(st, key)
    case DeleteForUser(user) => st.(pending := st.pending + multiset(KeysOf(st, user)))
    case RunPending(key) =>
      if key !in st.pending then st else Deleted(st, key).(pending := st.pending - multiset{key})
    case DropConnections =>
      Emptying(st, st.mem.Keys)
    case Sweep(at) =>
      st.(mem := st.mem - Rotten(st, at), db := st.db - Rotten(st, at))
    case Restart(at) =>
      var mem := Reloaded(st.db, at);
      State(mem, map k | k in mem :: Copied(mem[k]), multiset{})
  }

  lemma RunPendingIs(st: State, key: Text, taken: State, after: State)
    requires key in st.pending && taken == st.(pending := st.pending - multiset{key}) && after == Deleted(taken, key)
    ensures after == Apply(st, RunPending(key))
  {
  }

  /** A new session is entered, and then updated. */
  lemma CreateIs(st: State, id: Text, token: Text, user: Json, at: int, expires: int, entered: State, s: Session,
                 after: State)
    requires s == Session(id, token, user, [], at, ZERO_TIME, expires, 0)
    requires entered == st.(mem := st.mem[id := s]) && after == Operated(entered, s, true)
    ensures after == Apply(st, Create(id, token, user, at, expires))
  {
  }

  function After(st: State, steps: seq<Step>): State
    decreases |steps|
  {
    if steps == [] then st else After(Apply(st, steps[0]), steps[1..])
  }

  // ---- The loops over all sessions and over all records, one turn at a time ----

  lemma EmptyingStarts(st: State)
    ensures Emptying(st, st.mem.Keys - st.mem.Keys) == st
  {
    assert st.mem.Keys - st.mem.Keys == {};
  }

  lemma EmptyingEnds(st: State)
    ensures Emptying(st, st.mem.Keys - {}) == Apply(st, DropConnections)
  {
    assert st.mem.Keys - {} == st.mem.Keys;
  }

  lemma EmptyingTurn(st: State, todo: set<Text>, k: Text)
    requires k in todo && todo <= st.mem.Keys
    ensures var now := Emptying(st, st.mem.Keys - todo);
      k in now.mem && Dropped(now, k) == Emptying(st, st.mem.Keys - (todo - {k}))
  {
    var done := st.mem.Keys - todo;
    assert st.mem.Keys - (todo - {k}) == done + {k};
    RecordsTurn(st, done, k);
  }

  lemma RecordsTurn(st: State, done: set<Text>, k: Text)
    requires done <= st.mem.Keys && k in st.mem && k !in done
    ensures Dropped(Emptying(st, done), k).db == Emptying(st, done + {k}).db
  {
  }

  /** Restarting on `records`, with the keys in `todo` still to be looked at. */
  ghost predicate Reloading(st: State, records: map<Text, Session>, todo: set<Text>, at: int) {
    && todo <= records.Keys && st.pending == multiset{}
    && st.mem == Reloaded(records - (todo * records.Keys), at)
    && (forall k :: k in st.db <==> k in todo || k in st.mem)
    && (forall k :: k in todo ==> st.db[k] == records[k])
    && (forall k :: k in st.mem ==> st.db[k] == Copied(st.mem[k]))
  }

  lemma ReloadingTurn(st: State, records: map<Text, Session>, todo: set<Text>, at: int, k: Text)
    requires Reloading(st, records, todo, at) && k in todo && records[k].apiKey == k
    ensures Reloading(Loaded(st, records[k], at), records, todo - {k}, at)
  {
    assert k !in st.mem;
  }

  lemma ReloadingEnds(st: State, records: map<Text, Session>, at: int, before: State)
    requires Reloading(st, records, {}, at) && before.db == records
    ensures st == Apply(before, Restart(at))
  {
    assert records - ({} * records.Keys) == records;
  }

  // ---- Agreement of memory and database ----

  /** The record of a session: the same but for the time of creation, and at most one version behind. */
  predicate Recorded(s: Session, r: Session) {
    && r == Copied(s).(v := r.v)
    && r.v <= s.v <= r.v + 1
  }

  predicate Agreed(st: State) {
    && st.mem.Keys == st.db.Keys
    && forall k :: k in st.mem ==>
         st.mem[k].apiKey == k && Recorded(st.mem[k], st.db[k]) && Unique(st.mem[k].connections)
  }

  lemma ConnectionsAgreed(st: State, step: Step)
    requires Agreed(st) && (step.Subscribe? || step.Unsubscribe? || step.Disconnect?)
    ensures Agreed(Apply(st, step))
  {
    if step.key in st.mem {
      var conns := st.mem[step.key].connections;
      match step
      case Subscribe(key, connId, uri, extra) => SubscribedIsInsert(conns, connId, uri, extra);
      case Unsubscribe(key, connId, uri) => UnsubscribedIsRemove(conns, connId, uri);
      case Disconnect(key, connId) => DisconnectedIsForget(conns, connId);
    }
  }

  lemma StepAgreed(st: State, step: Step)
    requires Agreed(st)
    ensures Agreed(Apply(st, step))
  {
    if step.Subscribe? || step.Unsubscribe? || step.Disconnect? {
      ConnectionsAgreed(st, step);
    }
  }

  /** Memory and database agree after every run: the same keys, each session under its own key, equal in everything a
      copy carries, the stored version never ahead and at most one behind. */
  lemma {:induction false} RunAgreed(st: State, steps: seq<Step>)
    requires Agreed(st)
    ensures Agreed(After(st, steps))
    decreases |steps|
  {
    if steps != [] {
      StepAgreed(st, steps[0]);
      RunAgreed(Apply(st, steps[0]), steps[1..]);
    }
  }

  /** A restart from any reachable state brings back exactly the sessions in memory that have not expired, with key,
      token, user and expiry as they were and no connections, and drops the other records. */
  lemma RestartRestores(steps: seq<Step>, at: int)
    ensures var before, after := After(Init(), steps), Apply(After(Init(), steps), Restart(at));
      && (forall k :: k in after.mem <==> k in before.mem && before.mem[k].ttl >= at)
      && after.db.Keys == after.mem.Keys
      && (forall k :: k in after.mem ==>
            var s := before.mem[k];
            after.mem[k] == Session(k, s.accessToken, s.userId, [], ZERO_TIME, s.lastRequest, s.ttl, after.mem[k].v))
      && Agreed(after)
  {
    RunAgreed(Init(), steps);
    StepAgreed(After(Init(), steps), Restart(at));
  }

  /** A sweep removes exactly the sessions whose expiry is before now, from memory and from the database. */
  lemma SweepRemovesExactlyExpired(steps: seq<Step>, at: int)
    ensures var before, after := After(Init(), steps), Apply(After(Init(), steps), Sweep(at));
      && (forall k :: k in after.mem <==> k in before.mem && before.mem[k].ttl >= at)
      && after.db.Keys == after.mem.Keys
      && (forall k :: k in after.mem ==> after.mem[k] == before.mem[k] && after.db[k] == before.db[k])
  {
    RunAgreed(Init(), steps);
  }

  /** An expired session that has been swept or left out at a restart does not come back: only `New` makes keys. */
  lemma {:induction false} OnlyCreateMakesKeys(st: State, steps: seq<Step>, key: Text)
    requires Agreed(st) && key !in st.mem
    requires forall i :: 0 <= i < |steps| ==> !(steps[i].Create? && steps[i].id == key)
    ensures key !in After(st, steps).mem && key !in After(st, steps).db
    decreases |steps|
  {
    if steps != [] {
      StepAgreed(st, steps[0]);
      OnlyCreateMakesKeys(Apply(st, steps[0]), steps[1..], key);
    }
  }

  // ---- Which session it is ----

  /** A run in which each session has the number of the `New` that made it: `born` of the sessions in memory. */
  datatype Tracked = Tracked(st: State, born: map<Text, nat>, made: nat)

  predicate Tracks(t: Tracked) {
    && t.born.Keys == t.st.mem.Keys
    && forall k :: k in t.born ==> t.born[k] < t.made && t.st.mem[k].apiKey == k
  }

  function Track(t: Tracked, step: Step): Tracked {
    var st := Apply(t.st, step);
    if step.Create? then Tracked(st, t.born[step.id := t.made], t.made + 1)
    else Tracked(st, map k | k in t.born && k in st.mem :: t.born[k], t.made)
  }

  function TrackAll(t: Tracked, steps: seq<Step>): Tracked
    decreases |steps|
  {
    if steps == [] then t else TrackAll(Track(t, steps[0]), steps[1..])
  }

  predicate Creates(step: Step, key: Text) { step.Create? && step.id == key }

  /** Nobody calls `New` with the key. */
  predicate NeverCreated(steps: seq<Step>, key: Text) {
    forall i :: 0 <= i < |steps| ==> !Creates(steps[i], key)
  }

  predicate NoRestart(steps: seq<Step>) {
    forall i :: 0 <= i < |steps| ==> !steps[i].Restart?
  }

  /** The session that was under the key at `t` is the one there now. */
  predicate IsStored(t: Tracked, now: Tracked, key: Text) {
    key in t.born && key in now.born && key in now.st.mem && now.born[key] == t.born[key]
  }

  /** The session under the key was made after `t`. */
  predicate IsLater(t: Tracked, now: Tracked, key: Text) {
    key in now.born && key in now.st.mem && t.made <= now.born[key]
  }

  lemma TrackStep(t: Tracked, step: Step)
    requires Tracks(t) && !step.Restart?
    ensures Tracks(Track(t, step)) && t.made <= Track(t, step).made
  {
  }

  /** Where the session under a key comes from: the last `New` with the key, whose token it has. Without one it is the
      session that was there, and no background deletion of the key has run. */
  lemma {:induction false} Origin(t: Tracked, steps: seq<Step>, key: Text)
    requires Tracks(t) && NoRestart(steps) && key in TrackAll(t, steps).st.mem
    ensures var now := TrackAll(t, steps);
      && Tracks(now)
      && if NeverCreated(steps, key) then
           && key in t.st.mem && now.born[key] == t.born[key]
           && now.st.mem[key].accessToken == t.st.mem[key].accessToken
           && now.st.pending[key] >= t.st.pending[key]
         else
           && now.born[key] >= t.made
           && exists i :: 0 <= i < |steps| && Creates(steps[i], key) && now.st.mem[key].accessToken == steps[i].token
    decreases |steps|
  {
    if steps != [] {
      var rest := steps[1..];
      TrackStep(t, steps[0]);
      assert forall i :: 0 <= i < |rest| ==> rest[i] == steps[i + 1];
      Origin(Track(t, steps[0]), rest, key);
      if !NeverCreated(rest, key) {
        var now := TrackAll(t, steps);
        var i :| 0 <= i < |rest| && Creates(rest[i], key) && now.st.mem[key].accessToken == rest[i].token;
        assert steps[i + 1] == rest[i];
      } else if !Creates(steps[0], key) {
        OriginStep(t, steps[0], key);
      }
    }
  }

  lemma OriginStep(t: Tracked, step: Step, key: Text)
    requires Tracks(t) && !step.Restart? && !Creates(step, key) && key in Track(t, step).st.mem
    ensures key in t.st.mem && Track(t, step).born[key] == t.born[key]
    ensures Track(t, step).st.mem[key].accessToken == t.st.mem[key].accessToken
    ensures Track(t, step).st.pending[key] >= t.st.pending[key]
  {
  }

  /** When a background deletion takes the session it was started for. Whatever happens between `DeleteAllForUser` and
      the moment it runs, short of a restart, and with some session under the key by then: it takes the session that was
      there at the request if and only if nobody called `New` with the key in between. Otherwise it takes a session
      made later, unless an earlier deletion of the key has used up the request. */
  lemma DeletionTakesItsOwnExactly(t: Tracked, user: Json, steps: seq<Step>, key: Text)
    requires Tracks(t) && key in t.st.mem && t.st.mem[key].userId == user && NoRestart(steps)
    requires key in TrackAll(Track(t, DeleteForUser(user)), steps).st.mem
    ensures var now := TrackAll(Track(t, DeleteForUser(user)), steps);
      var taken := key !in Apply(now.st, RunPending(key)).mem;
      && (taken && IsStored(t, now, key) <==> NeverCreated(steps, key))
      && (taken && IsLater(t, now, key) <==> !NeverCreated(steps, key) && key in now.st.pending)
  {
    var asked := Track(t, DeleteForUser(user));
    TrackStep(t, DeleteForUser(user));
    assert key in KeysOf(t.st, user);
    assert asked.st.pending[key] > 0;
    Origin(asked, steps, key);
  }

  /** Such a run: the key is created anew before the deletion runs, and the deletion takes the new session. */
  lemma LateDeleteTakesNewSession(t: Tracked, user: Json, key: Text, token: Text, newUser: Json, at: int, expires: int)
    requires Tracks(t) && key in t.st.mem && t.st.mem[key].userId == user
    ensures var now := TrackAll(Track(t, DeleteForUser(user)), [Create(key, token, newUser, at, expires)]);
      && IsLater(t, now, key) && now.st.mem[key].accessToken == token
      && key !in Apply(now.st, RunPending(key)).mem && key !in Apply(now.st, RunPending(key)).db
  {
    var steps := [Create(key, token, newUser, at, expires)];
    var asked := Track(t, DeleteForUser(user));
    assert key in KeysOf(t.st, user);
    assert TrackAll(asked, steps) == Track(asked, steps[0]) by {
      assert steps[1..] == [];
    }
  }

  // ---- Updates that come too late ----

  /** A handler finds the session under a key, anything short of a restart happens, and then the handler operates on
      the session it found: `s` is that session with its connections changed. If it is still the one stored, memory and
      database agree afterwards. If it is not, they agree only where another session has come under the key that could
      have written the same record, so never if nobody was given the token of the session found. */
  lemma LateUpdateAgreesExactly(t: Tracked, steps: seq<Step>, key: Text, s: Session)
    requires Tracks(t) && Agreed(t.st) && key in t.st.mem && NoRestart(steps)
    requires s.apiKey == key && s.accessToken == t.st.mem[key].accessToken && Unique(s.connections)
    requires IsStored(t, TrackAll(t, steps), key) ==> s == TrackAll(t, steps).st.mem[key].(connections := s.connections)
    ensures var now := TrackAll(t, steps);
      var stored := IsStored(t, now, key);
      && (stored <==> key in now.st.mem && NeverCreated(steps, key))
      && (stored ==> Agreed(Operated(now.st, s, stored)))
      && (!stored ==> (Agreed(Operated(now.st, s, stored))
                       <==> key in now.st.mem && Recorded(now.st.mem[key], Copied(s))))
      && (TokenUnused(steps, key, s.accessToken) ==> (Agreed(Operated(now.st, s, stored)) <==> stored))
  {
    var now := TrackAll(t, steps);
    TrackAllAgreed(t, steps);
    if key in now.st.mem {
      Origin(t, steps, key);
    }
    if !IsStored(t, now, key) {
      LateRecordAgrees(now.st, s);
      if TokenUnused(steps, key, s.accessToken) {
        OtherTokenNeverAgrees(now.st, s);
      }
    }
  }

  /** No session made under the key has the token. A token carries user, key and second of issue. */
  predicate TokenUnused(steps: seq<Step>, key: Text, token: Text) {
    forall i :: 0 <= i < |steps| && Creates(steps[i], key) ==> steps[i].token != token
  }

  lemma LateRecordAgrees(st: State, s: Session)
    requires Agreed(st)
    ensures Agreed(UpdatedLate(st, s)) <==> s.apiKey in st.mem && Recorded(st.mem[s.apiKey], Copied(s))
  {
    var after := UpdatedLate(st, s);
    assert s.apiKey in after.db && after.db[s.apiKey] == Copied(s);
  }

  /** A late update never keeps agreement when its key is gone or belongs to a session with another token. */
  lemma OtherTokenNeverAgrees(st: State, s: Session)
    requires Agreed(st) && (s.apiKey in st.mem ==> st.mem[s.apiKey].accessToken != s.accessToken)
    ensures !Agreed(UpdatedLate(st, s))
  {
    var after := UpdatedLate(st, s);
    assert s.apiKey in after.db && after.db[s.apiKey] == Copied(s);
    if s.apiKey in st.mem {
      assert !Recorded(after.mem[s.apiKey], after.db[s.apiKey]);
    }
  }

  lemma {:induction false} TrackAllAgreed(t: Tracked, steps: seq<Step>)
    requires Tracks(t) && Agreed(t.st) && NoRestart(steps)
    ensures Tracks(TrackAll(t, steps)) && Agreed(TrackAll(t, steps).st)
    decreases |steps|
  {
    if steps != [] {
      TrackStep(t, steps[0]);
      StepAgreed(t.st, steps[0]);
      assert forall i :: 0 <= i < |steps[1..]| ==> steps[1..][i] == steps[i + 1];
      TrackAllAgreed(Track(t, steps[0]), steps[1..]);
    }
  }

  /** A late update of a deleted session brings it back at the next restart, unless it has expired by then. */
  lemma LateUpdateRevivesExactly(st: State, s: Session, at: int)
    requires Agreed(st) && s.apiKey !in st.mem
    ensures s.apiKey in Apply(UpdatedLate(st, s), Restart(at)).mem <==> at <= s.ttl
  {
    var after := UpdatedLate(st, s);
    assert s.apiKey in after.db && after.db[s.apiKey].ttl == s.ttl;
  }

  // ---- A deletion in two parts ----

  /** A deletion removes the record before it takes the lock, and the session once it has it. */
  function RecordErased(st: State, key: Text): State { st.(db := st.db - {key}) }

  function Evicted(st: State, key: Text): State { st.(mem := st.mem - {key}) }

  /** Agreement at every key but one. */
  predicate AgreedBut(st: State, key: Text) {
    && (forall k :: k in st.db && k != key ==> k in st.mem)
    && forall k :: k in st.mem ==>
         && st.mem[k].apiKey == k && Unique(st.mem[k].connections)
         && (k != key ==> k in st.db && Recorded(st.mem[k], st.db[k]))
  }

  /** The step leaves a record under the key. */
  predicate Writes(st: State, step: Step, key: Text) {
    match step
    case Create(id, _, _, _, _) => id == key
    case Subscribe(k, _, _, _) => k == key && key in st.mem
    case Unsubscribe(k, connId, _) =>
      k == key && key in st.mem && Find(st.mem[key].connections, connId) < |st.mem[key].connections|
    case Disconnect(k, _) => k == key && key in st.mem
    case DropConnections => key in st.mem
    case _ => false
  }

  predicate Erases(st: State, step: Step, key: Text) {
    match step
    case DeleteKey(k) => k == key
    case RunPending(k) => k == key && key in st.pending
    case Sweep(at) => key in st.mem && st.mem[key].ttl < at
    case _ => false
  }

  /** Of the steps that write or erase the record of the key the last one wrote it. */
  predicate LastWritten(st: State, steps: seq<Step>, key: Text, written: bool)
    decreases |steps|
  {
    if steps == [] then written
    else LastWritten(Apply(st, steps[0]), steps[1..], key,
                     Writes(st, steps[0], key) || (written && !Erases(st, steps[0], key)))
  }

  lemma ConnectionsAgreedBut(st: State, step: Step, key: Text)
    requires AgreedBut(st, key) && (step.Subscribe? || step.Unsubscribe? || step.Disconnect?)
    ensures AgreedBut(Apply(st, step), key)
  {
    if step.key in st.mem {
      var conns := st.mem[step.key].connections;
      match step
      case Subscribe(_, connId, uri, extra) => SubscribedIsInsert(conns, connId, uri, extra);
      case Unsubscribe(_, connId, uri) => UnsubscribedIsRemove(conns, connId, uri);
      case Disconnect(_, connId) => DisconnectedIsForget(conns, connId);
    }
  }

  lemma StepAgreedBut(st: State, step: Step, key: Text)
    requires AgreedBut(st, key) && !step.Restart?
    ensures AgreedBut(Apply(st, step), key)
  {
    if step.Subscribe? || step.Unsubscribe? || step.Disconnect? {
      ConnectionsAgreedBut(st, step, key);
    }
  }

  lemma StepRecord(st: State, step: Step, key: Text)
    requires AgreedBut(st, key) && !step.Restart?
    ensures key in Apply(st, step).db <==> Writes(st, step, key) || (key in st.db && !Erases(st, step, key))
  {
  }

  lemma {:induction false} GapRun(st: State, steps: seq<Step>, key: Text)
    requires AgreedBut(st, key) && NoRestart(steps)
    ensures AgreedBut(After(st, steps), key)
    ensures key in After(st, steps).db <==> LastWritten(st, steps, key, key in st.db)
    decreases |steps|
  {
    if steps != [] {
      StepAgreedBut(st, steps[0], key);
      StepRecord(st, steps[0], key);
      assert forall i :: 0 <= i < |steps[1..]| ==> steps[1..][i] == steps[i + 1];
      GapRun(Apply(st, steps[0]), steps[1..], key);
    }
  }

  /** The exact condition for a deletion whose parts have a run of other steps between them: memory and database agree
      after it if and only if the record of the key was not written in the gap, or was erased again since. */
  lemma DeletionAgreesExactly(st: State, steps: seq<Step>, key: Text)
    requires Agreed(st) && NoRestart(steps)
    ensures var erased := RecordErased(st, key);
      Agreed(Evicted(After(erased, steps), key)) <==> !LastWritten(erased, steps, key, false)
    ensures Evicted(RecordErased(st, key), key) == Deleted(st, key)
  {
    GapRun(RecordErased(st, key), steps, key);
  }

  /** So a gap in which nobody writes the key does no harm. */
  lemma {:induction false} UnwrittenGap(st: State, steps: seq<Step>, key: Text)
    requires forall i :: 0 <= i < |steps| ==> !MayWrite(steps[i], key)
    ensures !LastWritten(st, steps, key, false)
    decreases |steps|
  {
    if steps != [] {
      assert forall i :: 0 <= i < |steps[1..]| ==> steps[1..][i] == steps[i + 1];
      UnwrittenGap(Apply(st, steps[0]), steps[1..], key);
    }
  }

  /** Steps that write a record under the key, if they find a session there. */
  predicate MayWrite(step: Step, key: Text) {
    match step
    case Create(id, _, _, _, _) => id == key
    case Subscribe(k, _, _, _) => k == key
    case Unsubscribe(k, _, _) => k == key
    case Disconnect(k, _) => k == key
    case DropConnections => true
    case _ => false
  }

  /** A `New` in the gap: its session is deleted, its record stays, and the session is back at the next restart,
      unless it has expired by then. */
  lemma NewInGapLeavesRecord(st: State, key: Text, token: Text, user: Json, at: int, expires: int, restart: int)
    requires Agreed(st)
    ensures var after := Evicted(After(RecordErased(st, key), [Create(key, token, user, at, expires)]), key);
      && key !in after.mem && key in after.db && !Agreed(after)
      && (key in Apply(after, Restart(restart)).mem <==> restart <= expires)
  {
    var steps := [Create(key, token, user, at, expires)];
    assert steps[1..] == [];
    assert After(RecordErased(st, key), steps) == Apply(RecordErased(st, key), steps[0]);
  }
}
