/** The session store on objects: sessions and connections are updated in place, every record and every snapshot
    handed to a subscriber is a deep copy made of new objects. */
module SessionStore {
  import S = SessionSpec

  class Conn {
    const connId: S.Text
    var subs: S.Subscriptions
    ghost const owner: Session

    constructor (connId: S.Text, ghost owner: Session)
      ensures this.connId == connId && subs == map[] && this.owner == owner
    {
      this.connId := connId;
      this.owner := owner;
      subs := map[];
    }
  }

  class Session {
    const apiKey: S.Text
    const accessToken: S.Text
    const userId: S.Json
    const createdAt: int
    const lastRequest: int
    const ttl: int
    var connections: seq<Conn>
    var v: int

    // The session as a value, and whether it is a snapshot. Snapshots are never entered into the store.
    ghost var value: S.Session
    ghost const snapshot: bool

    constructor (apiKey: S.Text, accessToken: S.Text, userId: S.Json, createdAt: int, lastRequest: int, ttl: int,
                 v: int, ghost snapshot: bool)
      ensures Valid() && this.snapshot == snapshot && connections == []
      ensures value == S.Session(apiKey, accessToken, userId, [], createdAt, lastRequest, ttl, v)
    {
      this.apiKey, this.accessToken, this.userId := apiKey, accessToken, userId;
      this.createdAt, this.lastRequest, this.ttl := createdAt, lastRequest, ttl;
      this.connections, this.v := [], v;
      this.snapshot := snapshot;
      value := S.Session(apiKey, accessToken, userId, [], createdAt, lastRequest, ttl, v);
    }

    /** The connections are the session's own objects, and `value` is what the fields and the connections hold. */
    ghost predicate Valid()
      reads this, connections
    {
      && |value.connections| == |connections|
      && value == S.Session(apiKey, accessToken, userId, value.connections, createdAt, lastRequest, ttl, v)
      && S.Unique(value.connections)
      && forall i :: 0 <= i < |connections| ==>
           connections[i].owner == this && value.connections[i] == S.Conn(connections[i].connId, connections[i].subs)
    }

    /** The first connection with the id. */
    method IndexOf(connId: S.Text) returns (i: nat)
      requires Valid()
      ensures i == S.Find(value.connections, connId)
    {
      i := 0;
      while i < |connections| && connections[i].connId != connId
        invariant i <= |connections|
        invariant forall k :: 0 <= k < i ==> value.connections[k].connId != connId
      {
        i := i + 1;
      }
      FoundAt(value.connections, connId, i);
    }

    method AddSubscription(connId: S.Text, uri: S.Text, extra: S.Json, ghost others: set<Session>)
      requires Valid() && forall o :: o in others ==> o != this && o.Valid()
      modifies this`connections, this`value, connections
      ensures Valid() && forall c :: c in connections ==> c in old(connections) || fresh(c)
      ensures value == old(value).(connections := S.Subscribed(old(value.connections), connId, uri, extra))
      ensures var i := S.Find(old(value.connections), connId);
        && i < |connections| && connections[i].connId == connId
        && uri in connections[i].subs && connections[i].subs[uri] == extra
      ensures Kept(others)
    {
      var i := IndexOf(connId);
      if i == |connections| {
        var c := new Conn(connId, this);
        c.subs := c.subs[uri := extra];
        connections := connections + [c];
      } else {
        var c := connections[i];
        c.subs := c.subs[uri := extra];
      }
      S.SubscribedIsInsert(value.connections, connId, uri, extra);
      value := value.(connections := S.Subscribed(value.connections, connId, uri, extra));
    }

    method DeleteConnection(connId: S.Text, ghost others: set<Session>)
      requires Valid() && forall o :: o in others ==> o != this && o.Valid()
      modifies this`connections, this`value
      ensures Valid() && forall c :: c in connections ==> c in old(connections)
      ensures value == old(value).(connections := S.Disconnected(old(value.connections), connId))
      ensures forall i :: 0 <= i < |connections| ==> connections[i].connId != connId
      ensures Kept(others)
    {
      var i := IndexOf(connId);
      S.DisconnectedGone(value.connections, connId);
      if i < |connections| {
        RemoveConnection(i, others);
      }
      assert forall k :: 0 <= k < |connections| ==> connections[k].connId == value.connections[k].connId;
    }

    method RemoveConnection(i: nat, ghost others: set<Session>)
      requires Valid() && i < |connections| && forall o :: o in others ==> o != this && o.Valid()
      modifies this`connections, this`value
      ensures Valid() && forall c :: c in connections ==> c in old(connections)
      ensures value == old(value).(connections := old(value.connections)[..i] + old(value.connections)[i + 1..])
      ensures Kept(others)
    {
      S.RemovedUnique(value.connections, i);
      connections := connections[..i] + connections[i + 1..];
      value := value.(connections := value.connections[..i] + value.connections[i + 1..]);
      assert forall k :: 0 <= k < |connections| ==> connections[k] == old(connections)[if k < i then k else k + 1];
    }

    method DropConnections(ghost others: set<Session>)
      requires Valid() && forall o :: o in others ==> o != this && o.Valid()
      modifies this`connections, this`value
      ensures Valid() && value == S.Emptied(old(value)) && Kept(others)
    {
      connections := [];
      value := S.Emptied(value);
    }

    method DropSubscription(i: nat, connId: S.Text, uri: S.Text, ghost others: set<Session>)
      requires Valid() && forall o :: o in others ==> o != this && o.Valid()
      requires i == S.Find(value.connections, connId) < |connections|
      modifies this`value, connections[i]
      ensures Valid()
      ensures value == old(value).(connections := S.Unsubscribed(old(value.connections), connId, uri))
      ensures connections[i].subs == old(connections[i].subs) - {uri}
      ensures Kept(others)
    {
      var c := connections[i];
      S.UnsubscribedIsRemove(value.connections, connId, uri);
      value := value.(connections := S.Unsubscribed(value.connections, connId, uri));
      c.subs := c.subs - {uri};
    }
  }

  lemma FoundAt(conns: seq<S.Conn>, connId: S.Text, i: nat)
    requires i <= |conns| && (i < |conns| ==> conns[i].connId == connId)
    requires forall k :: 0 <= k < i ==> conns[k].connId != connId
    ensures S.Find(conns, connId) == i
  {
  }

  /** A deep copy: a new session with new connections and new subscription maps. */
  method CopySession(s: Session) returns (r: Session)
    requires s.Valid()
    ensures fresh(r) && r.snapshot && r.Valid() && fresh(r.connections)
    ensures r.value == s.value.(createdAt := S.ZERO_TIME)
    ensures r.apiKey == s.apiKey && r.accessToken == s.accessToken && r.userId == s.userId
    ensures r.lastRequest == s.lastRequest && r.ttl == s.ttl && r.v == s.v
    ensures |r.connections| == |s.connections|
    ensures forall i :: 0 <= i < |s.connections| ==>
              r.connections[i].connId == s.connections[i].connId && r.connections[i].subs == s.connections[i].subs
  {
    r := new Session(s.apiKey, s.accessToken, s.userId, S.ZERO_TIME, s.lastRequest, s.ttl, s.v, true);
    var i := 0;
    while i < |s.connections|
      invariant i == |r.connections| <= |s.connections|
      invariant fresh(r) && forall k :: 0 <= k < i ==> fresh(r.connections[k])
      invariant r.Valid() && r.value == s.value.(createdAt := S.ZERO_TIME, connections := s.value.connections[..i])
    {
      var c := CopyConn(s.connections[i], r);
      r.connections := r.connections + [c];
      r.value := r.value.(connections := s.value.connections[..i + 1]);
      i := i + 1;
    }
  }

  method CopyConn(from: Conn, ghost owner: Session) returns (c: Conn)
    ensures fresh(c) && c.owner == owner && c.connId == from.connId && c.subs == from.subs
  {
    c := new Conn(from.connId, owner);
    var todo := from.subs.Keys;
    while todo != {}
      invariant todo <= from.subs.Keys && fresh(c)
      invariant c.subs == from.subs - todo
      decreases todo
    {
      var k :| k in todo;
      todo := todo - {k};
      c.subs := c.subs[k := from.subs[k]];
    }
  }

  function Keys(ss: seq<Session>): seq<S.Text> {
    seq(|ss|, i requires 0 <= i < |ss| => ss[i].apiKey)
  }

  /** Sessions that are valid and look the same as before. */
  twostate predicate Kept(others: set<Session>)
    reads others, set s, i | s in others && 0 <= i < |s.connections| :: s.connections[i]
  {
    forall o :: o in others ==> o.Valid() && o.value == old(o.value)
  }

  lemma AppendedKey(ss: seq<Session>, s: Session)
    ensures multiset(Keys(ss + [s])) == multiset(Keys(ss)) + multiset{s.apiKey}
  {
    assert Keys(ss + [s]) == Keys(ss) + [s.apiKey];
  }

  lemma RemovedKey(ss: seq<Session>, i: nat)
    requires i < |ss|
    ensures multiset(Keys(ss[..i] + ss[i + 1..])) == multiset(Keys(ss)) - multiset{ss[i].apiKey}
  {
    assert Keys(ss) == Keys(ss[..i]) + [ss[i].apiKey] + Keys(ss[i + 1..]);
    assert Keys(ss[..i] + ss[i + 1..]) == Keys(ss[..i]) + Keys(ss[i + 1..]);
  }

  lemma KeyDone(before: multiset<S.Text>, keys: set<S.Text>, todo: set<S.Text>, k: S.Text)
    requires k in todo
    ensures before + multiset(keys - (todo - {k}))
         == before + multiset(keys - todo) + if k in keys then multiset{k} else multiset{}
  {
  }

  class Store {
    var sessions: map<S.Text, Session>
    var db: map<S.Text, S.Session>
    var pending: seq<Session>        // the background deletions that have not run
    var published: seq<Session>      // the snapshots handed to the update handlers
    ghost var all: set<Session>      // every session and every snapshot
    ghost var sent: seq<S.Session>   // what each snapshot showed when it was made
    ghost var mem: map<S.Text, S.Session>     // memory as a value
    ghost var waiting: multiset<S.Text>       // the keys of the pending deletions

    /** The store as a value. */
    ghost function State(): S.State
      reads this`mem, this`db, this`waiting
    {
      S.State(mem, db, waiting)
    }

    ghost predicate AllValid()
      reads this`all, all, set s, i | s in all && 0 <= i < |s.connections| :: s.connections[i]
    {
      forall s :: s in all ==> s.Valid()
    }

    /** Memory holds `mem`, each session under its own key, but for sessions that `mem` does not show yet. */
    ghost predicate InMemory(changed: set<Session>)
      reads this`sessions, this`mem, this`all, all`value
    {
      && sessions.Keys == mem.Keys
      && forall k :: k in sessions ==>
           sessions[k] in all && !sessions[k].snapshot && sessions[k].apiKey == k
           && (sessions[k] !in changed ==> sessions[k].value == mem[k])
    }

    ghost predicate Pending()
      reads this`pending, this`waiting, this`all
    {
      && (forall i :: 0 <= i < |pending| ==> pending[i] in all && !pending[i].snapshot)
      && waiting == multiset(Keys(pending))
    }

    /** Each snapshot still shows what it showed when it was made. */
    ghost predicate Delivered()
      reads this`published, this`sent, this`all, all`value
    {
      && |published| == |sent|
      && forall i :: 0 <= i < |published| ==>
           published[i] in all && published[i].snapshot && published[i].value == sent[i]
    }

    ghost predicate ValidBut(changed: set<Session>)
      reads this, all, set s, i | s in all && 0 <= i < |s.connections| :: s.connections[i]
    {
      AllValid() && InMemory(changed) && Pending() && Delivered()
    }

    ghost predicate Valid()
      reads this, all, set s, i | s in all && 0 <= i < |s.connections| :: s.connections[i]
    {
      ValidBut({})
    }

    /** A store that starts on a database; nothing is in memory yet. */
    constructor (db: map<S.Text, S.Session>)
      ensures Valid() && State() == S.State(map[], db, multiset{})
      ensures sessions == map[] && pending == [] && published == []
    {
      this.db := db;
      sessions, pending, published := map[], [], [];
      all, sent, mem, waiting := {}, [], map[], multiset{};
    }

    /** Writes the record of a session: the copy, not the session. */
    method Save(s: Session)
      requires s.Valid()
      modifies this`db
      ensures db == old(db)[s.apiKey := s.value.(createdAt := S.ZERO_TIME)]
    {
      var copy := CopySession(s);
      db := db[s.apiKey := S.Session(copy.apiKey, copy.accessToken, copy.userId, Encoded(copy),
                                     copy.createdAt, copy.lastRequest, copy.ttl, copy.v)];
    }

    /** Saves the session, hands a snapshot to the update handlers, and only then counts the version up. */
    method SessionUpdated(s: Session) returns (snapshot: Session)
      requires s.Valid() && forall o :: o in all && o != s ==> o.Valid()
      modifies this`db, this`published, this`sent, this`all, s`v, s`value
      ensures s.Valid() && s.value == old(s.value).(v := old(s.value.v) + 1)
      ensures Kept(old(all) - {s})
      ensures db == old(db)[s.apiKey := old(s.value).(createdAt := S.ZERO_TIME)]
      ensures snapshot.Valid() && snapshot.snapshot && snapshot.value == old(s.value).(createdAt := S.ZERO_TIME)
      ensures fresh(snapshot) && fresh(snapshot.connections)
      ensures published == old(published) + [snapshot] && sent == old(sent) + [snapshot.value]
      ensures all == old(all) + {snapshot}
    {
      Save(s);
      snapshot := CopySession(s);
      published := published + [snapshot];
      sent := sent + [snapshot.value];
      all := all + {snapshot};
      s.v := s.v + 1;
      s.value := s.value.(v := s.v);
    }

    /** The update handlers got one snapshot more, a new object; it shows the record of the key. */
    twostate predicate Handed(key: S.Text)
      reads this
    {
      && |published| == |old(published)| + 1 && published[..|old(published)|] == old(published)
      && fresh(published[|old(published)|])
      && key in db && sent == old(sent) + [db[key]]
    }

    /** A session that a handler found in the store. */
    ghost predicate Stored(s: Session)
      reads this
    {
      s.apiKey in sessions && sessions[s.apiKey] == s
    }

    /** One session has changed; `mem` does not show it yet. */
    twostate lemma Changed(s: Session)
      requires old(Valid()) && s in all && !s.snapshot && s.Valid() && Kept(old(all) - {s})
      requires unchanged(this)
      ensures ValidBut({s})
    {
    }

    /** Publishes a session that has changed, and brings `mem` up to date. The session may have been deleted or
        replaced since a handler found it. */
    method Publish(s: Session)
      requires ValidBut({s}) && s in all && !s.snapshot
      modifies this`db, this`published, this`sent, this`all, this`mem, s`v, s`value
      ensures Valid() && Handed(s.apiKey)
      ensures State() == S.Operated(old(State()), old(s.value), Stored(s))
    {
      var snapshot := SessionUpdated(s);
      mem := if Stored(s) then mem[s.apiKey := s.value] else mem;
      Published(s, snapshot);
    }

    /** The changed session was saved and published: with `mem` brought up to date the store is valid. */
    twostate lemma Published(s: Session, new snapshot: Session)
      requires old(ValidBut({s})) && s in old(all) && !s.snapshot
      requires s.Valid() && snapshot.Valid() && snapshot.snapshot && Kept(old(all) - {s})
      requires sessions == old(sessions) && pending == old(pending) && all == old(all) + {snapshot}
      requires published == old(published) + [snapshot] && sent == old(sent) + [snapshot.value]
      requires waiting == old(waiting) && db == old(db)[s.apiKey := snapshot.value]
      requires s.value == old(s.value).(v := old(s.value.v) + 1)
      requires snapshot.value == old(s.value).(createdAt := S.ZERO_TIME)
      requires mem == if Stored(s) then old(mem)[s.apiKey := s.value] else old(mem)
      ensures Valid()
      ensures State() == S.Operated(old(State()), old(s.value), Stored(s))
    {
    }

    /** A handler's operation on a session it found, which may have been deleted or replaced since. */
    method AddSubscription(s: Session, connId: S.Text, uri: S.Text, extra: S.Json)
      requires Valid() && s in all && !s.snapshot
      modifies this`db, this`published, this`sent, this`all, this`mem
      modifies s`connections, s`value, s`v, s.connections
      ensures Valid() && Handed(s.apiKey)
      ensures State() == S.Operated(old(State()), old(s.value).(connections :=
                                      S.Subscribed(old(s.value).connections, connId, uri, extra)), Stored(s))
      ensures Stored(s) ==> State() == S.Apply(old(State()), S.Subscribe(s.apiKey, connId, uri, extra))
    {
      s.AddSubscription(connId, uri, extra, all - {s});
      Changed(s);
      Publish(s);
    }

    method DeleteConnection(s: Session, connId: S.Text)
      requires Valid() && s in all && !s.snapshot
      modifies this`db, this`published, this`sent, this`all, this`mem
      modifies s`connections, s`value, s`v
      ensures Valid() && Handed(s.apiKey)
      ensures State() == S.Operated(old(State()), old(s.value).(connections :=
                                      S.Disconnected(old(s.value).connections, connId)), Stored(s))
      ensures Stored(s) ==> State() == S.Apply(old(State()), S.Disconnect(s.apiKey, connId))
    {
      s.DeleteConnection(connId, all - {s});
      Changed(s);
      Publish(s);
    }

    method DeleteSubscription(s: Session, connId: S.Text, uri: S.Text)
      requires Valid() && s in all && !s.snapshot
      modifies this`db, this`published, this`sent, this`all, this`mem
      modifies s`value, s`v, s.connections
      ensures Valid()
      ensures if S.Find(old(s.value).connections, connId) == |old(s.value).connections|
              then published == old(published) && sent == old(sent) && State() == old(State())
              else Handed(s.apiKey)
                   && State() == S.Operated(old(State()), old(s.value).(connections :=
                                              S.Unsubscribed(old(s.value).connections, connId, uri)), Stored(s))
      ensures Stored(s) ==> State() == S.Apply(old(State()), S.Unsubscribe(s.apiKey, connId, uri))
    {
      var i := s.IndexOf(connId);
      assert Stored(s) ==> mem[s.apiKey] == s.value;
      if i < |s.connections| {
        DeleteFound(s, i, connId, uri);
      }
    }

    method DeleteFound(s: Session, i: nat, connId: S.Text, uri: S.Text)
      requires Valid() && s in all && !s.snapshot && i == S.Find(s.value.connections, connId) < |s.connections|
      modifies this`db, this`published, this`sent, this`all, this`mem
      modifies s`value, s`v, s.connections[i]
      ensures Valid() && Handed(s.apiKey)
      ensures State() == S.Operated(old(State()), old(s.value).(connections :=
                                      S.Unsubscribed(old(s.value).connections, connId, uri)), Stored(s))
      ensures Stored(s) ==> State() == S.Apply(old(State()), S.Unsubscribe(s.apiKey, connId, uri))
    {
      s.DropSubscription(i, connId, uri, all - {s});
      Changed(s);
      Publish(s);
    }

    /** Makes a session under an id, in place of the one there was. */
    method New(id: S.Text, token: S.Text, user: S.Json, at: int, expires: int) returns (s: Session)
      requires Valid()
      modifies this`sessions, this`db, this`published, this`sent, this`all, this`mem
      ensures Valid() && Stored(s) && fresh(s)
      ensures State() == S.Apply(old(State()), S.Create(id, token, user, at, expires))
      ensures Handed(id)
    {
      s := Enter(id, token, user, at, expires);
      ghost var entered, made := State(), s.value;
      Publish(s);
      S.CreateIs(old(State()), id, token, user, at, expires, entered, made, State());
    }

    method Enter(id: S.Text, token: S.Text, user: S.Json, at: int, expires: int) returns (s: Session)
      requires Valid()
      modifies this`sessions, this`all, this`mem
      ensures Valid() && Stored(s) && fresh(s)
      ensures s.value == S.Session(id, token, user, [], at, S.ZERO_TIME, expires, 0)
      ensures State() == old(State()).(mem := old(mem)[id := s.value])
    {
      s := new Session(id, token, user, at, S.ZERO_TIME, expires, 0, false);
      sessions := sessions[id := s];
      all := all + {s};
      mem := mem[id := s.value];
      Entered(s);
    }

    twostate lemma Entered(new s: Session)
      requires old(Valid()) && s.Valid() && !s.snapshot && Kept(old(all))
      requires sessions == old(sessions)[s.apiKey := s] && mem == old(mem)[s.apiKey := s.value] && all == old(all) + {s}
      requires pending == old(pending) && waiting == old(waiting) && published == old(published) && sent == old(sent)
      ensures Valid()
    {
    }

    /** Deletes what is stored under a key; the session itself goes to the delete handlers. */
    method Delete(key: S.Text)
      requires Valid()
      modifies this`sessions, this`db, this`mem
      modifies if key in sessions then {sessions[key]} else {}
      ensures Valid()
      ensures State() == S.Apply(old(State()), S.DeleteKey(key))
    {
      var s: Session? := if key in sessions then sessions[key] else null;
      Forget(key);
      if s != null {
        CountUp(s);
      }
    }

    method Forget(key: S.Text)
      requires Valid()
      modifies this`sessions, this`db, this`mem
      ensures Valid() && sessions == old(sessions) - {key}
      ensures State() == S.Deleted(old(State()), key)
    {
      EraseRecord(key);
      Evict(key);
    }

    /** The part of a deletion that is done before the lock is taken. */
    method EraseRecord(key: S.Text)
      requires Valid()
      modifies this`db
      ensures Valid() && State() == S.RecordErased(old(State()), key)
    {
      db := db - {key};
    }

    /** The part that is done under the lock. */
    method Evict(key: S.Text)
      requires Valid()
      modifies this`sessions, this`mem
      ensures Valid() && sessions == old(sessions) - {key}
      ensures State() == S.Evicted(old(State()), key)
    {
      sessions := sessions - {key};
      mem := mem - {key};
    }

    /** The version of a session that is no longer stored. */
    method CountUp(s: Session)
      requires Valid() && s in all && !s.snapshot && !Stored(s)
      modifies s`v, s`value
      ensures Valid()
    {
      s.v := s.v + 1;
      s.value := s.value.(v := s.v);
    }

    /** Starts a background deletion for each session of a user. */
    method DeleteAllForUser(user: S.Json)
      requires Valid()
      modifies this`pending, this`waiting
      ensures Valid()
      ensures State() == S.Apply(old(State()), S.DeleteForUser(user))
    {
      UserKeys(user);
      StartDeletes(user, S.KeysOf(State(), user));
      PendingChanged();
    }

    lemma UserKeys(user: S.Json)
      requires Valid()
      ensures S.KeysOf(State(), user) == set k | k in sessions && sessions[k].userId == user
    {
      assert forall k :: k in sessions ==> sessions[k].userId == mem[k].userId;
    }

    twostate lemma PendingChanged()
      requires old(Valid()) && Kept(old(all)) && Pending()
      requires sessions == old(sessions) && mem == old(mem) && all == old(all)
      requires published == old(published) && sent == old(sent)
      ensures Valid()
    {
    }

    method StartDeletes(user: S.Json, ghost keys: set<S.Text>)
      requires InMemory({}) && Pending() && keys == set k | k in sessions && sessions[k].userId == user
      modifies this`pending, this`waiting
      ensures Pending() && waiting == old(waiting) + multiset(keys)
    {
      var todo := sessions.Keys;
      while todo != {}
        invariant todo <= sessions.Keys && Pending()
        invariant waiting == old(waiting) + multiset(keys - todo)
        decreases todo
      {
        var k :| k in todo;
        KeyDone(old(waiting), keys, todo, k);
        todo := todo - {k};
        if sessions[k].userId == user {
          StartDelete(sessions[k]);
        }
      }
      assert keys - todo == keys;
    }

    method StartDelete(s: Session)
      requires Pending() && s in all && !s.snapshot
      modifies this`pending, this`waiting
      ensures Pending() && waiting == old(waiting) + multiset{s.apiKey}
    {
      AppendedKey(pending, s);
      pending := pending + [s];
      waiting := waiting + multiset{s.apiKey};
    }

    /** A background deletion runs. It goes by the key, whatever session is stored under it by now. */
    method RunDelete(i: nat)
      requires Valid() && i < |pending|
      modifies this`sessions, this`db, this`pending, this`mem, this`waiting, pending[i]
      ensures Valid()
      ensures State() == S.Apply(old(State()), S.RunPending(old(pending[i].apiKey)))
    {
      var s := pending[i];
      assert Keys(pending)[i] == s.apiKey;
      Finished(i);
      ghost var taken := State();
      DeleteSession(s);
      S.RunPendingIs(old(State()), s.apiKey, taken, State());
    }

    /** Deletes a session that may no longer be the one stored under its key. */
    method DeleteSession(s: Session)
      requires Valid() && s in all && !s.snapshot
      modifies this`sessions, this`db, this`mem, s`v, s`value
      ensures Valid()
      ensures State() == S.Deleted(old(State()), s.apiKey)
    {
      Forget(s.apiKey);
      CountUp(s);
    }

    method Finished(i: nat)
      requires Valid() && i < |pending|
      modifies this`pending, this`waiting
      ensures Valid()
      ensures State() == old(State()).(pending := old(waiting) - multiset{old(pending[i].apiKey)})
    {
      RemovePending(i);
      PendingChanged();
    }

    method RemovePending(i: nat)
      requires Pending() && i < |pending|
      modifies this`pending, this`waiting
      ensures Pending() && waiting == old(waiting) - multiset{old(pending[i].apiKey)}
    {
      RemovedKey(pending, i);
      waiting := waiting - multiset{pending[i].apiKey};
      pending := pending[..i] + pending[i + 1..];
    }

    /** Deletes the sessions that expired before `at`. */
    method ClearRottenSessions(at: int)
      requires Valid()
      modifies this`sessions, this`db, this`mem
      ensures Valid()
      ensures State() == S.Apply(old(State()), S.Sweep(at))
    {
      ghost var rotten := S.Rotten(State(), at);
      RottenKeys(at);
      SweepMaps(at, rotten);
      mem := mem - rotten;
      MapsSwept(rotten);
    }

    twostate lemma MapsSwept(rotten: set<S.Text>)
      requires old(Valid()) && Kept(old(all))
      requires sessions == old(sessions) - rotten && mem == old(mem) - rotten && all == old(all)
      requires pending == old(pending) && waiting == old(waiting) && published == old(published) && sent == old(sent)
      ensures Valid()
    {
    }

    lemma RottenKeys(at: int)
      requires Valid()
      ensures S.Rotten(State(), at) == set k | k in sessions && sessions[k].ttl < at
    {
      assert forall k :: k in sessions ==> sessions[k].ttl == mem[k].ttl;
    }

    method SweepMaps(at: int, ghost rotten: set<S.Text>)
      requires rotten == set k | k in sessions && sessions[k].ttl < at
      modifies this`sessions, this`db
      ensures sessions == old(sessions) - rotten && db == old(db) - rotten
    {
      var todo := sessions.Keys;
      while todo != {}
        invariant todo <= sessions.Keys
        invariant sessions == old(sessions) - (rotten - todo) && db == old(db) - (rotten - todo)
        decreases todo
      {
        var k :| k in todo;
        todo := todo - {k};
        if sessions[k].ttl < at {
          db := db - {k};
          sessions := sessions - {k};
        }
      }
      assert rotten - todo == rotten;
    }

    /** Drops the connections of every session. */
    method DeleteAllConnections()
      requires Valid()
      modifies this`db, this`mem, sessions.Values`connections, sessions.Values`value
      ensures Valid()
      ensures State() == S.Apply(old(State()), S.DropConnections)
    {
      var todo := sessions.Keys;
      ghost var st := State();
      S.EmptyingStarts(st);
      while todo != {}
        invariant Valid() && todo <= st.mem.Keys && sessions == old(sessions)
        invariant State() == S.Emptying(st, st.mem.Keys - todo)
        decreases todo
      {
        var k :| k in todo;
        DropTurn(sessions[k], st, todo);
        todo := todo - {k};
      }
      S.EmptyingEnds(st);
    }

    method DropTurn(s: Session, ghost st: S.State, ghost todo: set<S.Text>)
      requires Valid() && Stored(s)
      requires s.apiKey in todo && todo <= st.mem.Keys && State() == S.Emptying(st, st.mem.Keys - todo)
      modifies this`db, this`mem, s`connections, s`value
      ensures Valid() && State() == S.Emptying(st, st.mem.Keys - (todo - {s.apiKey}))
    {
      S.EmptyingTurn(st, todo, s.apiKey);
      DropConnections(s);
    }

    method DropConnections(s: Session)
      requires Valid() && Stored(s)
      modifies this`db, this`mem, s`connections, s`value
      ensures Valid()
      ensures State() == S.Dropped(old(State()), s.apiKey)
    {
      s.DropConnections(all - {s});
      Changed(s);
      SaveDropped(s);
    }

    method SaveDropped(s: Session)
      requires ValidBut({s}) && Stored(s) && s.value == S.Emptied(mem[s.apiKey])
      modifies this`db, this`mem
      ensures Valid()
      ensures State() == S.Dropped(old(State()), s.apiKey)
    {
      Save(s);
      mem := mem[s.apiKey := s.value];
      MemoryShown(s);
    }

    twostate lemma MemoryShown(s: Session)
      requires old(ValidBut({s})) && Stored(s) && Kept(old(all)) && mem == old(mem)[s.apiKey := s.value]
      requires sessions == old(sessions) && all == old(all) && pending == old(pending) && waiting == old(waiting)
      requires published == old(published) && sent == old(sent)
      ensures Valid()
    {
    }

    /** Starts the store: sessions that have not expired come back without connections, other records are deleted. */
    method LoadSessions(at: int)
      requires Valid() && sessions == map[] && pending == []
      requires forall k :: k in db ==> db[k].apiKey == k
      modifies this`sessions, this`db, this`all, this`mem
      ensures Valid()
      ensures State() == S.Apply(old(State()), S.Restart(at))
    {
      var records := db;
      var todo := records.Keys;
      while todo != {}
        invariant Valid() && S.Reloading(State(), records, todo, at)
        decreases todo
      {
        var k :| k in todo;
        S.ReloadingTurn(State(), records, todo, at, k);
        todo := todo - {k};
        Load(records[k], at);
      }
      S.ReloadingEnds(State(), records, at, old(State()));
    }

    method Load(r: S.Session, at: int)
      requires Valid()
      modifies this`sessions, this`db, this`all, this`mem
      ensures Valid()
      ensures State() == S.Loaded(old(State()), r, at)
    {
      if r.ttl < at {
        db := db - {r.apiKey};
      } else {
        Restore(r);
      }
    }

    method Restore(r: S.Session)
      requires Valid()
      modifies this`sessions, this`db, this`all, this`mem
      ensures Valid()
      ensures State() == S.Kept(old(State()), r)
    {
      var s := new Session(r.apiKey, r.accessToken, r.userId, r.createdAt, r.lastRequest, r.ttl, r.v, false);
      Save(s);
      sessions := sessions[s.apiKey := s];
      all := all + {s};
      mem := mem[s.apiKey := s.value];
    }
  }

  /** The connections of a session as its JSON encoding carries them. */
  function Encoded(s: Session): (r: seq<S.Conn>)
    reads s, s.connections
    ensures s.Valid() ==> r == s.value.connections
  {
    seq(|s.connections|, i requires 0 <= i < |s.connections| reads s, s.connections =>
      S.Conn(s.connections[i].connId, s.connections[i].subs))
  }
}
