/** What each operation of the session store does to memory, to the database and to the deletions still to come,
    field by field and for every key. */
module SessionEffects {
  import opened SessionSpec

  /** In every reachable state memory and database have the same keys, and the record of a session has its key, token,
      user, connections with all their subscriptions, last request and expiry, and its version or the one before. */
  lemma RecordFields(steps: seq<Step>, k: Text)
    ensures var st := After(Init(), steps);
      && (k in st.mem <==> k in st.db)
      && (k in st.mem ==>
            var s, r := st.mem[k], st.db[k];
            && s.apiKey == k && r.apiKey == k
            && r.accessToken == s.accessToken && r.userId == s.userId
            && r.connections == s.connections
            && r.lastRequest == s.lastRequest && r.ttl == s.ttl
            && (r.v == s.v || r.v == s.v - 1))
  {
    RunAgreed(Init(), steps);
  }

  /** Nothing changed at any other key. */
  predicate OnlyAt(st: State, after: State, key: Text) {
    && after.mem - {key} == st.mem - {key}
    && after.db - {key} == st.db - {key}
  }

  /** The session keeps what no operation on its connections touches. */
  predicate SameSession(s: Session, after: Session) {
    && after.apiKey == s.apiKey && after.accessToken == s.accessToken && after.userId == s.userId
    && after.createdAt == s.createdAt && after.lastRequest == s.lastRequest && after.ttl == s.ttl
  }

  /** The record was written with the session's new connections, and only then did the version go up. */
  predicate Saved(s: Session, after: Session, record: Session) {
    && SameSession(s, after) && after.v == s.v + 1
    && record.apiKey == s.apiKey && record.accessToken == s.accessToken && record.userId == s.userId
    && record.connections == after.connections
    && record.lastRequest == s.lastRequest && record.ttl == s.ttl && record.v == s.v
  }

  /** `New`: a session with the token, the user, no connections, the time of creation and the expiry; version 1 in
      memory and 0 in its record. */
  lemma CreateEffect(st: State, id: Text, token: Text, user: Json, at: int, expires: int)
    ensures var after := Apply(st, Create(id, token, user, at, expires));
      && OnlyAt(st, after, id) && after.pending == st.pending
      && id in after.mem && id in after.db
      && var s, r := after.mem[id], after.db[id];
         && s.apiKey == id && s.accessToken == token && s.userId == user && s.connections == []
         && s.createdAt == at && s.ttl == expires && s.v == 1
         && r.apiKey == id && r.accessToken == token && r.userId == user && r.connections == []
         && r.ttl == expires && r.v == 0
  {
  }

  /** A subscription of a session that is there: in the map of its connections the address has the new setting, in a
      connection that is made if there was none; the record shows the same. */
  lemma SubscribeEffect(st: State, key: Text, connId: Text, uri: Text, extra: Json)
    requires Agreed(st) && key in st.mem
    ensures var after := Apply(st, Subscribe(key, connId, uri, extra));
      var before := AsMap(st.mem[key].connections);
      && OnlyAt(st, after, key) && after.pending == st.pending
      && key in after.mem && key in after.db && Saved(st.mem[key], after.mem[key], after.db[key])
      && AsMap(after.mem[key].connections)
         == before[connId := (if connId in before then before[connId] else map[])[uri := extra]]
  {
    SubscribedIsInsert(st.mem[key].connections, connId, uri, extra);
  }

  lemma UnsubscribeEffect(st: State, key: Text, connId: Text, uri: Text)
    requires Agreed(st) && key in st.mem
    ensures var after := Apply(st, Unsubscribe(key, connId, uri));
      var before := AsMap(st.mem[key].connections);
      if connId in before then
        && OnlyAt(st, after, key) && after.pending == st.pending
        && key in after.mem && key in after.db && Saved(st.mem[key], after.mem[key], after.db[key])
        && AsMap(after.mem[key].connections) == before[connId := before[connId] - {uri}]
      else after == st
  {
    AsMapAt(st.mem[key].connections, connId);
    UnsubscribedIsRemove(st.mem[key].connections, connId, uri);
  }

  /** A disconnect saves and counts up even when the connection is not there. */
  lemma DisconnectEffect(st: State, key: Text, connId: Text)
    requires Agreed(st) && key in st.mem
    ensures var after := Apply(st, Disconnect(key, connId));
      && OnlyAt(st, after, key) && after.pending == st.pending
      && key in after.mem && key in after.db && Saved(st.mem[key], after.mem[key], after.db[key])
      && AsMap(after.mem[key].connections) == AsMap(st.mem[key].connections) - {connId}
  {
    DisconnectedIsForget(st.mem[key].connections, connId);
  }

  /** Nothing is found under a key that is not in memory, and nothing changes. */
  lemma MissingEffect(st: State, key: Text, connId: Text, uri: Text, extra: Json)
    requires key !in st.mem
    ensures Apply(st, Subscribe(key, connId, uri, extra)) == st
    ensures Apply(st, Unsubscribe(key, connId, uri)) == st && Apply(st, Disconnect(key, connId)) == st
  {
  }

  /** A deletion by key, at once or as one of the pending ones. */
  lemma DeleteEffect(st: State, key: Text)
    ensures var after := Apply(st, DeleteKey(key));
      OnlyAt(st, after, key) && key !in after.mem && key !in after.db && after.pending == st.pending
    ensures var after := Apply(st, RunPending(key));
      if st.pending[key] > 0 then
        && OnlyAt(st, after, key) && key !in after.mem && key !in after.db
        && forall k :: after.pending[k] == if k == key then st.pending[k] - 1 else st.pending[k]
      else after == st
  {
  }

  /** `DeleteAllForUser` starts one deletion for each session of the user, and none for any other. */
  lemma DeleteForUserEffect(st: State, user: Json, k: Text)
    ensures var after := Apply(st, DeleteForUser(user));
      && after.mem == st.mem && after.db == st.db
      && after.pending[k] == st.pending[k] + if k in st.mem && st.mem[k].userId == user then 1 else 0
  {
  }

  /** Every session loses its connections and is saved without them; versions stay, so record and session are equal in
      version as well. */
  lemma DropConnectionsEffect(st: State, k: Text)
    requires Agreed(st)
    ensures var after := Apply(st, DropConnections);
      && (k in after.mem <==> k in st.mem) && (k in after.db <==> k in st.db) && after.pending == st.pending
      && (k in st.mem ==>
            var s, r := after.mem[k], after.db[k];
            && SameSession(st.mem[k], s) && s.v == st.mem[k].v && s.connections == []
            && r.apiKey == k && r.accessToken == s.accessToken && r.userId == s.userId && r.connections == []
            && r.lastRequest == s.lastRequest && r.ttl == s.ttl && r.v == s.v)
  {
  }

  /** The two other steps, on values: a sweep at `at`, and a restart at `at`. */
  lemma SweepEffect(st: State, at: int, k: Text)
    requires Agreed(st)
    ensures var after := Apply(st, Sweep(at));
      && (k in after.mem <==> k in st.mem && st.mem[k].ttl >= at)
      && (k in after.db <==> k in st.db && st.db[k].ttl >= at)
      && (k in after.mem ==> after.mem[k] == st.mem[k] && after.db[k] == st.db[k])
      && after.pending == st.pending
  {
  }

  /** A record that is not expired comes back as it is, but without connections, and is saved like that; the pending
      deletions are forgotten. */
  lemma RestartEffect(st: State, at: int, k: Text)
    ensures var after := Apply(st, Restart(at));
      && (k in after.mem <==> k in st.db && st.db[k].ttl >= at) && (k in after.db <==> k in after.mem)
      && (k in after.mem ==>
            var r, s := st.db[k], after.mem[k];
            && SameSession(r, s) && s.v == r.v && s.connections == []
            && after.db[k].connections == [] && after.db[k].accessToken == r.accessToken && after.db[k].ttl == r.ttl)
      && after.pending[k] == 0
  {
  }
}
