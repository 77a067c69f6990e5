/** internal/api/server.go and internal/api/traffic.go: the server whose methods are the steps of
    Plane. Agents are an oracle that accepts or refuses a PUT. */
module Server {
  import opened Entitlement
  import opened Period
  import opened Storage
  import opened Stack
  import opened Desired
  import opened Plane
  import opened Polling
  import opened Settings
  import opened Text

  datatype StoreError = NotFound | Conflict

  /** Pushing one more group after others is pushing them all. */
  lemma PushOneMore(p: Plane, gs: set<GroupId>, acked: set<(GroupId, NodeId)>, m: Plane, g: GroupId,
                    more: set<(GroupId, NodeId)>, q: Plane)
    requires Pushed(p, gs, acked, m) && Pushed(m, {g}, more, q) && g !in gs
    ensures Pushed(p, gs + {g}, acked + more, q)
  {
    assert forall n :: Acked(acked + more, n) <==> Acked(acked, n) || Acked(more, n);
    assert forall a :: a in more ==> a.0 == g;
    forall h ensures h in Cleared(p.db, gs + {g}, acked + more)
        <==> h in Cleared(p.db, gs, acked) || h in Cleared(p.db, {g}, more)
    {
      if h in gs {
        assert forall n :: (h, n) in acked + more <==> (h, n) in acked;
      } else if h == g {
        assert forall n :: (h, n) in acked + more <==> (h, n) in more;
      }
    }
  }

  lemma {:induction false} CollectStep(db: Db, readings: seq<Reading>, r: Reading, now: Time)
    ensures CollectedDb(db, readings + [r]) == Credited(CollectedDb(db, readings), r.key, r.uplink, r.downlink)
    ensures Crossings(db, readings + [r], now)
            == Crossings(db, readings, now) + Crossings(CollectedDb(db, readings), [r], now)
  {
    assert (readings + [r])[..|readings|] == readings;
    assert [r][..0] == [];
    assert CollectedDb(CollectedDb(db, readings), []) == CollectedDb(db, readings);
    assert Crossings(CollectedDb(db, readings), [], now) == {};
  }

  function RowIds(rows: seq<Row>): set<UserId> {
    set r | r in rows :: r.id
  }

  function GroupIds(rows: seq<GroupRows>): set<GroupId> {
    set r | r in rows :: r.gid
  }

  ghost predicate UpdatedBy<D>(was: map<NodeId, D>, ok: set<NodeId>, isNew: (NodeId, D) -> bool, docs: map<NodeId, D>) {
    docs.Keys == was.Keys + ok
    && forall n :: n in docs ==> if n in ok then isNew(n, docs[n]) else docs[n] == was[n]
  }

  lemma UpdatedOneMore<D>(was: map<NodeId, D>, ok: set<NodeId>, isNew: (NodeId, D) -> bool, docs: map<NodeId, D>,
                          n: NodeId, doc: D)
    requires UpdatedBy(was, ok, isNew, docs) && isNew(n, doc)
    ensures UpdatedBy(was, ok + {n}, isNew, docs[n := doc])
  {
  }

  ghost function IsFresh(p: Plane): (NodeId, Doc) -> bool {
    (n: NodeId, doc: Doc) => Fresh(p.db, n, p.now, doc)
  }

  /** Documents after the applies to the nodes in ok were accepted and others refused. */
  ghost predicate DocsAfter(p: Plane, ok: set<NodeId>, docs: map<NodeId, Doc>) {
    UpdatedBy(p.docs, ok, IsFresh(p), docs)
  }

  function Pairs(g: GroupId, ok: set<NodeId>): set<(GroupId, NodeId)> {
    set n | n in ok :: (g, n)
  }

  lemma PairsAre(g: GroupId, ok: set<NodeId>)
    ensures forall a :: a in Pairs(g, ok) <==> a.0 == g && a.1 in ok
    ensures forall n :: Acked(Pairs(g, ok), n) <==> n in ok
  {
    forall n | n in ok ensures Acked(Pairs(g, ok), n) {
      assert (g, n) in Pairs(g, ok);
    }
  }

  lemma PairsClear(db: Db, g: GroupId, ok: set<NodeId>)
    requires ok <= db.NodesOf(g)
    ensures Cleared(db, {g}, Pairs(g, ok)) == if ok == db.NodesOf(g) then {g} else {}
  {
    PairsAre(g, ok);
    if ok != db.NodesOf(g) {
      var n :| n in db.NodesOf(g) && n !in ok;
      assert (g, n) !in Pairs(g, ok);
    }
  }

  lemma DocsAfterIsPushed(p: Plane, g: GroupId, ok: set<NodeId>, owed: bool, q: Plane)
    requires DocsAfter(p, ok, q.docs) && ok <= p.db.NodesOf(g) && (owed <==> ok != p.db.NodesOf(g))
    requires q == p.(docs := q.docs, pending := if owed then p.pending + {g} else p.pending - {g})
    ensures Pushed(p, {g}, Pairs(g, ok), q)
  {
    PairsAre(g, ok);
    PairsClear(p.db, g, ok);
  }

  lemma RowIdsAppend(rows: seq<Row>, r: Row)
    ensures RowIds(rows + [r]) == RowIds(rows) + {r.id}
    ensures forall i :: 0 <= i < |rows| ==> rows[i].id in RowIds(rows)
  {
    forall id | id in RowIds(rows) + {r.id} ensures id in RowIds(rows + [r]) {
      if id == r.id {
        assert r in rows + [r];
      } else {
        var x :| x in rows && x.id == id;
        assert x in rows + [r];
      }
    }
  }

  lemma GroupIdsAppend(rows: seq<GroupRows>, r: GroupRows)
    ensures GroupIds(rows + [r]) == GroupIds(rows) + {r.gid}
    ensures forall i :: 0 <= i < |rows| ==> rows[i].gid in GroupIds(rows)
  {
    forall g | g in GroupIds(rows) + {r.gid} ensures g in GroupIds(rows + [r]) {
      if g == r.gid {
        assert r in rows + [r];
      } else {
        var x :| x in rows && x.gid == g;
        assert x in rows + [r];
      }
    }
  }

  lemma SubsetSize<T>(a: set<T>, b: set<T>)
    requires a <= b
    ensures |a| <= |b| && (|a| == |b| <==> a == b)
  {
    assert b == a + (b - a);
    assert |b| == |a| + |b - a|;
  }

  lemma {:induction false} PairsCount(g: GroupId, ok: set<NodeId>)
    ensures |Pairs(g, ok)| == |ok|
  {
    if n :| n in ok {
      PairsCount(g, ok - {n});
      assert (g, n) !in Pairs(g, ok - {n});
      assert Pairs(g, ok) == Pairs(g, ok - {n}) + {(g, n)};
    }
  }

  /** Groups of the users of done whose counters a sweep clears. */
  function ZeroedGroups(users: map<UserId, User>, done: set<UserId>, now: Time): set<GroupId> {
    set id | id in done && id in users && ZeroDue(users[id], now) :: users[id].group
  }

  lemma ZeroedMore(users: map<UserId, User>, done: set<UserId>, id: UserId, now: Time)
    requires id in users
    ensures ZeroedGroups(users, done + {id}, now)
            == ZeroedGroups(users, done, now) + if ZeroDue(users[id], now) then {users[id].group} else {}
  {
    var more := ZeroedGroups(users, done + {id}, now);
    if ZeroDue(users[id], now) {
      assert users[id].group in more;
    }
  }

  /** Users outside todo have had their quota step, the others have not. */
  ghost predicate QuotaSweptBut(was: map<UserId, User>, users: map<UserId, User>, todo: set<UserId>, now: Time) {
    users.Keys == was.Keys
    && forall id :: id in was ==> users[id] == if id in todo then was[id] else QuotaSwept(was[id], now)
  }

  lemma QuotaSweptMore(was: map<UserId, User>, users: map<UserId, User>, todo: set<UserId>, id: UserId, now: Time)
    requires QuotaSweptBut(was, users, todo, now) && id in todo && id in was
    ensures users[id] == was[id] && QuotaSwept(was[id], now).group == was[id].group
    ensures QuotaSweptBut(was, users[id := QuotaSwept(users[id], now)], todo - {id}, now)
  {
  }

  lemma QuotaSweptAll(was: map<UserId, User>, users: map<UserId, User>, now: Time)
    requires QuotaSweptBut(was, users, {}, now)
    ensures users == map id | id in was :: QuotaSwept(was[id], now)
  {
  }

  /** What the resampling of a swept plane finds is what SweepGroups asks for. */
  lemma SweptCrossings(p: Plane, crossed: set<GroupId>)
    requires var users := Swept(p).db.users;
             crossed == set id | id in users && Crossed(p.sampled, id, users[id].EntitledAt(p.now)) :: users[id].group
    ensures ZeroedGroups(p.db.users, p.db.users.Keys, p.now) + crossed + p.pending == SweepGroups(p)
  {
    var users := Swept(p).db.users;
    assert forall id :: id in p.db.users ==>
      users[id] == QuotaSwept(p.db.users[id], p.now) && users[id].group == p.db.users[id].group;
    assert crossed == set id |
                        id in p.db.users && Crossed(p.sampled, id, QuotaSwept(p.db.users[id], p.now).EntitledAt(p.now))
                        :: p.db.users[id].group;
  }

  /** One PUT of a document to a node's agent, and whether the agent accepted it. */
  datatype Put = Put(node: NodeId, doc: Doc, ok: bool)

  /** Nothing stops an apply of the node before its agent is asked. */
  ghost predicate Deployable(db: Db, n: NodeId) {
    n in db.nodes && ApplyBlock(db.nodes[n]).None? && db.nodes[n].groups <= db.groups.Keys
  }

  /** The Xray part of a document, if any, has the stored REALITY keys, which are all set. */
  predicate HasKeys(doc: Doc, table: RealityKeys) {
    doc.xray.Some? ==>
      KeysSet(table)
      && doc.xray.value.reality.privateKey == TrimSpace(table.privateKey)
      && doc.xray.value.reality == Carried(table)
  }

  /** Every PUT was to a deployable node of nids, of a document with the stored keys. */
  ghost predicate PutsAre(db: Db, nids: set<NodeId>, puts: seq<Put>, table: RealityKeys) {
    forall i :: 0 <= i < |puts| ==> puts[i].node in nids && Deployable(db, puts[i].node) && HasKeys(puts[i].doc, table)
  }

  /** One of the PUTs was to this node and had this answer. */
  ghost predicate Answered(puts: seq<Put>, n: NodeId, ok: bool) {
    exists i :: 0 <= i < |puts| && puts[i].node == n && puts[i].ok == ok
  }

  /** The nodes in ok are those of nids whose agent was asked and accepted; every deployable one was
      asked, once. */
  ghost predicate Asked(db: Db, nids: set<NodeId>, ok: set<NodeId>, puts: seq<Put>) {
    ok <= nids
    && (forall n :: n in nids ==> if Deployable(db, n) then Answered(puts, n, n in ok) else n !in ok)
    && forall i, j :: 0 <= i < j < |puts| ==> puts[i].node != puts[j].node
  }

  /** The accepted applies of a push of groups gs, by what the agents answered: each names a deployable
      node that accepted a PUT, every other deployable node of a group refused one, every PUT was of a
      document with the stored keys, and such a document is on each node that accepted. */
  ghost predicate PushedBy(db: Db, gs: set<GroupId>, acked: set<(GroupId, NodeId)>, puts: seq<Put>,
                           table: RealityKeys, docs: map<NodeId, Doc>) {
    (forall g, n :: g in gs && n in db.NodesOf(g) && Deployable(db, n) ==> Answered(puts, n, (g, n) in acked))
    && (forall a :: a in acked ==> Deployable(db, a.1) && a.1 in docs && HasKeys(docs[a.1], table))
    && forall i :: 0 <= i < |puts| ==>
         HasKeys(puts[i].doc, table) && Deployable(db, puts[i].node)
         && exists g :: g in gs && puts[i].node in db.NodesOf(g)
  }

  lemma CompiledIsFresh(db: Db, n: NodeId, rows: seq<GroupRows>, keys: RealityKeys, table: RealityKeys, now: Time,
                        doc: Doc)
    requires n in db.nodes && SnapshotOf(db, db.nodes[n], rows) && Compile(db.nodes[n], rows, keys, now) == Ok(doc)
    requires ServesXray(db.nodes[n]) ==>
               KeysSet(table) && keys == Carried(table) && keys.privateKey == TrimSpace(table.privateKey)
    ensures Fresh(db, n, now, doc) && FreshWith(db, n, now, Carried(table), doc) && HasKeys(doc, table)
  {
    assert Compile(db.nodes[n], rows, Carried(table), now) == Ok(doc);
  }

  /** Documents pushed earlier still have the stored keys, which change only while they are not all set. */
  lemma KeysStayPut(db: Db, nids: set<NodeId>, puts: seq<Put>, was: RealityKeys, table: RealityKeys)
    requires PutsAre(db, nids, puts, was) && (KeysSet(was) ==> table == was)
    ensures PutsAre(db, nids, puts, table)
  {
  }

  /** The applies to the nodes in nids so far. */
  ghost predicate AppliedTo(db: Db, nids: set<NodeId>, ok: set<NodeId>, puts: seq<Put>, table: RealityKeys,
                            docs: map<NodeId, Doc>) {
    Asked(db, nids, ok, puts) && PutsAre(db, nids, puts, table)
    && forall n :: n in ok ==> n in docs && HasKeys(docs[n], table)
  }

  /** One more node that is not deployable. */
  lemma OneMoreUnasked(db: Db, nids: set<NodeId>, ok: set<NodeId>, puts: seq<Put>, table: RealityKeys,
                       docs: map<NodeId, Doc>, n: NodeId)
    requires AppliedTo(db, nids, ok, puts, table, docs) && n !in nids && !Deployable(db, n)
    ensures AppliedTo(db, nids + {n}, ok, puts, table, docs)
  {
  }

  /** One more node whose agent was asked. */
  lemma OneMoreAsked(db: Db, nids: set<NodeId>, ok: set<NodeId>, puts: seq<Put>, was: RealityKeys,
                     docs: map<NodeId, Doc>, put: Put, table: RealityKeys, docs': map<NodeId, Doc>)
    requires AppliedTo(db, nids, ok, puts, was, docs) && put.node !in nids && Deployable(db, put.node)
    requires HasKeys(put.doc, table) && (KeysSet(was) ==> table == was)
    requires docs' == if put.ok then docs[put.node := put.doc] else docs
    ensures AppliedTo(db, nids + {put.node}, if put.ok then ok + {put.node} else ok, puts + [put], table, docs')
  {
    AskedOneMore(db, nids, ok, puts, put.node, put);
    KeysStayPut(db, nids, puts, was, table);
  }

  lemma AskedOneMore(db: Db, nids: set<NodeId>, ok: set<NodeId>, puts: seq<Put>, n: NodeId, put: Put)
    requires Asked(db, nids, ok, puts) && n !in nids && put.node == n && Deployable(db, n)
    requires forall i :: 0 <= i < |puts| ==> puts[i].node in nids
    ensures Asked(db, nids + {n}, if put.ok then ok + {n} else ok, puts + [put])
  {
    var after := if put.ok then ok + {n} else ok;
    forall m | m in nids + {n} && Deployable(db, m) ensures Answered(puts + [put], m, m in after) {
      if m in nids {
        var i :| 0 <= i < |puts| && puts[i].node == m && puts[i].ok == (m in ok);
        assert (puts + [put])[i] == puts[i];
      } else {
        assert (puts + [put])[|puts|] == put;
      }
    }
  }

  lemma AppliedIsPushedBy(db: Db, g: GroupId, ok: set<NodeId>, puts: seq<Put>, table: RealityKeys,
                          docs: map<NodeId, Doc>)
    requires AppliedTo(db, db.NodesOf(g), ok, puts, table, docs)
    ensures PushedBy(db, {g}, Pairs(g, ok), puts, table, docs)
  {
    PairsAre(g, ok);
    forall n | n in db.NodesOf(g) ensures (g, n) in Pairs(g, ok) <==> n in ok {
    }
  }

  lemma Since<T>(a: seq<T>, b: seq<T>, c: seq<T>)
    requires a <= b <= c
    ensures c[|a|..] == b[|a|..] + c[|b|..]
  {
  }

  lemma PairsOfOthers(done: set<GroupId>, acked: set<(GroupId, NodeId)>, g: GroupId, more: set<(GroupId, NodeId)>)
    requires (forall a :: a in acked ==> a.0 in done) && (forall a :: a in more ==> a.0 == g) && g !in done
    ensures acked !! more && |acked + more| == |acked| + |more|
  {
  }

  /** Pushing one more group after others, by what the agents answered. */
  lemma PushedByOneMore(db: Db, gs: set<GroupId>, acked: set<(GroupId, NodeId)>, puts: seq<Put>, was: RealityKeys,
                        docs: map<NodeId, Doc>, g: GroupId, more: set<(GroupId, NodeId)>, further: seq<Put>,
                        table: RealityKeys, docs': map<NodeId, Doc>)
    requires PushedBy(db, gs, acked, puts, was, docs) && PushedBy(db, {g}, more, further, table, docs')
    requires g !in gs && (forall a :: a in acked ==> a.0 in gs) && forall a :: a in more ==> a.0 == g
    requires KeysSet(was) ==> table == was
    requires forall n :: n in docs ==> n in docs' && (docs'[n] == docs[n] || Acked(more, n))
    ensures PushedBy(db, gs + {g}, acked + more, puts + further, table, docs')
  {
    var all := puts + further;
    forall h, n | h in gs + {g} && n in db.NodesOf(h) && Deployable(db, n)
      ensures Answered(all, n, (h, n) in acked + more)
    {
      if h in gs {
        assert (h, n) in acked + more <==> (h, n) in acked;
        var i :| 0 <= i < |puts| && puts[i].node == n && puts[i].ok == ((h, n) in acked);
        assert all[i] == puts[i];
      } else {
        assert (h, n) in acked + more <==> (h, n) in more;
        var i :| 0 <= i < |further| && further[i].node == n && further[i].ok == ((h, n) in more);
        assert all[|puts| + i] == further[i];
      }
    }
    forall i | 0 <= i < |all| ensures HasKeys(all[i].doc, table) && Deployable(db, all[i].node)
                                      && exists h :: h in gs + {g} && all[i].node in db.NodesOf(h)
    {
      if i < |puts| {
        assert all[i] == puts[i];
        var h :| h in gs && puts[i].node in db.NodesOf(h);
        assert h in gs + {g};
      } else {
        assert all[i] == further[i - |puts|] && g in gs + {g};
      }
    }
    forall a | a in acked + more ensures Deployable(db, a.1) && a.1 in docs' && HasKeys(docs'[a.1], table) {
      if a !in more {
        if Acked(more, a.1) {
          var b :| b in more && b.1 == a.1;
        }
      }
    }
  }

  class Server {
    const store: Store
    const settings: SettingsTable
    var pendingKicks: set<GroupId>
    var entitled: map<UserId, bool>
    ghost var accepted: map<NodeId, Doc>
    ghost var home: map<UserId, GroupId>
    /** Every PUT so far. */
    ghost var puts: seq<Put>

    /** A plane start: the tables and the agents outlive the process, its memory does not. */
    constructor (store: Store, settings: SettingsTable, ghost accepted: map<NodeId, Doc>,
                 ghost home: map<UserId, GroupId>)
      ensures this.store == store && this.settings == settings && this.accepted == accepted && this.home == home
      ensures pendingKicks == {} && entitled == map[] && puts == []
    {
      this.store, this.settings, puts := store, settings, [];
      pendingKicks := {};
      entitled := map[];
      this.accepted := accepted;
      this.home := home;
    }

    ghost function View(now: Time): Plane
      reads this, store
    {
      Plane(store.View(), pendingKicks, entitled, accepted, home, now)
    }

    /** REALITY keys that were all set are as they were. */
    twostate predicate KeepsKeys()
      reads settings
    {
      KeysSet(old(settings.table)) ==> settings.table == old(settings.table)
    }

    /** The PUTs made since are those of a push of groups gs. */
    twostate predicate Pushes(gs: set<GroupId>, new acked: set<(GroupId, NodeId)>)
      reads this, store, settings
    {
      KeepsKeys() && old(puts) <= puts
      && PushedBy(store.View(), gs, acked, puts[|old(puts)|..], settings.table, accepted)
    }

    /** One PUT of a fresh document with the stored keys was made, and ok is its answer; or the node is
        not deployable and none was. */
    twostate predicate Applies(n: NodeId, ok: bool, now: Time)
      reads this, store, settings
    {
      KeepsKeys()
      && if Deployable(store.View(), n) then
           exists doc :: puts == old(puts) + [Put(n, doc, ok)] && HasKeys(doc, settings.table)
                         && FreshWith(store.View(), n, now, Carried(settings.table), doc)
                         && (ok ==> n in accepted && accepted[n] == doc)
         else !ok && puts == old(puts) && settings.table == old(settings.table)
    }

    /** Users of a group, in whatever order the database returns them. */
    method UsersInGroup(g: GroupId) returns (rows: seq<Row>)
      requires g in store.groups
      ensures GroupSnapshot(store.View(), GroupRows(g, store.groups[g].protocols, rows))
    {
      var all := set id | id in store.users && store.users[id].group == g && store.users[id].status == "active";
      var todo := all;
      rows := [];
      while todo != {}
        invariant todo <= all
        invariant RowIds(rows) == all - todo
        invariant forall i :: 0 <= i < |rows| ==> rows[i].id in all && rows[i].user == store.users[rows[i].id]
        invariant forall i, j :: 0 <= i < j < |rows| ==> rows[i].id != rows[j].id
        decreases todo
      {
        var id :| id in todo;
        RowIdsAppend(rows, Row(id, store.users[id]));
        rows := rows + [Row(id, store.users[id])];
        todo := todo - {id};
      }
      forall id | id in store.users && store.users[id].group == g && store.users[id].status == "active"
        ensures exists i :: 0 <= i < |rows| && rows[i].id == id
      {
        assert id in RowIds(rows);
      }
    }

    /** The tables as one apply of node n reads them; false when a group row is missing. */
    method ReadRows(n: NodeId) returns (ok: bool, rows: seq<GroupRows>)
      requires n in store.nodes
      ensures ok <==> store.nodes[n].groups <= store.groups.Keys
      ensures ok ==> SnapshotOf(store.View(), store.nodes[n], rows)
    {
      var all := store.nodes[n].groups;
      var todo := all;
      rows := [];
      while todo != {}
        invariant todo <= all
        invariant GroupIds(rows) == all - todo
        invariant forall i :: 0 <= i < |rows| ==> GroupSnapshot(store.View(), rows[i])
        invariant forall i, j :: 0 <= i < j < |rows| ==> rows[i].gid != rows[j].gid
        decreases todo
      {
        var g :| g in todo;
        if g !in store.groups {
          return false, [];
        }
        var users := UsersInGroup(g);
        GroupIdsAppend(rows, GroupRows(g, store.groups[g].protocols, users));
        rows := rows + [GroupRows(g, store.groups[g].protocols, users)];
        todo := todo - {g};
      }
      forall g ensures g in all <==> exists i :: 0 <= i < |rows| && rows[i].gid == g {
        if g in all {
          assert g in GroupIds(rows);
        }
        assert forall i :: 0 <= i < |rows| ==> rows[i].gid in GroupIds(rows);
      }
      ok := true;
    }

    /** PUT /v1/desired: accepted documents replace the node's, refused ones leave it. */
    method PutDesired(n: NodeId, doc: Doc) returns (ok: bool)
      modifies this`accepted, this`puts
      ensures accepted == if ok then old(accepted)[n := doc] else old(accepted)
      ensures puts == old(puts) + [Put(n, doc, ok)]
    {
      ok := *;
      if ok {
        accepted := accepted[n := doc];
      }
      puts := puts + [Put(n, doc, ok)];
    }

    /** ensureReality, called only for a document with an Xray part. */
    method KeysFor(n: NodeId, made: RealityKeys) returns (keys: RealityKeys)
      requires n in store.nodes && Generated(made)
      modifies settings
      ensures settings.table == if ServesXray(store.nodes[n]) then Ensured(old(settings.table), made)
                                else old(settings.table)
      ensures KeysSet(old(settings.table)) ==> settings.table == old(settings.table)
      ensures ServesXray(store.nodes[n]) ==> KeysSet(settings.table) && keys == Carried(settings.table)
                                             && keys.privateKey == TrimSpace(settings.table.privateKey)
    {
      keys := EMPTY;
      if ServesXray(store.nodes[n]) {
        keys := settings.EnsureReality(made);
      }
    }

    /** The node's agent is asked exactly when nothing stops the apply before, with a fresh document that
        has the stored keys, and its answer is the outcome. */
    method ApplyStoredNode(n: NodeId, made: RealityKeys, now: Time) returns (ok: bool)
      requires n in store.nodes && Generated(made)
      modifies this`accepted, this`puts, settings
      ensures Refreshed(old(View(now)), n, ok, View(now))
      ensures Applies(n, ok, now)
    {
      var found, rows := ReadRows(n);
      if !found {
        return false;
      }
      if ApplyBlock(store.nodes[n]).Some? {
        return false;
      }
      var keys := KeysFor(n, made);
      var doc := CompileDoc(store.nodes[n], rows, keys, now);
      if doc.Err? {
        return false;
      }
      CompiledIsFresh(store.View(), n, rows, keys, settings.table, now, doc.value);
      ok := PutDesired(n, doc.value);
    }

    /** The applies to the nodes in done since the plane was p, with these PUTs and settings before. */
    ghost predicate Applied(p: Plane, before: seq<Put>, table: RealityKeys, done: set<NodeId>, ok: set<NodeId>)
      reads this, store, settings
    {
      View(p.now) == p.(docs := accepted) && DocsAfter(p, ok, accepted) && ok <= done
      && (KeysSet(table) ==> settings.table == table)
      && before <= puts && AppliedTo(p.db, done, ok, puts[|before|..], settings.table, accepted)
    }

    /** Apply nodes one after another; ok are those that accepted. */
    method ApplyNodes(nids: set<NodeId>, made: RealityKeys, now: Time) returns (ok: set<NodeId>)
      requires nids <= store.nodes.Keys && Generated(made)
      modifies this`accepted, this`puts, settings
      ensures Applied(old(View(now)), old(puts), old(settings.table), nids, ok)
    {
      ghost var p, before, table := View(now), puts, settings.table;
      var todo := nids;
      ok := {};
      while todo != {}
        invariant todo <= nids && Applied(p, before, table, nids - todo, ok)
        decreases todo
      {
        var n :| n in todo;
        assert nids - (todo - {n}) == nids - todo + {n};
        ok := ApplyOneMore(n, made, now, ok, p, before, table, nids - todo);
        todo := todo - {n};
      }
      assert nids - todo == nids;
    }

    /** One apply after those to the nodes in done. */
    method ApplyOneMore(n: NodeId, made: RealityKeys, now: Time, ok: set<NodeId>, ghost p: Plane,
                        ghost before: seq<Put>, ghost table: RealityKeys, ghost done: set<NodeId>)
      returns (ok': set<NodeId>)
      requires n in store.nodes && n !in done && Generated(made) && now == p.now
      requires Applied(p, before, table, done, ok)
      modifies this`accepted, this`puts, settings
      ensures Applied(p, before, table, done + {n}, ok')
    {
      ghost var docs, was, mid := accepted, settings.table, puts;
      ghost var first := mid[|before|..];
      var good := ApplyStoredNode(n, made, now);
      ok' := if good then ok + {n} else ok;
      if good {
        UpdatedOneMore(p.docs, ok, IsFresh(p), docs, n, accepted[n]);
      }
      Since(before, mid, puts);
      if Deployable(store.View(), n) {
        ghost var put := puts[|mid|];
        assert puts[|mid|..] == [put];
        OneMoreAsked(p.db, done, ok, first, was, docs, put, settings.table, accepted);
      } else {
        assert puts[|mid|..] == [];
        OneMoreUnasked(p.db, done, ok, first, was, accepted, n);
      }
    }

    method NodesInGroup(g: GroupId) returns (nids: set<NodeId>)
      ensures nids == store.View().NodesOf(g)
    {
      nids := set n | n in store.nodes && g in store.nodes[n].groups;
    }

    /** markKick, or clearKick. */
    method SetKick(g: GroupId, owed: bool)
      modifies this`pendingKicks
      ensures pendingKicks == if owed then old(pendingKicks) + {g} else old(pendingKicks) - {g}
    {
      if owed {
        pendingKicks := pendingKicks + {g};
      } else {
        pendingKicks := pendingKicks - {g};
      }
    }

    /** Push a group to all its nodes; the group stays pending unless every node accepted. */
    method ApplyGroupNodes(g: GroupId, made: RealityKeys, now: Time)
      returns (applied: nat, ghost acked: set<(GroupId, NodeId)>)
      requires Generated(made)
      modifies this`accepted, this`puts, this`pendingKicks, settings
      ensures Pushed(old(View(now)), {g}, acked, View(now)) && applied == |acked|
      ensures Pushes({g}, acked)
    {
      ghost var p := View(now);
      var nids := NodesInGroup(g);
      ghost var before := puts;
      var ok := ApplyNodes(nids, made, now);
      SubsetSize(ok, nids);
      var owed := |ok| < |nids|;
      SetKick(g, owed);
      acked := Pairs(g, ok);
      applied := |ok|;
      PairsCount(g, ok);
      DocsAfterIsPushed(p, g, ok, owed, View(now));
      AppliedIsPushedBy(store.View(), g, ok, puts[|before|..], settings.table, accepted);
    }

    /** The pushes of groups gs since the plane was p, with these PUTs and settings before. */
    ghost predicate PushedSince(p: Plane, before: seq<Put>, table: RealityKeys, gs: set<GroupId>,
                                acked: set<(GroupId, NodeId)>)
      reads this, store, settings
    {
      Pushed(p, gs, acked, View(p.now)) && (KeysSet(table) ==> settings.table == table)
      && before <= puts && PushedBy(p.db, gs, acked, puts[|before|..], settings.table, accepted)
    }

    /** applyGroupNodes over a set of groups, in map order. */
    method ApplyGroups(gs: set<GroupId>, made: RealityKeys, now: Time)
      returns (applied: nat, ghost acked: set<(GroupId, NodeId)>)
      requires Generated(made)
      modifies this`accepted, this`puts, this`pendingKicks, settings
      ensures Pushed(old(View(now)), gs, acked, View(now)) && applied == |acked|
      ensures Pushes(gs, acked)
    {
      ghost var p, before, table := View(now), puts, settings.table;
      var todo := gs;
      applied, acked := 0, {};
      while todo != {}
        invariant todo <= gs && applied == |acked|
        invariant PushedSince(p, before, table, gs - todo, acked)
        decreases todo
      {
        var g :| g in todo;
        assert gs - (todo - {g}) == gs - todo + {g};
        applied, acked := ApplyOneGroup(g, made, now, applied, p, before, table, gs - todo, acked);
        todo := todo - {g};
      }
      assert gs - todo == gs;
    }

    /** One group after those in done. */
    method ApplyOneGroup(g: GroupId, made: RealityKeys, now: Time, applied: nat, ghost p: Plane,
                         ghost before: seq<Put>, ghost table: RealityKeys, ghost done: set<GroupId>,
                         ghost acked: set<(GroupId, NodeId)>)
      returns (applied': nat, ghost acked': set<(GroupId, NodeId)>)
      requires g !in done && now == p.now && Generated(made) && applied == |acked|
      requires PushedSince(p, before, table, done, acked)
      modifies this`accepted, this`puts, this`pendingKicks, settings
      ensures PushedSince(p, before, table, done + {g}, acked') && applied' == |acked'|
    {
      ghost var m, was, mid := View(now), settings.table, puts;
      ghost var first := mid[|before|..];
      var n, more := ApplyGroupNodes(g, made, now);
      ghost var further := puts[|mid|..];
      applied', acked' := applied + n, acked + more;
      PairsOfOthers(done, acked, g, more);
      Since(before, mid, puts);
      PushOneMore(p, done, acked, m, g, more, View(now));
      PushedByOneMore(p.db, done, acked, first, was, m.docs, g, more, further, settings.table, accepted);
    }

    method CreditTraffic(r: Reading, now: Time, groups: set<GroupId>) returns (groups': set<GroupId>)
      modifies store`users, store`cursors
      ensures store.View() == Credited(old(store.View()), r.key, r.uplink, r.downlink)
      ensures groups' == groups + Crossings(old(store.View()), [r], now)
    {
      ghost var db := store.View();
      assert [r][..0] == [] && CollectedDb(db, []) == db && Crossings(db, [], now) == {};
      assert CollectedDb(db, [r]) == Credited(db, r.key, r.uplink, r.downlink);
      groups' := groups;
      var was := r.key.user in store.users && store.users[r.key.user].EntitledAt(now);
      var found, up, down := store.ApplyTraffic(r.key, r.uplink, r.downlink);
      if !found {
        return;
      }
      var after := store.users[r.key.user];
      if was && !after.EntitledAt(now) {
        groups' := groups' + {after.group};
      }
    }

    method CreditRows(node: NodeId, source: Source, rows: seq<StatRow>, now: Time, groups: set<GroupId>,
                      ghost db: Db, ghost before: seq<Reading>)
      returns (groups': set<GroupId>)
      requires store.View() == CollectedDb(db, before) && groups == Crossings(db, before, now)
      modifies store`users, store`cursors
      ensures store.View() == CollectedDb(db, before + RowReadings(node, source, rows))
      ensures groups' == Crossings(db, before + RowReadings(node, source, rows), now)
    {
      groups' := groups;
      ghost var done := before;
      for i := 0 to |rows|
        invariant done == before + RowReadings(node, source, rows[..i])
        invariant store.View() == CollectedDb(db, done) && groups' == Crossings(db, done, now)
      {
        assert rows[..i + 1][..i] == rows[..i];
        if rows[i].id.Some? {
          var r := Reading(CursorKey(node, rows[i].id.value, source), rows[i].uplink, rows[i].downlink);
          CollectStep(db, done, r, now);
          groups' := CreditTraffic(r, now, groups');
          done := done + [r];
          assert done == before + RowReadings(node, source, rows[..i + 1]);
        }
      }
      assert rows[..|rows|] == rows;
    }

    /** Credit every answer, and collect the groups of users who crossed out. */
    method CreditAnswers(answers: seq<Answer>, now: Time) returns (groups: set<GroupId>)
      modifies store`users, store`cursors
      ensures store.View() == CollectedDb(old(store.View()), AnswerReadings(answers))
      ensures groups == Crossings(old(store.View()), AnswerReadings(answers), now)
    {
      ghost var db := store.View();
      groups := {};
      for i := 0 to |answers|
        invariant store.View() == CollectedDb(db, AnswerReadings(answers[..i]))
        invariant groups == Crossings(db, AnswerReadings(answers[..i]), now)
      {
        var a := answers[i];
        ghost var before := AnswerReadings(answers[..i]);
        assert answers[..i + 1][..i] == answers[..i];
        groups := CreditRows(a.node, FromXray, a.xray, now, groups, db, before);
        groups := CreditRows(a.node, FromHy2, a.hy2, now, groups, db, before + RowReadings(a.node, FromXray, a.xray));
      }
      assert answers[..|answers|] == answers;
    }

    /** Credit the poll's readings, one for each identified row of the answers, then push the groups of
        users who crossed out. */
    method CollectTraffic(answers: seq<Answer>, made: RealityKeys, now: Time)
      returns (applied: nat, ghost readings: seq<Reading>, ghost acked: set<(GroupId, NodeId)>)
      requires Generated(made)
      modifies this`accepted, this`puts, this`pendingKicks, settings, store`users, store`cursors
      ensures IsPollOf(answers, readings) && Step(old(View(now)), Collect(readings, acked), View(now))
      ensures Pushes(Crossings(old(store.View()), readings, now), acked) && applied == |acked|
    {
      ghost var p := View(now);
      readings := AnswerReadings(answers);
      AnswersAreRead(answers);
      var groups := CreditAnswers(answers, now);
      assert View(now) == p.(db := CollectedDb(p.db, readings));
      applied, acked := ApplyGroups(groups, made, now);
    }

    /** The quota step of one user. */
    method SweepUser(id: UserId, now: Time) returns (zero: bool)
      requires id in store.users
      modifies store`users
      ensures store.users == old(store.users)[id := QuotaSwept(old(store.users)[id], now)]
      ensures zero == ZeroDue(old(store.users)[id], now)
    {
      var u := store.users[id];
      zero := false;
      if PeriodDue(u.quotaReset, u.periodStart, now) {
        var start := PeriodStart(now, u.quotaReset);
        zero := u.periodStart.Some? && u.periodStart.value != ZERO_TIME;
        var _ := store.ResetQuotaPeriod(id, start, zero);
      }
      assert store.users.Keys == old(store.users).Keys;
    }

    /** The quota step of the sweep over all users; reset are the groups whose counters were
        cleared. */
    method SweepQuotas(now: Time) returns (reset: set<GroupId>)
      modifies store`users
      ensures store.View() == AllQuotaSwept(old(store.View()), now)
      ensures reset == ZeroedGroups(old(store.users), old(store.users).Keys, now)
    {
      ghost var was := store.users;
      var todo := store.users.Keys;
      reset := {};
      while todo != {}
        invariant todo <= was.Keys && QuotaSweptBut(was, store.users, todo, now)
        invariant reset == ZeroedGroups(was, was.Keys - todo, now)
        decreases todo
      {
        var id :| id in todo;
        QuotaSweptMore(was, store.users, todo, id, now);
        ZeroedMore(was, was.Keys - todo, id, now);
        assert was.Keys - todo + {id} == was.Keys - (todo - {id});
        todo := todo - {id};
        var zero := SweepUser(id, now);
        if zero {
          reset := reset + {store.users[id].group};
        }
      }
      QuotaSweptAll(was, store.users, now);
      assert was.Keys - todo == was.Keys;
      assert store.users == AllQuotaSwept(old(store.View()), now).users;
    }

    /** Replace the sampled map; crossed are the groups of users whose sample changed, or who are
        new and out. */
    method Resample(now: Time) returns (crossed: set<GroupId>)
      modifies this`entitled
      ensures entitled == Sampling(store.View(), now)
      ensures crossed == set id | id in store.users && Crossed(old(entitled), id, store.users[id].EntitledAt(now))
                           :: store.users[id].group
    {
      var next: map<UserId, bool> := map[];
      var todo := store.users.Keys;
      crossed := {};
      while todo != {}
        invariant todo <= store.users.Keys && next.Keys == store.users.Keys - todo
        invariant forall id :: id in next ==> next[id] == store.users[id].EntitledAt(now)
        invariant crossed == set id | id in store.users.Keys - todo
                  && Crossed(entitled, id, store.users[id].EntitledAt(now))
                               :: store.users[id].group
        decreases todo
      {
        var id :| id in todo;
        todo := todo - {id};
        var ok := store.users[id].EntitledAt(now);
        next := next[id := ok];
        var seen := id in entitled;
        if (!seen && !ok) || (seen && entitled[id] != ok) {
          crossed := crossed + {store.users[id].group};
        }
      }
      entitled := next;
    }

    method SweepEntitlement(made: RealityKeys, now: Time) returns (applied: nat, ghost acked: set<(GroupId, NodeId)>)
      requires Generated(made)
      modifies this`accepted, this`puts, this`pendingKicks, settings, this`entitled, store`users
      ensures Step(old(View(now)), Sweep(acked), View(now))
      ensures Pushes(SweepGroups(old(View(now))), acked) && applied == |acked|
    {
      ghost var p := View(now);
      var groups := SweepQuotas(now);
      var crossed := Resample(now);
      groups := groups + crossed;
      groups := groups + pendingKicks;
      assert View(now) == Swept(p);
      SweptCrossings(p, crossed);
      assert groups == SweepGroups(p);
      applied, acked := ApplyGroups(groups, made, now);
    }

    /** PATCH /v1/users/{id} on the decoded row: push only when an entitlement field was given. */
    method PatchUser(id: UserId, u: User, touches: bool, made: RealityKeys, now: Time)
      returns (applied: nat, ghost acked: set<(GroupId, NodeId)>)
      requires id in store.users && SameAccount(store.users[id], u)
      requires !touches ==> SameEntitlementFields(store.users[id], u)
      requires Generated(made)
      modifies this`accepted, this`puts, this`pendingKicks, settings, store`users
      ensures Step(old(View(now)), Event.PatchUser(id, u, touches, acked), View(now))
      ensures store.users == old(store.users)[id := u]
      ensures Pushes(if touches then {u.group} else {}, acked) && applied == |acked|
    {
      ghost var p := View(now);
      store.users := store.users[id := u];
      assert View(now) == WithUser(p, id, u);
      applied, acked := 0, {};
      if touches {
        applied, acked := ApplyGroupNodes(u.group, made, now);
      }
    }

    method RevokeUser(id: UserId, made: RealityKeys, now: Time)
      returns (applied: nat, ghost acked: set<(GroupId, NodeId)>)
      requires id in store.users && Generated(made)
      modifies this`accepted, this`puts, this`pendingKicks, settings, store`users
      ensures Step(old(View(now)), Event.RevokeUser(id, acked), View(now))
      ensures store.users == old(store.users)[id := old(store.users)[id].(status := "revoked")]
      ensures Pushes({old(store.users)[id].group}, acked) && applied == |acked|
    {
      ghost var p := View(now);
      var u := store.users[id];
      store.users := store.users[id := u.(status := "revoked")];
      assert View(now) == WithUser(p, id, u.(status := "revoked"));
      applied, acked := ApplyGroupNodes(u.group, made, now);
    }

    method DeleteUser(id: UserId, made: RealityKeys, now: Time)
      returns (applied: nat, ghost acked: set<(GroupId, NodeId)>)
      requires id in store.users && Generated(made)
      modifies this`accepted, this`puts, this`pendingKicks, settings, store`users, store`cursors
      ensures Step(old(View(now)), Event.DeleteUser(id, acked), View(now))
      ensures store.users == old(store.users) - {id}
      ensures forall k :: k in store.cursors <==> k in old(store.cursors) && k.user != id
      ensures forall k :: k in store.cursors ==> store.cursors[k] == old(store.cursors)[k]
      ensures Pushes({old(store.users)[id].group}, acked) && applied == |acked|
    {
      ghost var p := View(now);
      var u := store.users[id];
      store.users := store.users - {id};
      store.cursors := map k | k in store.cursors && k.user != id :: store.cursors[k];
      assert View(now) == WithoutUser(p, id);
      applied, acked := ApplyGroupNodes(u.group, made, now);
    }

    /** PUT /v1/nodes/{id}/groups: a refused apply marks every group of the new set. */
    method SetNodeGroups(n: NodeId, groups: set<GroupId>, made: RealityKeys, now: Time) returns (ok: bool)
      requires n in store.nodes && groups <= store.groups.Keys && Generated(made)
      modifies this`accepted, this`puts, this`pendingKicks, settings, store`nodes
      ensures Step(old(View(now)), Event.SetNodeGroups(n, groups, ok), View(now))
      ensures store.nodes == old(store.nodes)[n := old(store.nodes)[n].(groups := groups)]
      ensures pendingKicks == old(pendingKicks) + if ok then {} else groups
      ensures Applies(n, ok, now)
    {
      ghost var p := View(now);
      store.nodes := store.nodes[n := store.nodes[n].(groups := groups)];
      assert View(now) == WithNode(p, n, p.db.nodes[n].(groups := groups));
      ok := ApplyStoredNode(n, made, now);
      if !ok {
        pendingKicks := pendingKicks + groups;
      }
    }

    /** POST /v1/users: fresh ids and credentials in one group, then one push. */
    method CreateUsers(g: GroupId, users: map<UserId, User>, made: RealityKeys, now: Time)
      returns (found: bool, applied: nat, ghost acked: set<(GroupId, NodeId)>)
      requires forall id :: id in users ==> id !in home && users[id].group == g
      requires Generated(made)
      modifies this`accepted, this`puts, this`pendingKicks, settings, this`home, store`users
      ensures found <==> g in store.groups
      ensures if found then Step(old(View(now)), Event.CreateUsers(g, users, acked), View(now))
              else View(now) == old(View(now))
      ensures store.users == if found then old(store.users) + users else old(store.users)
      ensures Pushes(if found then {g} else {}, acked) && applied == |acked|
    {
      ghost var p := View(now);
      found, applied, acked := g in store.groups, 0, {};
      if !found {
        return;
      }
      store.users := store.users + users;
      home := home + map id | id in users :: g;
      assert View(now) == WithUsers(p, g, users);
      applied, acked := ApplyGroupNodes(g, made, now);
    }

    /** PATCH /v1/groups/{id}: pushes only when protocols were given. */
    method PatchGroup(g: GroupId, protocols: Option<seq<Family>>, made: RealityKeys, now: Time)
      returns (found: bool, ghost acked: set<(GroupId, NodeId)>)
      requires Generated(made)
      modifies this`accepted, this`puts, this`pendingKicks, settings, store`groups
      ensures found <==> g in old(store.groups)
      ensures if found && protocols.Some? then
                Step(old(View(now)), Event.PatchGroup(g, protocols.value, acked), View(now))
              else View(now) == old(View(now))
      ensures store.groups == if found && protocols.Some? then old(store.groups)[g := Group(protocols.value)]
                              else old(store.groups)
      ensures Pushes(if found && protocols.Some? then {g} else {}, acked)
    {
      ghost var p := View(now);
      found, acked := g in store.groups, {};
      if !found || protocols.None? {
        return;
      }
      store.groups := store.groups[g := Group(protocols.value)];
      assert View(now) == p.(db := p.db.(groups := p.db.groups[g := Group(protocols.value)]));
      var applied: nat;
      applied, acked := ApplyGroupNodes(g, made, now);
    }

    /** DELETE /v1/groups/{id}: refused while the group has users. */
    method DeleteGroup(g: GroupId, now: Time) returns (err: Option<StoreError>)
      modifies store`groups, store`nodes
      ensures err == Some(Conflict) <==> exists id :: id in store.users && store.users[id].group == g
      ensures err == Some(NotFound)
              <==> g !in old(store.groups) && forall id :: id in store.users ==> store.users[id].group != g
      ensures if err.None? then Step(old(View(now)), Event.DeleteGroup(g), View(now)) else View(now) == old(View(now))
    {
      if exists id :: id in store.users && store.users[id].group == g {
        return Some(Conflict);
      }
      if g !in store.groups {
        return Some(NotFound);
      }
      store.groups := store.groups - {g};
      store.nodes := map n | n in store.nodes :: store.nodes[n].(groups := store.nodes[n].groups - {g});
      err := None;
    }

    /** POST /v1/nodes, up to enrolment: nothing is pushed. */
    method CreateNode(n: NodeId, node: Node, now: Time) returns (ok: bool)
      requires n !in store.nodes && n !in accepted && node.groups <= store.groups.Keys
      modifies store`nodes
      ensures ok <==> Legal(Spec(node.families, node.ports))
                      && (NeedsHostname(node.families) || NeedsTLSCert(node.ports) ==> !Blank(node.hostname))
      ensures if ok then Step(old(View(now)), Event.CreateNode(n, node), View(now)) else View(now) == old(View(now))
      ensures store.nodes == if ok then old(store.nodes)[n := node] else old(store.nodes)
    {
      var err := Validate(Spec(node.families, node.ports));
      ValidateAcceptsExactlyLegal(Spec(node.families, node.ports));
      if err.Some? || ((NeedsHostname(node.families) || NeedsTLSCert(node.ports)) && Blank(node.hostname)) {
        return false;
      }
      store.nodes := store.nodes[n := node];
      ok := true;
    }

    /** doEnroll with an agent that answers its health check, or not. */
    method EnrollNode(n: NodeId, ipv4: string, token: string, healthy: bool, now: Time) returns (ok: bool)
      modifies store`nodes
      ensures ok <==> n in old(store.nodes) && !Blank(ipv4) && !Blank(token) && healthy
      ensures if ok then Step(old(View(now)), Event.Enroll(n, TrimSpace(ipv4), TrimSpace(token)), View(now))
              else View(now) == old(View(now))
      ensures ok ==> var was := old(store.nodes);
                     store.nodes == was[n := was[n].(ipv4 := TrimSpace(ipv4), agentToken := TrimSpace(token))]
    {
      if n !in store.nodes || Blank(ipv4) || Blank(token) || !healthy {
        return false;
      }
      store.nodes := store.nodes[n := store.nodes[n].(ipv4 := TrimSpace(ipv4), agentToken := TrimSpace(token))];
      ok := true;
    }

    /** PATCH /v1/nodes/{id}, names already trimmed: a refused apply is not marked. */
    method PatchNode(n: NodeId, name: string, hostname: string, pending: bool, made: RealityKeys, now: Time)
      returns (ok: bool, applied: bool)
      requires Generated(made)
      modifies this`accepted, this`puts, settings, store`nodes
      ensures ok <==> n in old(store.nodes) && (NeedsHostname(old(store.nodes)[n].families) ==> !Blank(hostname))
      ensures if ok then Step(old(View(now)), Event.PatchNode(n, name, hostname, applied), View(now))
              else View(now) == old(View(now))
      ensures ok ==> store.nodes == old(store.nodes)[n := old(store.nodes)[n].(name := name, hostname := hostname)]
      ensures if ok && !pending then Applies(n, applied, now) else !applied && puts == old(puts)
    {
      if n !in store.nodes || (NeedsHostname(store.nodes[n].families) && Blank(hostname)) {
        return false, false;
      }
      ghost var p := View(now);
      store.nodes := store.nodes[n := store.nodes[n].(name := name, hostname := hostname)];
      assert View(now) == WithNode(p, n, p.db.nodes[n].(name := name, hostname := hostname));
      ok, applied := true, false;
      if !pending {
        applied := ApplyStoredNode(n, made, now);
      }
    }

    /** DELETE /v1/nodes/{id}: its cursors go with it; its agent is not told. */
    method DeleteNode(n: NodeId, now: Time) returns (found: bool)
      modifies this`accepted, store`nodes, store`cursors
      ensures found <==> n in old(store.nodes)
      ensures if found then Step(old(View(now)), Event.DeleteNode(n), View(now)) else View(now) == old(View(now))
      ensures found ==> store.nodes == old(store.nodes) - {n}
      ensures found ==> forall k :: k in store.cursors <==> k in old(store.cursors) && k.node != n
      ensures forall k :: k in store.cursors ==> store.cursors[k] == old(store.cursors)[k]
    {
      found := n in store.nodes;
      if found {
        store.nodes := store.nodes - {n};
        store.cursors := map k | k in store.cursors && k.node != n :: store.cursors[k];
        accepted := accepted - {n};
      }
    }
  }
}
