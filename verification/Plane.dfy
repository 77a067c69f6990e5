/** The control plane as a state machine: internal/api/traffic.go and the user, group and node
    handlers of internal/api/server.go, one atomic step each. A node's document is the last one
    whose PUT its agent accepted. */
module Plane {
  import opened Entitlement
  import opened Storage
  import opened Desired

  datatype Plane = Plane(
    db: Db,
    pending: set<GroupId>,         // Server.pendingKicks
    sampled: map<UserId, bool>,    // Server.entitled
    docs: map<NodeId, Doc>,        // accepted documents
    home: map<UserId, GroupId>,    // history: the group every id ever issued belongs to
    now: Time)

  // What a node should hold.

  predicate SlotServed(n: Node, slot: Slot) {
    slot == ByHy2 || slot == ByTT || ServesXray(n)
  }

  /** User id of group g may be on node n in a slot, entitlement aside. */
  predicate Admissible(db: Db, n: NodeId, slot: Slot, id: UserId) {
    n in db.nodes && id in db.users && db.users[id].group in db.nodes[n].groups && db.users[id].group in db.groups
    && SlotServed(db.nodes[n], slot)
    && Permits(db.nodes[n].families, db.groups[db.users[id].group].protocols, slot)
    && HasCredential(slot, db.users[id])
  }

  /** The entitled users of the groups attached to n that permit the slot. */
  predicate Wanted(db: Db, n: NodeId, slot: Slot, id: UserId, now: Time) {
    Admissible(db, n, slot, id) && db.users[id].EntitledAt(now)
  }

  /** A reading of the tables by applyStoredNode, in any row order. */
  ghost predicate SnapshotOf(db: Db, n: Node, rows: seq<GroupRows>) {
    (forall i, j :: 0 <= i < j < |rows| ==> rows[i].gid != rows[j].gid)
    && (forall g :: g in n.groups <==> exists i :: 0 <= i < |rows| && rows[i].gid == g)
    && forall i :: 0 <= i < |rows| ==> GroupSnapshot(db, rows[i])
  }

  ghost predicate GroupSnapshot(db: Db, g: GroupRows) {
    g.gid in db.groups && g.protocols == db.groups[g.gid].protocols
    && (forall i, j :: 0 <= i < j < |g.users| ==> g.users[i].id != g.users[j].id)
    && (forall i :: 0 <= i < |g.users| ==>
          g.users[i].id in db.users && g.users[i].user == db.users[g.users[i].id]
          && g.users[i].user.group == g.gid && g.users[i].user.status == "active")
    && (forall id :: id in db.users && db.users[id].group == g.gid && db.users[id].status == "active" ==>
          exists i :: 0 <= i < |g.users| && g.users[i].id == id)
  }

  /** doc is what an apply of node n sends at time now. */
  ghost predicate Fresh(db: Db, n: NodeId, now: Time, doc: Doc) {
    n in db.nodes
    && exists rows, keys :: SnapshotOf(db, db.nodes[n], rows) && Compile(db.nodes[n], rows, keys, now) == Ok(doc)
  }

  /** The same with these REALITY keys. */
  ghost predicate FreshWith(db: Db, n: NodeId, now: Time, keys: RealityKeys, doc: Doc) {
    n in db.nodes
    && exists rows :: SnapshotOf(db, db.nodes[n], rows) && Compile(db.nodes[n], rows, keys, now) == Ok(doc)
  }

  predicate Holds(p: Plane, n: NodeId, slot: Slot, id: UserId) {
    n in p.docs && id in p.docs[n].Ids(slot)
  }

  // Pushing.

  predicate Acked(acked: set<(GroupId, NodeId)>, n: NodeId) {
    exists a :: a in acked && a.1 == n
  }

  /** Groups of gs for which every attached node accepted. */
  function Cleared(db: Db, gs: set<GroupId>, acked: set<(GroupId, NodeId)>): set<GroupId> {
    set g | g in gs && forall n :: n in db.NodesOf(g) ==> (g, n) in acked
  }

  /** applyGroupNodes for every group of gs: acked are the applies that were accepted, each leaving
      a fresh document; a group stays pending unless all of its nodes accepted. */
  ghost predicate Pushed(p: Plane, gs: set<GroupId>, acked: set<(GroupId, NodeId)>, q: Plane) {
    q == p.(pending := q.pending, docs := q.docs)
    && (forall a :: a in acked ==> a.0 in gs && a.1 in p.db.NodesOf(a.0))
    && q.pending == p.pending + gs - Cleared(p.db, gs, acked)
    && (forall n :: n in q.docs <==> n in p.docs || Acked(acked, n))
    && (forall n :: n in q.docs ==>
          if Acked(acked, n) then Fresh(p.db, n, p.now, q.docs[n]) else q.docs[n] == p.docs[n])
  }

  /** applyStoredNode for one node, accepted or not. */
  ghost predicate Refreshed(p: Plane, n: NodeId, ok: bool, q: Plane) {
    if ok then n in q.docs && Fresh(p.db, n, p.now, q.docs[n]) && q == p.(docs := p.docs[n := q.docs[n]])
    else q == p
  }

  // Collecting and sweeping.

  datatype Reading = Reading(key: CursorKey, uplink: int, downlink: int)

  function CollectedDb(db: Db, readings: seq<Reading>): Db {
    if readings == [] then db
    else
      var r := readings[|readings| - 1];
      Credited(CollectedDb(db, readings[..|readings| - 1]), r.key, r.uplink, r.downlink)
  }

  /** Groups of users whom a reading took from entitled to not. */
  function Crossings(db: Db, readings: seq<Reading>, now: Time): set<GroupId> {
    if readings == [] then {}
    else
      var before := CollectedDb(db, readings[..|readings| - 1]);
      var after := CollectedDb(db, readings);
      var id := readings[|readings| - 1].key.user;
      Crossings(db, readings[..|readings| - 1], now)
      + if id in before.users && before.users[id].EntitledAt(now) && !after.users[id].EntitledAt(now)
        then {before.users[id].group} else {}
  }

  function Sampling(db: Db, now: Time): map<UserId, bool> {
    map id | id in db.users :: db.users[id].EntitledAt(now)
  }

  /** An unseen user who is out, or a user whose last sample differs. */
  predicate Crossed(sampled: map<UserId, bool>, id: UserId, ok: bool) {
    if id in sampled then sampled[id] != ok else !ok
  }

  /** The groups a sweep pushes: quota resets, crossings, and groups still owed a push. */
  function SweepGroups(p: Plane): set<GroupId> {
    (set id | id in p.db.users && ZeroDue(p.db.users[id], p.now) :: p.db.users[id].group)
    + (set id | id in p.db.users && Crossed(p.sampled, id, QuotaSwept(p.db.users[id], p.now).EntitledAt(p.now))
         :: p.db.users[id].group)
    + p.pending
  }

  /** The plane just before a sweep pushes. */
  function Swept(p: Plane): Plane {
    var db := AllQuotaSwept(p.db, p.now);
    p.(db := db, sampled := Sampling(db, p.now))
  }

  // Events.

  datatype Event =
    | Tick(later: Time)
    | CreateUsers(g: GroupId, users: map<UserId, User>, acked: set<(GroupId, NodeId)>)
    | PatchUser(id: UserId, user: User, touches: bool, acked: set<(GroupId, NodeId)>)
    | RevokeUser(id: UserId, acked: set<(GroupId, NodeId)>)
    | DeleteUser(id: UserId, acked: set<(GroupId, NodeId)>)
    | CreateGroup(g: GroupId, group: Group)
    | PatchGroup(g: GroupId, protocols: seq<Family>, acked: set<(GroupId, NodeId)>)
    | DeleteGroup(g: GroupId)
    | CreateNode(n: NodeId, node: Node)
    | Enroll(n: NodeId, ipv4: string, agentToken: string)
    | PatchNode(n: NodeId, name: string, hostname: string, ok: bool)
    | DeleteNode(n: NodeId)
    | SetNodeGroups(n: NodeId, groups: set<GroupId>, ok: bool)
    | ApplyNode(n: NodeId, ok: bool)
    | Collect(readings: seq<Reading>, acked: set<(GroupId, NodeId)>)
    | Sweep(acked: set<(GroupId, NodeId)>)
    | Restart

  function WithUser(p: Plane, id: UserId, u: User): Plane {
    p.(db := p.db.(users := p.db.users[id := u]))
  }

  function WithNode(p: Plane, n: NodeId, node: Node): Plane {
    p.(db := p.db.(nodes := p.db.nodes[n := node]))
  }

  function WithoutUser(p: Plane, id: UserId): Plane {
    p.(db := p.db.(users := p.db.users - {id}, cursors := map k | k in p.db.cursors && k.user != id :: p.db.cursors[k]))
  }

  function WithUsers(p: Plane, g: GroupId, users: map<UserId, User>): Plane {
    p.(db := p.db.(users := p.db.users + users), home := p.home + map id | id in users :: g)
  }

  function WithoutGroup(p: Plane, g: GroupId): Plane {
    p.(db := p.db.(groups := p.db.groups - {g},
                   nodes := map n | n in p.db.nodes :: p.db.nodes[n].(groups := p.db.nodes[n].groups - {g})))
  }

  function WithoutNode(p: Plane, n: NodeId): Plane {
    p.(db := p.db.(nodes := p.db.nodes - {n}, cursors := map k | k in p.db.cursors && k.node != n :: p.db.cursors[k]),
       docs := p.docs - {n})
  }

  /** UpdateUser never writes the group or a credential. */
  predicate SameAccount(u: User, v: User) {
    v.group == u.group && v.vlessUUID == u.vlessUUID && v.hy2Password == u.hy2Password && v.ttUser == u.ttUser
    && v.ttPassword == u.ttPassword && v.trojanPassword == u.trojanPassword && v.ssPassword == u.ssPassword
  }

  predicate SameEntitlementFields(u: User, v: User) {
    v.status == u.status && v.upload == u.upload && v.download == u.download && v.total == u.total
    && v.expire == u.expire
  }

  ghost predicate Step(p: Plane, e: Event, q: Plane) {
    match e
    case Tick(later) => p.now <= later && q == p.(now := later)
    case CreateUsers(g, users, acked) =>
      g in p.db.groups && (forall id :: id in users ==> id !in p.home && users[id].group == g)
      && Pushed(WithUsers(p, g, users), {g}, acked, q)
    case PatchUser(id, u, touches, acked) =>
      id in p.db.users && SameAccount(p.db.users[id], u) && (!touches ==> SameEntitlementFields(p.db.users[id], u))
      && if touches then Pushed(WithUser(p, id, u), {u.group}, acked, q) else q == WithUser(p, id, u)
    case RevokeUser(id, acked) =>
      id in p.db.users
      && Pushed(WithUser(p, id, p.db.users[id].(status := "revoked")), {p.db.users[id].group}, acked, q)
    case DeleteUser(id, acked) =>
      id in p.db.users && Pushed(WithoutUser(p, id), {p.db.users[id].group}, acked, q)
    case CreateGroup(g, group) =>
      g !in p.db.groups && (forall id :: id in p.home ==> p.home[id] != g)
      && q == p.(db := p.db.(groups := p.db.groups[g := group]))
    case PatchGroup(g, protocols, acked) =>
      g in p.db.groups && Pushed(p.(db := p.db.(groups := p.db.groups[g := Group(protocols)])), {g}, acked, q)
    case DeleteGroup(g) =>
      g in p.db.groups && (forall id :: id in p.db.users ==> p.db.users[id].group != g) && q == WithoutGroup(p, g)
    case CreateNode(n, node) =>
      n !in p.db.nodes && n !in p.docs && node.groups <= p.db.groups.Keys && q == WithNode(p, n, node)
    case Enroll(n, ipv4, token) =>
      n in p.db.nodes && q == WithNode(p, n, p.db.nodes[n].(ipv4 := ipv4, agentToken := token))
    case PatchNode(n, name, hostname, ok) =>
      n in p.db.nodes && Refreshed(WithNode(p, n, p.db.nodes[n].(name := name, hostname := hostname)), n, ok, q)
    case DeleteNode(n) => n in p.db.nodes && q == WithoutNode(p, n)
    case SetNodeGroups(n, groups, ok) =>
      n in p.db.nodes && groups <= p.db.groups.Keys
      && var set_ := WithNode(p, n, p.db.nodes[n].(groups := groups));
         if ok then Refreshed(set_, n, true, q) else q == set_.(pending := p.pending + groups)
    case ApplyNode(n, ok) => n in p.db.nodes && Refreshed(p, n, ok, q)
    case Collect(readings, acked) =>
      Pushed(p.(db := CollectedDb(p.db, readings)), Crossings(p.db, readings, p.now), acked, q)
    case Sweep(acked) => Pushed(Swept(p), SweepGroups(p), acked, q)
    case Restart => q == p.(pending := {}, sampled := map[])
  }

  ghost predicate IsRun(planes: seq<Plane>, events: seq<Event>) {
    |planes| == |events| + 1 && forall i :: 0 <= i < |events| ==> Step(planes[i], events[i], planes[i + 1])
  }
}
