/** Convergence of the control plane, over runs that restart it only while no push is owed. */
module Convergence {
  import opened Entitlement
  import opened Storage
  import opened Desired
  import opened Plane
  import opened Kicks

  /** For the users of a settled group, a node that ever accepted a document holds the wanted ones,
      and holds nobody else the next sweep would not notice. */
  ghost predicate SettledFor(p: Plane, n: NodeId, slot: Slot, id: UserId) {
    (Wanted(p.db, n, slot, id, p.now) ==> Holds(p, n, slot, id))
    && (Holds(p, n, slot, id) ==>
          Admissible(p.db, n, slot, id) && (p.db.users[id].EntitledAt(p.now) || Watched(p, id)))
  }

  ghost predicate SettledBut(p: Plane, gs: set<GroupId>) {
    forall n, slot, id ::
      n in p.db.nodes && n in p.docs && id in p.home && p.home[id] in p.db.nodes[n].groups
      && p.home[id] !in gs && p.home[id] !in p.pending
      ==> SettledFor(p, n, slot, id)
  }

  /** The user's group still exists. */
  predicate Housed(p: Plane, id: UserId) {
    id in p.home && p.home[id] in p.db.groups
  }

  /** A node holds users of an existing group it is not attached to only while all its groups are
      owed a push. */
  ghost predicate StrayOnlyIfOwed(p: Plane) {
    forall n, slot, id ::
      Holds(p, n, slot, id) && n in p.db.nodes && Housed(p, id) && p.home[id] !in p.db.nodes[n].groups
      ==> p.db.nodes[n].groups <= p.pending
  }

  /** The node_groups foreign key. */
  predicate AttachedExist(p: Plane) {
    forall n :: n in p.db.nodes ==> p.db.nodes[n].groups <= p.db.groups.Keys
  }

  ghost predicate Settled(p: Plane) {
    Issued(p) && AttachedExist(p) && SettledBut(p, {}) && StrayOnlyIfOwed(p)
  }

  lemma FreshSettles(db: Db, n: NodeId, now: Time, doc: Doc, home: map<UserId, GroupId>, slot: Slot, id: UserId)
    requires Fresh(db, n, now, doc) && UniqueCredentials(db)
    requires forall j :: j in db.users ==> j in home && home[j] == db.users[j].group
    ensures Wanted(db, n, slot, id, now) <==> id in doc.Ids(slot)
    ensures id in doc.Ids(slot) ==> id in home && home[id] in db.nodes[n].groups
  {
    FreshIsWanted(db, n, now, doc, slot);
  }

  lemma PushSettles(p: Plane, gs: set<GroupId>, acked: set<(GroupId, NodeId)>, q: Plane)
    requires Issued(p) && AttachedExist(p) && SettledBut(p, gs) && StrayOnlyIfOwed(p) && UniqueCredentials(p.db)
    requires Pushed(p, gs, acked, q)
    ensures Settled(q)
  {
    PushKeepsIssued(p, gs, acked, q);
    forall n, slot, id |
      n in q.db.nodes && n in q.docs && id in q.home && q.home[id] in q.db.nodes[n].groups && q.home[id] !in q.pending
      ensures SettledFor(q, n, slot, id)
    {
      if Acked(acked, n) {
        FreshSettles(p.db, n, p.now, q.docs[n], p.home, slot, id);
      } else {
        PushedNode(p, gs, acked, q, n, q.home[id]);
        assert SettledFor(p, n, slot, id);
        assert Holds(q, n, slot, id) <==> Holds(p, n, slot, id);
      }
    }
    forall n, slot, id |
      Holds(q, n, slot, id) && n in q.db.nodes && Housed(q, id) && q.home[id] !in q.db.nodes[n].groups
      ensures q.db.nodes[n].groups <= q.pending
    {
      if Acked(acked, n) {
        FreshSettles(p.db, n, p.now, q.docs[n], p.home, slot, id);
      } else {
        assert Holds(p, n, slot, id);
        forall g | g in p.db.nodes[n].groups && g in gs ensures g !in Cleared(p.db, gs, acked) {
          assert n in p.db.NodesOf(g) && (g, n) !in acked;
        }
      }
    }
  }

  lemma RefreshSettles(p: Plane, n: NodeId, ok: bool, q: Plane)
    requires Settled(p) && UniqueCredentials(p.db) && Refreshed(p, n, ok, q)
    ensures Settled(q)
  {
    if ok {
      forall m, slot, id ensures m == n ==> (Holds(q, m, slot, id) <==> Wanted(p.db, n, slot, id, p.now))
        ensures m == n && Holds(q, m, slot, id) ==> id in p.home && p.home[id] in p.db.nodes[n].groups
        ensures m != n ==> (Holds(q, m, slot, id) <==> Holds(p, m, slot, id))
      {
        if m == n {
          FreshSettles(p.db, n, p.now, q.docs[n], p.home, slot, id);
        }
      }
      forall m, slot, id |
        m in q.db.nodes && m in q.docs && id in q.home && q.home[id] in q.db.nodes[m].groups && q.home[id] !in q.pending
        ensures SettledFor(q, m, slot, id)
      {
        assert m != n ==> SettledFor(p, m, slot, id);
      }
    }
  }

  /** Steps of a run this module is about: no restart that forgets a push, no clock step that expires
      a user sampled as out, and traffic totals that neither fall nor overflow. */
  predicate Orderly(p: Plane, e: Event) {
    match e
    case Restart => p.pending == {}
    case Tick(later) => Calm(p, later)
    case Collect(readings, _) => Growing(p.db, CollectedDb(p.db, readings))
    case _ => true
  }

  predicate Growing(before: Db, after: Db) {
    forall id :: id in before.users && id in after.users ==>
      0 <= before.users[id].upload <= after.users[id].upload
      && 0 <= before.users[id].download <= after.users[id].download
      && after.users[id].upload + after.users[id].download < INT64_LIMIT
  }

  /** A change of the tables that leaves the accounts outside gs alone keeps their nodes settled. */
  ghost predicate Changed(p: Plane, m: Plane, gs: set<GroupId>) {
    m.docs == p.docs && m.sampled == p.sampled && m.now == p.now && m.pending == p.pending
    && (forall id :: id in m.home ==> if id in p.home then m.home[id] == p.home[id] else m.home[id] in gs)
    && m.db.nodes.Keys == p.db.nodes.Keys
    && (forall n :: n in p.db.nodes ==>
          m.db.nodes[n].groups == p.db.nodes[n].groups && m.db.nodes[n].families == p.db.nodes[n].families
          && m.db.nodes[n].ports == p.db.nodes[n].ports)
    && p.db.groups.Keys <= m.db.groups.Keys
    && (forall id :: id in p.home && p.home[id] in m.db.groups ==> p.home[id] in p.db.groups)
    && (forall g :: g in p.db.groups && g !in gs ==> m.db.groups[g] == p.db.groups[g])
    && (forall id :: id in m.home && id in p.home && m.home[id] !in gs ==> SameUser(p, m, id))
  }

  predicate SameUser(p: Plane, m: Plane, id: UserId) {
    (id in m.db.users <==> id in p.db.users)
    && (id in m.db.users ==>
          SameAccount(p.db.users[id], m.db.users[id])
          && m.db.users[id].EntitledAt(p.now) == p.db.users[id].EntitledAt(p.now))
  }

  lemma ChangeKeepsAdmissible(p: Plane, m: Plane, gs: set<GroupId>, n: NodeId, slot: Slot, id: UserId)
    requires AttachedExist(p) && Issued(p) && Issued(m) && Changed(p, m, gs)
    requires n in m.db.nodes && id in m.home && id in p.home && m.home[id] in m.db.nodes[n].groups && m.home[id] !in gs
    ensures Admissible(m.db, n, slot, id) <==> Admissible(p.db, n, slot, id)
  {
    assert SameUser(p, m, id);
    if id in p.db.users {
      var u, v := p.db.users[id], m.db.users[id];
      assert HasCredential(slot, u) == HasCredential(slot, v);
    }
  }

  lemma ChangeKeepsUser(p: Plane, m: Plane, gs: set<GroupId>, n: NodeId, slot: Slot, id: UserId)
    requires Settled(p) && Issued(m) && Changed(p, m, gs)
    requires n in m.db.nodes && n in m.docs && id in m.home && m.home[id] in m.db.nodes[n].groups
             && m.home[id] !in gs && m.home[id] !in m.pending
    ensures SettledFor(m, n, slot, id)
  {
    assert SettledFor(p, n, slot, id);
    assert SameUser(p, m, id);
    ChangeKeepsAdmissible(p, m, gs, n, slot, id);
  }

  lemma ChangeSettles(p: Plane, m: Plane, gs: set<GroupId>)
    requires Settled(p) && Issued(m) && Changed(p, m, gs)
    ensures AttachedExist(m) && SettledBut(m, gs) && StrayOnlyIfOwed(m)
  {
    forall n, slot, id |
      n in m.db.nodes && n in m.docs && id in m.home && m.home[id] in m.db.nodes[n].groups && m.home[id] !in gs
      && m.home[id] !in m.pending
      ensures SettledFor(m, n, slot, id)
    {
      ChangeKeepsUser(p, m, gs, n, slot, id);
    }
    forall n, slot, id |
      Holds(m, n, slot, id) && n in m.db.nodes && Housed(m, id) && m.home[id] !in m.db.nodes[n].groups
      ensures m.db.nodes[n].groups <= m.pending
    {
      assert Holds(p, n, slot, id) && id in p.home;
    }
  }

  lemma SameDocsStayIssued(p: Plane, m: Plane)
    requires Issued(p) && m.sampled == p.sampled && p.home.Keys <= m.home.Keys
    requires forall n :: n in m.docs ==> n in p.docs && m.docs[n] == p.docs[n]
    requires forall id :: id in m.db.users ==> id in m.home && m.home[id] == m.db.users[id].group
    ensures Issued(m)
  {
    assert forall n, slot, id :: Holds(m, n, slot, id) ==> Holds(p, n, slot, id);
  }

  lemma PushStepSettles(p: Plane, m: Plane, gs: set<GroupId>, acked: set<(GroupId, NodeId)>, q: Plane)
    requires Settled(p) && Issued(m) && Changed(p, m, gs) && Pushed(m, gs, acked, q) && UniqueCredentials(q.db)
    ensures Settled(q)
  {
    ChangeSettles(p, m, gs);
    PushSettles(m, gs, acked, q);
  }

  /** A change that touches no account keeps the plane settled without a push. */
  lemma QuietChangeSettles(p: Plane, m: Plane)
    requires Settled(p) && Issued(m) && Changed(p, m, {})
    ensures Settled(m)
  {
    ChangeSettles(p, m, {});
  }

  lemma UserStaysIssued(p: Plane, id: UserId, u: User)
    requires Issued(p) && id in p.db.users && SameAccount(p.db.users[id], u)
    ensures Issued(WithUser(p, id, u))
  {
    SameDocsStayIssued(p, WithUser(p, id, u));
  }

  lemma UserChanges(p: Plane, id: UserId, u: User, gs: set<GroupId>)
    requires Issued(p) && id in p.db.users && SameAccount(p.db.users[id], u)
    requires u.group in gs || SameEntitlementFields(p.db.users[id], u)
    ensures Issued(WithUser(p, id, u)) && Changed(p, WithUser(p, id, u), gs)
  {
    UserStaysIssued(p, id, u);
  }

  lemma PatchUserSettles(p: Plane, id: UserId, u: User, touches: bool, acked: set<(GroupId, NodeId)>, q: Plane)
    requires Settled(p) && UniqueCredentials(q.db) && Step(p, PatchUser(id, u, touches, acked), q)
    ensures Settled(q)
  {
    if touches {
      UserChanges(p, id, u, {u.group});
      PushStepSettles(p, WithUser(p, id, u), {u.group}, acked, q);
    } else {
      UserChanges(p, id, u, {});
      QuietChangeSettles(p, q);
    }
  }

  lemma RevokeUserSettles(p: Plane, id: UserId, acked: set<(GroupId, NodeId)>, q: Plane)
    requires Settled(p) && UniqueCredentials(q.db) && Step(p, RevokeUser(id, acked), q)
    ensures Settled(q)
  {
    var u := p.db.users[id].(status := "revoked");
    UserChanges(p, id, u, {u.group});
    PushStepSettles(p, WithUser(p, id, u), {u.group}, acked, q);
  }

  lemma DeletedUserChanges(p: Plane, id: UserId)
    requires Issued(p) && id in p.db.users
    ensures Issued(WithoutUser(p, id)) && Changed(p, WithoutUser(p, id), {p.db.users[id].group})
  {
    SameDocsStayIssued(p, WithoutUser(p, id));
  }

  lemma DeleteUserSettles(p: Plane, id: UserId, acked: set<(GroupId, NodeId)>, q: Plane)
    requires Settled(p) && UniqueCredentials(q.db) && Step(p, DeleteUser(id, acked), q)
    ensures Settled(q)
  {
    DeletedUserChanges(p, id);
    PushStepSettles(p, WithoutUser(p, id), {p.db.users[id].group}, acked, q);
  }

  /** New users join the maps and leave the old ones alone. */
  lemma NewUsersAre(p: Plane, g: GroupId, users: map<UserId, User>)
    requires Issued(p) && forall id :: id in users ==> id !in p.home && users[id].group == g
    ensures var m := WithUsers(p, g, users);
            (forall id :: id in m.home <==> id in p.home || id in users)
            && (forall id :: id in m.db.users <==> id in p.db.users || id in users)
            && (forall id :: id in m.home ==> m.home[id] == if id in p.home then p.home[id] else g)
            && (forall id :: id in m.db.users ==>
                  m.db.users[id] == if id in p.db.users then p.db.users[id] else users[id])
  {
  }

  lemma NewUsersChange(p: Plane, g: GroupId, users: map<UserId, User>)
    requires Issued(p) && forall id :: id in users ==> id !in p.home && users[id].group == g
    ensures Issued(WithUsers(p, g, users)) && Changed(p, WithUsers(p, g, users), {g})
  {
    NewUsersAre(p, g, users);
    SameDocsStayIssued(p, WithUsers(p, g, users));
  }

  lemma CreateUsersSettles(p: Plane, g: GroupId, users: map<UserId, User>, acked: set<(GroupId, NodeId)>, q: Plane)
    requires Settled(p) && UniqueCredentials(q.db) && Step(p, CreateUsers(g, users, acked), q)
    ensures Settled(q)
  {
    NewUsersChange(p, g, users);
    PushStepSettles(p, WithUsers(p, g, users), {g}, acked, q);
  }

  lemma PatchGroupSettles(p: Plane, g: GroupId, protocols: seq<Family>, acked: set<(GroupId, NodeId)>, q: Plane)
    requires Settled(p) && UniqueCredentials(q.db) && Step(p, PatchGroup(g, protocols, acked), q)
    ensures Settled(q)
  {
    var m := p.(db := p.db.(groups := p.db.groups[g := Group(protocols)]));
    SameDocsStayIssued(p, m);
    PushStepSettles(p, m, {g}, acked, q);
  }

  lemma NodeChanges(p: Plane, n: NodeId, node: Node)
    requires Issued(p) && n in p.db.nodes
    requires node.groups == p.db.nodes[n].groups && node.families == p.db.nodes[n].families
             && node.ports == p.db.nodes[n].ports
    ensures Issued(WithNode(p, n, node)) && Changed(p, WithNode(p, n, node), {})
  {
    SameDocsStayIssued(p, WithNode(p, n, node));
  }

  lemma PatchNodeSettles(p: Plane, n: NodeId, name: string, hostname: string, ok: bool, q: Plane)
    requires Settled(p) && UniqueCredentials(q.db) && Step(p, PatchNode(n, name, hostname, ok), q)
    ensures Settled(q)
  {
    var node := p.db.nodes[n].(name := name, hostname := hostname);
    NodeChanges(p, n, node);
    QuietChangeSettles(p, WithNode(p, n, node));
    RefreshSettles(WithNode(p, n, node), n, ok, q);
  }

  lemma QuietStepSettles(p: Plane, e: Event, q: Plane)
    requires Settled(p) && Step(p, e, q) && (e.Enroll? || e.CreateGroup?)
    ensures Settled(q)
  {
    if e.Enroll? {
      NodeChanges(p, e.n, p.db.nodes[e.n].(ipv4 := e.ipv4, agentToken := e.agentToken));
    } else {
      SameDocsStayIssued(p, q);
    }
    QuietChangeSettles(p, q);
  }

  lemma DeleteGroupSettles(p: Plane, g: GroupId, q: Plane)
    requires Settled(p) && Step(p, DeleteGroup(g), q)
    ensures Settled(q)
  {
    SameDocsStayIssued(p, q);
    forall n, slot, id |
      n in q.db.nodes && n in q.docs && id in q.home && q.home[id] in q.db.nodes[n].groups && q.home[id] !in q.pending
      ensures SettledFor(q, n, slot, id)
    {
      assert SettledFor(p, n, slot, id);
      assert Admissible(q.db, n, slot, id) <==> Admissible(p.db, n, slot, id);
    }
    assert forall n, slot, id :: Holds(q, n, slot, id) ==> Holds(p, n, slot, id);
  }

  lemma NodeComesOrGoesSettles(p: Plane, e: Event, q: Plane)
    requires Settled(p) && Step(p, e, q) && Orderly(p, e) && (e.CreateNode? || e.DeleteNode?)
    ensures Settled(q)
  {
    SameDocsStayIssued(p, q);
    forall n, slot, id |
      n in q.db.nodes && n in q.docs && id in q.home && q.home[id] in q.db.nodes[n].groups && q.home[id] !in q.pending
      ensures SettledFor(q, n, slot, id)
    {
      assert SettledFor(p, n, slot, id);
      assert Admissible(q.db, n, slot, id) <==> Admissible(p.db, n, slot, id);
    }
    assert forall n, slot, id :: Holds(q, n, slot, id) ==> Holds(p, n, slot, id);
  }

  /** The new attachments could not be pushed: they are owed. */
  lemma OwedNodeGroupsSettles(p: Plane, n: NodeId, groups: set<GroupId>, q: Plane)
    requires Settled(p) && Step(p, SetNodeGroups(n, groups, false), q)
    ensures Settled(q)
  {
    SameDocsStayIssued(p, q);
    forall k, slot, id |
      k in q.db.nodes && k in q.docs && id in q.home && q.home[id] in q.db.nodes[k].groups && q.home[id] !in q.pending
      ensures SettledFor(q, k, slot, id)
    {
      assert k != n && SettledFor(p, k, slot, id);
      assert Admissible(q.db, k, slot, id) <==> Admissible(p.db, k, slot, id);
    }
    assert forall k, slot, id :: Holds(q, k, slot, id) ==> Holds(p, k, slot, id);
  }

  /** What the nodes hold after a pushed change of attachments. */
  lemma PushedNodeHolds(p: Plane, n: NodeId, groups: set<GroupId>, q: Plane, slot: Slot, id: UserId)
    requires Issued(p) && UniqueCredentials(q.db) && Step(p, SetNodeGroups(n, groups, true), q)
    ensures Holds(q, n, slot, id) <==> Wanted(q.db, n, slot, id, q.now)
    ensures Holds(q, n, slot, id) ==> id in q.home && q.home[id] in groups
  {
    var m := WithNode(p, n, p.db.nodes[n].(groups := groups));
    FreshSettles(m.db, n, m.now, q.docs[n], m.home, slot, id);
  }

  lemma OtherNodesHold(p: Plane, n: NodeId, groups: set<GroupId>, q: Plane)
    requires Step(p, SetNodeGroups(n, groups, true), q)
    ensures forall k, slot, id :: k != n ==> (Holds(q, k, slot, id) <==> Holds(p, k, slot, id))
  {
  }

  lemma OtherNodeStaysSettled(p: Plane, n: NodeId, groups: set<GroupId>, q: Plane, k: NodeId, slot: Slot, id: UserId)
    requires Settled(p) && Step(p, SetNodeGroups(n, groups, true), q) && k != n
    requires k in q.db.nodes && k in q.docs && id in q.home && q.home[id] in q.db.nodes[k].groups
             && q.home[id] !in q.pending
    ensures SettledFor(q, k, slot, id)
  {
    OtherNodesHold(p, n, groups, q);
    assert SettledFor(p, k, slot, id);
    assert Admissible(q.db, k, slot, id) <==> Admissible(p.db, k, slot, id);
  }

  lemma PushedNodeGroupsSettles(p: Plane, n: NodeId, groups: set<GroupId>, q: Plane)
    requires Settled(p) && UniqueCredentials(q.db) && Step(p, SetNodeGroups(n, groups, true), q)
    ensures Settled(q)
  {
    OtherNodesHold(p, n, groups, q);
    forall slot, id
      ensures Holds(q, n, slot, id) <==> Wanted(q.db, n, slot, id, q.now)
      ensures Holds(q, n, slot, id) ==> id in q.home && q.home[id] in groups
    {
      PushedNodeHolds(p, n, groups, q, slot, id);
    }
    forall k, slot, id |
      k in q.db.nodes && k in q.docs && id in q.home && q.home[id] in q.db.nodes[k].groups && q.home[id] !in q.pending
      ensures SettledFor(q, k, slot, id)
    {
      if k != n {
        OtherNodeStaysSettled(p, n, groups, q, k, slot, id);
      }
    }
  }

  lemma TickSettles(p: Plane, later: Time, q: Plane)
    requires Settled(p) && Step(p, Tick(later), q) && Calm(p, later)
    ensures Settled(q)
  {
    SameDocsStayIssued(p, q);
    forall n, slot, id |
      n in q.db.nodes && n in q.docs && id in q.home && q.home[id] in q.db.nodes[n].groups && q.home[id] !in q.pending
      ensures SettledFor(q, n, slot, id)
    {
      assert SettledFor(p, n, slot, id);
    }
    assert forall n, slot, id :: Holds(q, n, slot, id) ==> Holds(p, n, slot, id);
  }

  lemma {:induction false} CollectKeepsFields(db: Db, readings: seq<Reading>, id: UserId)
    requires id in db.users
    ensures var after := CollectedDb(db, readings).users;
            id in after && after[id].status == db.users[id].status && after[id].expire == db.users[id].expire
            && after[id].total == db.users[id].total
  {
    if readings != [] {
      CollectKeepsFields(db, readings[..|readings| - 1], id);
    }
  }

  lemma MoreTrafficNeverEntitles(u: User, v: User, now: Time)
    requires 0 <= u.upload <= v.upload && 0 <= u.download <= v.download && v.upload + v.download < INT64_LIMIT
    requires v.status == u.status && v.expire == u.expire && v.total == u.total
    ensures v.EntitledAt(now) ==> u.EntitledAt(now)
  {
  }

  /** Stored counters and readings are not negative, and no sum of two counters leaves int64. */
  predicate Countable(db: Db, readings: seq<Reading>) {
    (forall id :: id in db.users ==> db.users[id].upload >= 0 && db.users[id].download >= 0)
    && (forall k :: 0 <= k < |readings| ==> readings[k].uplink >= 0 && readings[k].downlink >= 0)
    && WithinInt64(CollectedDb(db, readings))
  }

  /** The user was entitled before the readings and is not after them. */
  predicate CrossedOut(db: Db, after: Db, now: Time, id: UserId) {
    id in db.users && id in after.users && db.users[id].EntitledAt(now) && !after.users[id].EntitledAt(now)
  }

  predicate WithinInt64(db: Db) {
    forall id :: id in db.users ==> db.users[id].upload + db.users[id].download < INT64_LIMIT
  }

  lemma CreditGrows(db: Db, r: Reading)
    requires forall id :: id in db.users ==> db.users[id].upload >= 0 && db.users[id].download >= 0
    requires r.uplink >= 0 && r.downlink >= 0 && WithinInt64(Credited(db, r.key, r.uplink, r.downlink))
    ensures Growing(db, Credited(db, r.key, r.uplink, r.downlink)) && WithinInt64(db)
  {
    var after := Credited(db, r.key, r.uplink, r.downlink);
    forall id | id in db.users
      ensures id in after.users && db.users[id].upload <= after.users[id].upload
              && db.users[id].download <= after.users[id].download
    {
    }
  }

  lemma CountableStep(db: Db, readings: seq<Reading>)
    requires Countable(db, readings) && readings != []
    ensures var before := readings[..|readings| - 1];
            Countable(db, before) && Growing(CollectedDb(db, before), CollectedDb(db, readings))
  {
    var before := readings[..|readings| - 1];
    CollectGrows(db, before);
    CreditGrows(CollectedDb(db, before), readings[|readings| - 1]);
  }

  lemma {:induction false} CountableGrows(db: Db, readings: seq<Reading>)
    requires Countable(db, readings)
    ensures Growing(db, CollectedDb(db, readings)) && CollectedDb(db, readings).users.Keys == db.users.Keys
  {
    CollectGrows(db, readings);
    if readings != [] {
      CountableStep(db, readings);
      CountableGrows(db, readings[..|readings| - 1]);
    }
  }

  lemma {:induction false} CollectGrows(db: Db, readings: seq<Reading>)
    requires (forall id :: id in db.users ==> db.users[id].upload >= 0 && db.users[id].download >= 0)
    requires forall k :: 0 <= k < |readings| ==> readings[k].uplink >= 0 && readings[k].downlink >= 0
    ensures CollectedDb(db, readings).users.Keys == db.users.Keys
    ensures forall id :: id in db.users ==>
              CollectedDb(db, readings).users[id].upload >= 0 && CollectedDb(db, readings).users[id].download >= 0
  {
    if readings != [] {
      CollectGrows(db, readings[..|readings| - 1]);
    }
  }

  lemma GrowthNeverEntitles(before: Db, after: Db, readings: seq<Reading>, now: Time, id: UserId)
    requires after == CollectedDb(before, readings) && Growing(before, after) && id in before.users
    ensures id in after.users && (after.users[id].EntitledAt(now) ==> before.users[id].EntitledAt(now))
  {
    CollectKeepsFields(before, readings, id);
    MoreTrafficNeverEntitles(before.users[id], after.users[id], now);
  }

  /** A poll pushes a group exactly when one of its users was entitled before the poll and is not after
      it. */
  lemma {:induction false} CrossingsIff(db: Db, readings: seq<Reading>, now: Time, g: GroupId)
    requires Countable(db, readings)
    ensures g in Crossings(db, readings, now)
            <==> exists id :: CrossedOut(db, CollectedDb(db, readings), now, id) && db.users[id].group == g
  {
    if readings != [] {
      var n := |readings| - 1;
      var before, r := readings[..n], readings[n];
      var mid, after := CollectedDb(db, before), CollectedDb(db, readings);
      CountableStep(db, readings);
      CrossingsIff(db, before, now, g);
      CountableGrows(db, before);
      CollectKeepsAccounts(db, before);
      forall id | id in db.users
        ensures CrossedOut(db, after, now, id) <==> CrossedOut(db, mid, now, id) || CrossedOut(mid, after, now, id)
      {
        GrowthNeverEntitles(db, mid, before, now, id);
        assert [r][..0] == [] && CollectedDb(mid, []) == mid && after == CollectedDb(mid, [r]);
        GrowthNeverEntitles(mid, after, [r], now, id);
      }
    }
  }

  lemma CollectChanges(p: Plane, readings: seq<Reading>)
    requires Issued(p) && Growing(p.db, CollectedDb(p.db, readings))
    ensures var m := p.(db := CollectedDb(p.db, readings)); Issued(m) && Changed(p, m, Crossings(p.db, readings, p.now))
  {
    var m := p.(db := CollectedDb(p.db, readings));
    var gs := Crossings(p.db, readings, p.now);
    CollectKeepsAccounts(p.db, readings);
    SameDocsStayIssued(p, m);
    forall id | id in p.home && id in p.db.users && p.home[id] !in gs ensures SameUser(p, m, id) {
      CollectKeepsFields(p.db, readings, id);
      MoreTrafficNeverEntitles(p.db.users[id], m.db.users[id], p.now);
      if p.db.users[id].EntitledAt(p.now) && !m.db.users[id].EntitledAt(p.now) {
        CollectSeesCrossing(p.db, readings, p.now, id);
      }
    }
  }

  lemma CollectSettles(p: Plane, readings: seq<Reading>, acked: set<(GroupId, NodeId)>, q: Plane)
    requires Settled(p) && UniqueCredentials(q.db) && Step(p, Collect(readings, acked), q)
    requires Growing(p.db, CollectedDb(p.db, readings))
    ensures Settled(q)
  {
    CollectChanges(p, readings);
    PushStepSettles(p, p.(db := CollectedDb(p.db, readings)), Crossings(p.db, readings, p.now), acked, q);
  }

  lemma SweptSettles(p: Plane)
    requires Settled(p)
    ensures Issued(Swept(p)) && AttachedExist(Swept(p)) && SettledBut(Swept(p), SweepGroups(p))
            && StrayOnlyIfOwed(Swept(p))
  {
    var m := Swept(p);
    assert forall n, slot, id :: Holds(m, n, slot, id) <==> Holds(p, n, slot, id);
    forall n, slot, id |
      n in m.db.nodes && n in m.docs && id in m.home && m.home[id] in m.db.nodes[n].groups
      && m.home[id] !in SweepGroups(p)
      ensures SettledFor(m, n, slot, id)
    {
      assert SettledFor(p, n, slot, id);
      if id in p.db.users {
        SweptUserSettles(p, n, slot, id);
      }
    }
  }

  lemma SweptUserSettles(p: Plane, n: NodeId, slot: Slot, id: UserId)
    requires id in p.db.users && p.db.users[id].group !in SweepGroups(p) && SettledFor(p, n, slot, id)
    ensures SettledFor(Swept(p), n, slot, id)
  {
    var u, v := p.db.users[id], QuotaSwept(p.db.users[id], p.now);
    QuotaStepEntitles(u, p.now);
    assert !ZeroDue(u, p.now);
    if Watched(p, id) && !v.EntitledAt(p.now) {
      SweepSees(p, id);
    }
    assert Swept(p).db.users[id] == v && Swept(p).sampled[id] == v.EntitledAt(p.now);
    assert HasCredential(slot, u) == HasCredential(slot, v);
    assert Admissible(Swept(p).db, n, slot, id) <==> Admissible(p.db, n, slot, id);
    assert Holds(Swept(p), n, slot, id) <==> Holds(p, n, slot, id);
  }

  /** A restart forgets the samples, after which every user counts as watched, and nothing that was
      owed. */
  lemma RestartSettles(p: Plane, q: Plane)
    requires Settled(p) && p.pending == {} && Step(p, Restart, q)
    ensures Settled(q)
  {
    assert forall n, slot, id :: Holds(q, n, slot, id) <==> Holds(p, n, slot, id);
    forall n, slot, id |
      n in q.db.nodes && n in q.docs && id in q.home && q.home[id] in q.db.nodes[n].groups && q.home[id] !in q.pending
      ensures SettledFor(q, n, slot, id)
    {
      assert SettledFor(p, n, slot, id);
    }
  }

  lemma StepSettles(p: Plane, e: Event, q: Plane)
    requires Settled(p) && UniqueCredentials(q.db) && Step(p, e, q) && Orderly(p, e)
    ensures Settled(q)
  {
    if e.CreateUsers? || e.PatchUser? || e.RevokeUser? || e.DeleteUser? {
      UserStepSettles(p, e, q);
    } else if e.Tick? {
      TickSettles(p, e.later, q);
    } else if e.Restart? {
      RestartSettles(p, q);
    } else if e.PatchGroup? {
      PatchGroupSettles(p, e.g, e.protocols, e.acked, q);
    } else if e.DeleteGroup? {
      DeleteGroupSettles(p, e.g, q);
    } else if e.Enroll? || e.CreateGroup? {
      QuietStepSettles(p, e, q);
    } else if e.Collect? {
      CollectSettles(p, e.readings, e.acked, q);
    } else if e.Sweep? {
      SweptSettles(p);
      PushSettles(Swept(p), SweepGroups(p), e.acked, q);
    } else {
      NodeStepSettles(p, e, q);
    }
  }

  lemma UserStepSettles(p: Plane, e: Event, q: Plane)
    requires Settled(p) && UniqueCredentials(q.db) && Step(p, e, q)
    requires e.CreateUsers? || e.PatchUser? || e.RevokeUser? || e.DeleteUser?
    ensures Settled(q)
  {
    if e.CreateUsers? {
      CreateUsersSettles(p, e.g, e.users, e.acked, q);
    } else if e.PatchUser? {
      PatchUserSettles(p, e.id, e.user, e.touches, e.acked, q);
    } else if e.RevokeUser? {
      RevokeUserSettles(p, e.id, e.acked, q);
    } else {
      DeleteUserSettles(p, e.id, e.acked, q);
    }
  }

  lemma NodeStepSettles(p: Plane, e: Event, q: Plane)
    requires Settled(p) && UniqueCredentials(q.db) && Step(p, e, q) && Orderly(p, e)
    requires e.CreateNode? || e.DeleteNode? || e.PatchNode? || e.ApplyNode? || e.SetNodeGroups?
    ensures Settled(q)
  {
    if e.ApplyNode? {
      RefreshSettles(p, e.n, e.ok, q);
    } else if e.PatchNode? {
      PatchNodeSettles(p, e.n, e.name, e.hostname, e.ok, q);
    } else if e.SetNodeGroups? && e.ok {
      PushedNodeGroupsSettles(p, e.n, e.groups, q);
    } else if e.SetNodeGroups? {
      OwedNodeGroupsSettles(p, e.n, e.groups, q);
    } else {
      NodeComesOrGoesSettles(p, e, q);
    }
  }

  /** A fresh installation: no node yet. */
  ghost predicate Install(p: Plane) {
    p.db.nodes == map[] && p.docs == map[] && Issued(p)
  }

  ghost predicate OrderlyRun(planes: seq<Plane>, events: seq<Event>) {
    IsRun(planes, events) && Install(planes[0])
    && (forall i :: 0 <= i < |planes| ==> UniqueCredentials(planes[i].db))
    && (forall i :: 0 <= i < |events| ==> Orderly(planes[i], events[i]))
  }

  lemma {:induction false} RunIsSettled(planes: seq<Plane>, events: seq<Event>, k: nat)
    requires OrderlyRun(planes, events) && k <= |events|
    ensures Settled(planes[k])
  {
    if k > 0 {
      RunIsSettled(planes, events, k - 1);
      StepSettles(planes[k - 1], events[k - 1], planes[k]);
    }
  }

  /** Every push of the sweep was accepted. */
  ghost predicate AllAccepted(p: Plane, acked: set<(GroupId, NodeId)>) {
    forall g, n :: g in SweepGroups(p) && n in p.db.NodesOf(g) ==> (g, n) in acked
  }

  /** Node n admits exactly the wanted users. */
  ghost predicate Exact(p: Plane, n: NodeId) {
    forall slot, id :: Holds(p, n, slot, id) <==> Wanted(p.db, n, slot, id, p.now)
  }

  /** Nothing is pending, and every attached node that ever accepted a document admits every wanted
      user, and of the users whose group still exists nobody else. */
  ghost predicate Converged(q: Plane) {
    q.pending == {}
    && forall n, slot, id :: n in q.db.nodes && n in q.docs && q.db.nodes[n].groups != {} ==>
         (Wanted(q.db, n, slot, id, q.now) ==> Holds(q, n, slot, id))
         && (Holds(q, n, slot, id) && Housed(q, id) ==> Wanted(q.db, n, slot, id, q.now))
  }

  /** Convergence. In an orderly run, one sweep whose pushes are all accepted leaves no group owed
      and every attached node that ever accepted a document with exactly its groups' entitled
      users, ids of deleted groups aside. */
  lemma SweepConverges(planes: seq<Plane>, events: seq<Event>, k: nat)
    requires OrderlyRun(planes, events) && k < |events| && events[k].Sweep?
    requires AllAccepted(planes[k], events[k].acked)
    ensures Converged(planes[k + 1])
  {
    var p, q := planes[k], planes[k + 1];
    RunIsSettled(planes, events, k + 1);
    AcceptedSweepOwesNothing(p, events[k].acked, q);
    forall n, slot, id | n in q.db.nodes && n in q.docs && q.db.nodes[n].groups != {}
      ensures Wanted(q.db, n, slot, id, q.now) ==> Holds(q, n, slot, id)
      ensures Holds(q, n, slot, id) && Housed(q, id) ==> Wanted(q.db, n, slot, id, q.now)
    {
      SettledNode(q, n, slot, id);
    }
  }

  lemma AcceptedSweepOwesNothing(p: Plane, acked: set<(GroupId, NodeId)>, q: Plane)
    requires Step(p, Sweep(acked), q) && AllAccepted(p, acked)
    ensures q.pending == {}
  {
    assert SweepGroups(p) >= p.pending;
    forall g | g in SweepGroups(p) ensures g in Cleared(Swept(p).db, SweepGroups(p), acked) {
      assert Swept(p).db.NodesOf(g) == p.db.NodesOf(g);
    }
  }

  lemma SettledNode(q: Plane, n: NodeId, slot: Slot, id: UserId)
    requires Settled(q) && q.pending == {} && q.sampled == Sampling(q.db, q.now)
    requires n in q.db.nodes && n in q.docs && q.db.nodes[n].groups != {}
    ensures Wanted(q.db, n, slot, id, q.now) ==> Holds(q, n, slot, id)
    ensures Holds(q, n, slot, id) && Housed(q, id) ==> Wanted(q.db, n, slot, id, q.now)
  {
    if Wanted(q.db, n, slot, id, q.now) {
      assert SettledFor(q, n, slot, id);
    }
    if Holds(q, n, slot, id) && Housed(q, id) {
      var g :| g in q.db.nodes[n].groups;
      assert g !in q.pending && q.home[id] in q.db.nodes[n].groups;
      assert SettledFor(q, n, slot, id);
    }
  }
}
