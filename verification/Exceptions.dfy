/** What an accepted sweep does not repair: runs that break convergence, and from which states it is
    reached. */
module Exceptions {
  import opened Storage
  import opened Desired
  import opened Plane
  import opened Kicks
  import opened Convergence

  /** Deleting a group that is owed a push selects no other group. */
  lemma DeletedGroupSelectsNoOther(p: Plane, q: Plane, g: GroupId)
    requires SweepGroups(p) == {} && q == p.(pending := q.pending) && q.pending <= {g}
    ensures SweepGroups(WithoutGroup(q, g)) <= {g}
  {
    forall h | h in SweepGroups(WithoutGroup(q, g)) && h != g ensures h in SweepGroups(p) {
    }
  }

  /** A sweep that selects only a group without nodes owes nothing and changes no document. */
  lemma NoNodesNothingOwed(r: Plane, g: GroupId) returns (s: Plane)
    requires SweepGroups(r) <= {g} && r.db.NodesOf(g) == {}
    ensures Step(r, Sweep({}), s) && AllAccepted(r, {})
    ensures s.pending == {} && s.docs == r.docs && s.db.users.Keys == r.db.users.Keys
  {
    s := RefusedPush(Swept(r), SweepGroups(r));
    assert Swept(r).db.NodesOf(g) == {};
  }

  /** A user deleted while a node refuses the push, whose group is then deleted too: the push owed
      to the group is dropped by the next sweep, and the credential stays on the node. */
  lemma DeletedUserSurvives(p: Plane, n: NodeId, slot: Slot, id: UserId) returns (q: Plane, r: Plane, s: Plane)
    requires id in p.db.users && p.db.users[id].group in p.db.groups && n in p.db.NodesOf(p.db.users[id].group)
    requires Holds(p, n, slot, id)
    requires forall j :: j in p.db.users && j != id ==> p.db.users[j].group != p.db.users[id].group
    requires SweepGroups(WithoutUser(p, id)) == {}
    ensures Step(p, DeleteUser(id, {}), q) && Step(q, DeleteGroup(p.db.users[id].group), r) && Step(r, Sweep({}), s)
    ensures AllAccepted(r, {}) && s.pending == {} && Holds(s, n, slot, id) && id !in s.db.users
  {
    var g := p.db.users[id].group;
    q := RefusedPush(WithoutUser(p, id), {g});
    r := WithoutGroup(q, g);
    DeletedGroupSelectsNoOther(WithoutUser(p, id), q, g);
    assert r.db.NodesOf(g) == {};
    s := NoNodesNothingOwed(r, g);
  }

  /** A node created already attached gets no document from sweeps while its groups are quiet, not
      even with every push accepted, though a user is wanted on it. */
  lemma NodeCreatedAttachedStaysEmpty(p: Plane, n: NodeId, node: Node, slot: Slot, id: UserId)
    returns (q: Plane, r: Plane)
    requires n !in p.db.nodes && n !in p.docs && node.groups <= p.db.groups.Keys
    requires SweepGroups(p) == {} && Wanted(WithNode(p, n, node).db, n, slot, id, p.now)
    ensures Step(p, CreateNode(n, node), q) && Step(q, Sweep({}), r) && AllAccepted(q, {})
    ensures r.pending == {} && r.db.nodes.Keys == q.db.nodes.Keys && n !in r.docs
    ensures Wanted(r.db, n, slot, id, r.now) && !Holds(r, n, slot, id)
  {
    q := WithNode(p, n, node);
    assert SweepGroups(q) == SweepGroups(p);
    r := RefusedPush(Swept(q), SweepGroups(q));
    SweptKeepsWanted(q, n, slot, id);
  }

  /** The sweep pushes to node n. */
  ghost predicate Selected(p: Plane, n: NodeId) {
    n in p.db.nodes && exists g :: g in p.db.nodes[n].groups && g in SweepGroups(p)
  }

  lemma SelectedIsAcked(p: Plane, acked: set<(GroupId, NodeId)>, q: Plane, n: NodeId)
    requires Step(p, Sweep(acked), q) && AllAccepted(p, acked) && n in p.db.nodes
    ensures Acked(acked, n) <==> Selected(p, n)
  {
    if g :| g in p.db.nodes[n].groups && g in SweepGroups(p) {
      assert n in p.db.NodesOf(g) && (g, n) in acked;
    }
    if a :| a in acked && a.1 == n {
      assert n in Swept(p).db.NodesOf(a.0);
    }
  }

  /** From any state at all, restarts included, a sweep whose pushes are all accepted leaves a node
      exact if and only if it selects one of the node's groups, or the node was exact already. */
  lemma SweepMakesExactIff(p: Plane, acked: set<(GroupId, NodeId)>, q: Plane, n: NodeId)
    requires n in p.db.nodes && UniqueCredentials(q.db) && Step(p, Sweep(acked), q) && AllAccepted(p, acked)
    ensures Exact(q, n) <==> Selected(p, n) || Exact(Swept(p), n)
  {
    SelectedIsAcked(p, acked, q, n);
    if Selected(p, n) {
      forall slot, id ensures Holds(q, n, slot, id) <==> Wanted(q.db, n, slot, id, q.now) {
        FreshIsWanted(q.db, n, q.now, q.docs[n], slot);
      }
    } else {
      assert forall slot, id :: Holds(q, n, slot, id) <==> Holds(Swept(p), n, slot, id);
    }
  }

  predicate NobodyOut(p: Plane) {
    forall j :: j in p.db.users ==> p.db.users[j].EntitledAt(p.now) && !ZeroDue(p.db.users[j], p.now)
  }

  lemma StartedPlaneIsQuiet(r: Plane)
    requires NobodyOut(r) && r.pending == {} && r.sampled == map[]
    ensures SweepGroups(r) == {}
  {
    forall j | j in r.db.users ensures !Crossed(r.sampled, j, QuotaSwept(r.db.users[j], r.now).EntitledAt(r.now)) {
      QuotaStepEntitles(r.db.users[j], r.now);
    }
  }

  lemma SweptKeepsWanted(p: Plane, n: NodeId, slot: Slot, id: UserId)
    requires Wanted(p.db, n, slot, id, p.now)
    ensures Wanted(Swept(p).db, n, slot, id, p.now)
  {
    QuotaStepEntitles(p.db.users[id], p.now);
    assert HasCredential(slot, Swept(p).db.users[id]) == HasCredential(slot, p.db.users[id]);
  }

  /** A restart forgets the pushes owed: a user wanted on a node whose push was refused stays off it
      after the restart, even with every push of the next sweep accepted, while nobody is out. */
  lemma RestartForgetsPush(p: Plane, n: NodeId, slot: Slot, id: UserId) returns (r: Plane, q: Plane)
    requires Wanted(p.db, n, slot, id, p.now) && !Holds(p, n, slot, id)
    requires NobodyOut(p)
    ensures Step(p, Restart, r) && Step(r, Sweep({}), q) && AllAccepted(r, {})
    ensures q.pending == {} && Wanted(q.db, n, slot, id, q.now) && !Holds(q, n, slot, id)
  {
    r := p.(pending := {}, sampled := map[]);
    StartedPlaneIsQuiet(r);
    q := RefusedPush(Swept(r), SweepGroups(r));
    SweptKeepsWanted(r, n, slot, id);
  }

  /** Exactly when a node created attached is filled by the next sweep with every push accepted:
      when the sweep selects one of its groups, or nobody is wanted on it. */
  lemma NewNodeFilledIff(p: Plane, n: NodeId, node: Node, acked: set<(GroupId, NodeId)>, q: Plane)
    requires n !in p.db.nodes && n !in p.docs && UniqueCredentials(q.db)
    requires Step(WithNode(p, n, node), Sweep(acked), q) && AllAccepted(WithNode(p, n, node), acked)
    ensures (forall slot, id :: Holds(q, n, slot, id) <==> Wanted(q.db, n, slot, id, q.now))
            <==> Selected(WithNode(p, n, node), n) || forall slot, id :: !Wanted(q.db, n, slot, id, q.now)
  {
    var m := WithNode(p, n, node);
    SelectedIsAcked(m, acked, q, n);
    if Selected(m, n) {
      forall slot, id ensures Holds(q, n, slot, id) <==> Wanted(q.db, n, slot, id, q.now) {
        FreshIsWanted(q.db, n, q.now, q.docs[n], slot);
      }
    } else {
      assert forall slot, id :: !Holds(q, n, slot, id);
    }
  }

  /** Exactly when a deleted user left on a node is cleared by the next sweep with every push
      accepted, once its group is deleted too: when the sweep selects another group of the node. */
  lemma StrayClearedIff(p: Plane, g: GroupId, acked: set<(GroupId, NodeId)>, q: Plane, n: NodeId, slot: Slot,
                        id: UserId)
    requires n in p.db.nodes && Holds(p, n, slot, id) && id !in p.db.users
    requires Step(WithoutGroup(p, g), Sweep(acked), q) && AllAccepted(WithoutGroup(p, g), acked)
    ensures !Holds(q, n, slot, id) <==> Selected(WithoutGroup(p, g), n)
  {
    var m := WithoutGroup(p, g);
    SelectedIsAcked(m, acked, q, n);
    if Selected(m, n) {
      FreshIsWanted(q.db, n, q.now, q.docs[n], slot);
    }
  }
}
