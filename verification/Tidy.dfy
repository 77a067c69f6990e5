/** Convergence without exceptions, for runs that create nodes unattached and delete groups only with
    nothing owed to them. */
module Tidy {
  import opened Storage
  import opened Desired
  import opened Plane
  import opened Kicks
  import opened Convergence

  /** Nodes are created unattached, and groups are deleted only when no push is owed to them. */
  predicate TidyEvent(p: Plane, e: Event) {
    (e.CreateNode? ==> e.node.groups == {}) && (e.DeleteGroup? ==> e.g !in p.pending)
  }

  /** All groups of a node are owed a push while the node never accepted a document, and while it
      holds a user whose group is gone. */
  ghost predicate Tidy(p: Plane) {
    (forall n :: n in p.db.nodes && n !in p.docs ==> p.db.nodes[n].groups <= p.pending)
    && (forall n, slot, id :: n in p.db.nodes && Holds(p, n, slot, id) && id in p.home && !Housed(p, id) ==>
          p.db.nodes[n].groups <= p.pending)
  }

  /** A settled group without users has nobody on its nodes. */
  lemma EmptyGroupHoldsNobody(p: Plane, g: GroupId, n: NodeId, slot: Slot, id: UserId)
    requires Settled(p) && g !in p.pending && forall j :: j in p.db.users ==> p.db.users[j].group != g
    requires n in p.db.nodes && g in p.db.nodes[n].groups && id in p.home && p.home[id] == g
    ensures !Holds(p, n, slot, id)
  {
    if n in p.docs {
      assert SettledFor(p, n, slot, id);
    }
  }

  lemma DeleteGroupTidies(p: Plane, g: GroupId, q: Plane)
    requires Settled(p) && Tidy(p) && Step(p, DeleteGroup(g), q) && g !in p.pending
    ensures Tidy(q)
  {
    forall n, slot, id | n in q.db.nodes && Holds(q, n, slot, id) && id in q.home && !Housed(q, id)
      ensures q.db.nodes[n].groups <= q.pending
    {
      assert Holds(p, n, slot, id);
      if p.home[id] == g && g in p.db.nodes[n].groups {
        EmptyGroupHoldsNobody(p, g, n, slot, id);
      }
    }
  }

  lemma FreshIsHoused(p: Plane, n: NodeId, doc: Doc, slot: Slot, id: UserId)
    requires Fresh(p.db, n, p.now, doc) && id in doc.Ids(slot)
    requires forall j :: j in p.db.users ==> j in p.home && p.home[j] == p.db.users[j].group
    ensures Housed(p, id)
  {
    FreshIsWanted(p.db, n, p.now, doc, slot);
    assert Wanted(p.db, n, slot, id, p.now);
  }

  lemma PushTidies(p: Plane, gs: set<GroupId>, acked: set<(GroupId, NodeId)>, q: Plane)
    requires Issued(p) && AttachedExist(p) && Tidy(p) && Pushed(p, gs, acked, q)
    ensures Tidy(q)
  {
    forall n | n in q.db.nodes && !Acked(acked, n) && p.db.nodes[n].groups <= p.pending
      ensures q.db.nodes[n].groups <= q.pending
    {
      forall g | g in p.db.nodes[n].groups ensures g !in Cleared(p.db, gs, acked) {
        if g in gs {
          assert n in p.db.NodesOf(g) && (g, n) !in acked;
        }
      }
    }
    forall n, slot, id | Holds(q, n, slot, id)
      ensures if Acked(acked, n) then Housed(q, id) else Holds(p, n, slot, id)
    {
      if Acked(acked, n) {
        FreshIsHoused(p, n, q.docs[n], slot, id);
      }
    }
  }

  /** The same documents over tables that attach nodes to no more groups. */
  lemma SameDocsStayTidy(p: Plane, m: Plane)
    requires Tidy(p) && Issued(p) && m.docs == p.docs && m.pending == p.pending
    requires forall id :: id in p.home ==> id in m.home && m.home[id] == p.home[id]
    requires m.db.nodes.Keys == p.db.nodes.Keys && forall n :: n in p.db.nodes ==>
               m.db.nodes[n].groups == p.db.nodes[n].groups
    requires p.db.groups.Keys <= m.db.groups.Keys
    ensures Tidy(m)
  {
    assert forall n, slot, id :: Holds(m, n, slot, id) ==> Holds(p, n, slot, id);
  }

  lemma RefreshTidies(p: Plane, n: NodeId, ok: bool, q: Plane)
    requires Tidy(p) && AttachedExist(p) && Issued(p) && Refreshed(p, n, ok, q)
    ensures Tidy(q)
  {
    if ok {
      forall m, slot, id | Holds(q, m, slot, id) ensures if m == n then Housed(q, id) else Holds(p, m, slot, id) {
        if m == n {
          FreshIsHoused(p, n, q.docs[n], slot, id);
        }
      }
    }
  }

  lemma NodeGroupsTidies(p: Plane, n: NodeId, groups: set<GroupId>, ok: bool, q: Plane)
    requires Settled(p) && Tidy(p) && Step(p, SetNodeGroups(n, groups, ok), q)
    ensures Tidy(q)
  {
    forall m, slot, id | Holds(q, m, slot, id) ensures if m == n && ok then Housed(q, id) else Holds(p, m, slot, id) {
      if m == n && ok {
        FreshIsHoused(WithNode(p, n, p.db.nodes[n].(groups := groups)), n, q.docs[n], slot, id);
      }
    }
  }

  lemma UserStepTidies(p: Plane, e: Event, q: Plane)
    requires Settled(p) && Tidy(p) && Step(p, e, q)
    requires e.CreateUsers? || e.PatchUser? || e.RevokeUser? || e.DeleteUser?
    ensures Tidy(q)
  {
    var m :=
      if e.CreateUsers? then WithUsers(p, e.g, e.users)
      else if e.PatchUser? then WithUser(p, e.id, e.user)
      else if e.RevokeUser? then WithUser(p, e.id, p.db.users[e.id].(status := "revoked"))
      else WithoutUser(p, e.id);
    SameDocsStayTidy(p, m);
    if e.CreateUsers? {
      NewUsersChange(p, e.g, e.users);
      PushTidies(m, {e.g}, e.acked, q);
    } else if e.PatchUser? {
      if e.touches {
        SameDocsStayIssued(p, m);
        PushTidies(m, {e.user.group}, e.acked, q);
      }
    } else {
      SameDocsStayIssued(p, m);
      PushTidies(m, {p.db.users[e.id].group}, e.acked, q);
    }
  }

  lemma NodeComesOrGoesTidies(p: Plane, e: Event, q: Plane)
    requires Tidy(p) && Step(p, e, q) && TidyEvent(p, e) && (e.CreateNode? || e.DeleteNode?)
    ensures Tidy(q)
  {
    assert forall n, slot, id :: Holds(q, n, slot, id) ==> Holds(p, n, slot, id);
  }

  lemma NodeStepTidies(p: Plane, e: Event, q: Plane)
    requires Settled(p) && Tidy(p) && Step(p, e, q) && TidyEvent(p, e)
    requires e.CreateNode? || e.DeleteNode? || e.PatchNode? || e.ApplyNode?
    ensures Tidy(q)
  {
    if e.PatchNode? {
      var m := WithNode(p, e.n, p.db.nodes[e.n].(name := e.name, hostname := e.hostname));
      SameDocsStayTidy(p, m);
      SameDocsStayIssued(p, m);
      RefreshTidies(m, e.n, e.ok, q);
    } else if e.ApplyNode? {
      RefreshTidies(p, e.n, e.ok, q);
    } else {
      NodeComesOrGoesTidies(p, e, q);
    }
  }

  lemma QuietStepTidies(p: Plane, e: Event, q: Plane)
    requires Settled(p) && Tidy(p) && Step(p, e, q) && Orderly(p, e)
    requires e.Tick? || e.Enroll? || e.CreateGroup? || e.Restart?
    ensures Tidy(q)
  {
    SameDocsStayTidy(p, q);
  }

  lemma StepTidies(p: Plane, e: Event, q: Plane)
    requires Settled(p) && Tidy(p) && Step(p, e, q) && Orderly(p, e) && TidyEvent(p, e)
    ensures Tidy(q)
  {
    if e.CreateUsers? || e.PatchUser? || e.RevokeUser? || e.DeleteUser? {
      UserStepTidies(p, e, q);
    } else if e.DeleteGroup? {
      DeleteGroupTidies(p, e.g, q);
    } else if e.SetNodeGroups? {
      NodeGroupsTidies(p, e.n, e.groups, e.ok, q);
    } else if e.PatchGroup? || e.Collect? || e.Sweep? {
      PushStepTidies(p, e, q);
    } else if e.Tick? || e.Enroll? || e.CreateGroup? || e.Restart? {
      QuietStepTidies(p, e, q);
    } else {
      NodeStepTidies(p, e, q);
    }
  }

  lemma PushStepTidies(p: Plane, e: Event, q: Plane)
    requires Settled(p) && Tidy(p) && Step(p, e, q) && Orderly(p, e) && (e.PatchGroup? || e.Collect? || e.Sweep?)
    ensures Tidy(q)
  {
    if e.PatchGroup? {
      var m := p.(db := p.db.(groups := p.db.groups[e.g := Group(e.protocols)]));
      SameDocsStayTidy(p, m);
      SameDocsStayIssued(p, m);
      PushTidies(m, {e.g}, e.acked, q);
    } else if e.Collect? {
      CollectKeepsAccounts(p.db, e.readings);
      CollectChanges(p, e.readings);
      SameDocsStayTidy(p, p.(db := CollectedDb(p.db, e.readings)));
      PushTidies(p.(db := CollectedDb(p.db, e.readings)), Crossings(p.db, e.readings, p.now), e.acked, q);
    } else {
      SweptSettles(p);
      SameDocsStayTidy(p, Swept(p));
      PushTidies(Swept(p), SweepGroups(p), e.acked, q);
    }
  }

  lemma {:induction false} RunIsTidy(planes: seq<Plane>, events: seq<Event>, k: nat)
    requires OrderlyRun(planes, events) && k <= |events|
    requires forall i :: 0 <= i < |events| ==> TidyEvent(planes[i], events[i])
    ensures Tidy(planes[k])
  {
    if k > 0 {
      RunIsTidy(planes, events, k - 1);
      RunIsSettled(planes, events, k - 1);
      StepTidies(planes[k - 1], events[k - 1], planes[k]);
    }
  }

  /** Corollary. When nodes are also created unattached, and groups deleted only with nothing owed to
      them, every attached node without exception is left with exactly its groups' entitled users. */
  lemma TidySweepConverges(planes: seq<Plane>, events: seq<Event>, k: nat, n: NodeId)
    requires OrderlyRun(planes, events) && k < |events| && events[k].Sweep?
    requires forall i :: 0 <= i < |events| ==> TidyEvent(planes[i], events[i])
    requires AllAccepted(planes[k], events[k].acked)
    requires n in planes[k + 1].db.nodes && planes[k + 1].db.nodes[n].groups != {}
    ensures planes[k + 1].pending == {} && Exact(planes[k + 1], n)
  {
    var q := planes[k + 1];
    SweepConverges(planes, events, k);
    RunIsTidy(planes, events, k + 1);
    RunIsSettled(planes, events, k + 1);
    forall slot, id ensures Holds(q, n, slot, id) <==> Wanted(q.db, n, slot, id, q.now) {
      assert Holds(q, n, slot, id) ==> id in q.home;
    }
  }
}
