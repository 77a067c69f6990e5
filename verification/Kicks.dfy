/** Kick safety of the control plane over every run, restarts included. */
module Kicks {
  import opened Entitlement
  import opened Storage
  import opened Desired
  import opened Plane

  // A fresh document holds wanted users only, and all of them when credentials are unique.

  ghost predicate UniqueCredentials(db: Db) {
    forall a, b, slot :: a in db.users && b in db.users && a != b
      && HasCredential(slot, db.users[a]) && HasCredential(slot, db.users[b])
      ==> EntryFor(slot, Row(a, db.users[a])).key != EntryFor(slot, Row(b, db.users[b])).key
  }

  lemma DocList(n: Node, rows: seq<GroupRows>, keys: RealityKeys, now: Time, slot: Slot)
    requires Compile(n, rows, keys, now).Ok?
    ensures Compile(n, rows, keys, now).value.At(slot)
            == if SlotServed(n, slot) then ListFor(n.families, rows, slot, now) else []
  {
    if slot == ByHy2 && Hy2 !in n.families {
      EmptyList(n.families, rows, slot, now);
    } else if slot == ByTT && TT !in n.families {
      EmptyList(n.families, rows, slot, now);
    }
  }

  lemma {:induction false} EmptyList(families: seq<Family>, rows: seq<GroupRows>, slot: Slot, now: Time)
    requires forall g :: !Permits(families, g, slot)
    ensures ListFor(families, rows, slot, now) == []
  {
    NoCandidates(families, rows, slot, now);
  }

  lemma {:induction false} NoCandidates(families: seq<Family>, rows: seq<GroupRows>, slot: Slot, now: Time)
    requires forall g :: !Permits(families, g, slot)
    ensures Candidates(families, rows, slot, now) == []
  {
    if rows != [] {
      NoCandidates(families, rows[..|rows| - 1], slot, now);
    }
  }

  lemma ListedIsWanted(db: Db, n: NodeId, rows: seq<GroupRows>, slot: Slot, now: Time, e: Entry)
    requires n in db.nodes && SnapshotOf(db, db.nodes[n], rows) && SlotServed(db.nodes[n], slot)
    requires e in ListFor(db.nodes[n].families, rows, slot, now)
    ensures Wanted(db, n, slot, e.id, now) && e == EntryFor(slot, Row(e.id, db.users[e.id]))
  {
    var families := db.nodes[n].families;
    DesiredListIsExact(families, rows, slot, now);
    var all := Candidates(families, rows, slot, now);
    assert FirstWithKey(all, e);
    var i, j := CandidateIsEarned(families, rows, slot, now, e);
    assert GroupSnapshot(db, rows[i]);
  }

  lemma WantedIsListed(db: Db, n: NodeId, rows: seq<GroupRows>, slot: Slot, now: Time, id: UserId)
    requires n in db.nodes && SnapshotOf(db, db.nodes[n], rows) && UniqueCredentials(db)
    requires Wanted(db, n, slot, id, now)
    ensures exists e :: e in ListFor(db.nodes[n].families, rows, slot, now) && e.id == id
  {
    var families, u := db.nodes[n].families, db.users[id];
    DesiredListIsExact(families, rows, slot, now);
    var i :| 0 <= i < |rows| && rows[i].gid == u.group;
    assert GroupSnapshot(db, rows[i]);
    var j :| 0 <= j < |rows[i].users| && rows[i].users[j].id == id;
    assert Earns(families, rows, slot, now, i, j);
    var key := EntryFor(slot, rows[i].users[j]).key;
    assert key in Keys(ListFor(families, rows, slot, now));
    var e :| e in ListFor(families, rows, slot, now) && e.key == key;
    ListedIsWanted(db, n, rows, slot, now, e);
    assert e.id == id;
  }

  lemma FreshIsWanted(db: Db, n: NodeId, now: Time, doc: Doc, slot: Slot)
    requires Fresh(db, n, now, doc)
    ensures forall id :: id in doc.Ids(slot) ==> Wanted(db, n, slot, id, now)
    ensures UniqueCredentials(db) ==> forall id :: Wanted(db, n, slot, id, now) ==> id in doc.Ids(slot)
  {
    var rows, keys :| SnapshotOf(db, db.nodes[n], rows) && Compile(db.nodes[n], rows, keys, now) == Ok(doc);
    DocList(db.nodes[n], rows, keys, now, slot);
    forall id | id in doc.Ids(slot) ensures Wanted(db, n, slot, id, now) {
      var e :| e in doc.At(slot) && e.id == id;
      ListedIsWanted(db, n, rows, slot, now, e);
    }
    if UniqueCredentials(db) {
      forall id | Wanted(db, n, slot, id, now) ensures id in doc.Ids(slot) {
        WantedIsListed(db, n, rows, slot, now, id);
      }
    }
  }

  // The invariant.

  /** The next sweep will notice if the user is out. */
  predicate Watched(p: Plane, id: UserId) {
    id in p.sampled ==> p.sampled[id]
  }

  /** Ids belong to one group for good, and nothing knows an id that was never issued. */
  ghost predicate Issued(p: Plane) {
    (forall id :: id in p.db.users ==> id in p.home && p.home[id] == p.db.users[id].group)
    && (forall id :: id in p.sampled ==> id in p.home)
    && (forall n, slot, id :: Holds(p, n, slot, id) ==> id in p.home)
  }

  /** A stored user of an attached group that is on a node is entitled, or watched, or the group is
      owed a push. Groups in gs are about to be pushed and are not looked at. */
  ghost predicate CoveredBut(p: Plane, gs: set<GroupId>) {
    forall n, slot, id ::
      Holds(p, n, slot, id) && id in p.db.users && n in p.db.nodes && p.db.users[id].group in p.db.nodes[n].groups
      && p.db.users[id].group !in gs && p.db.users[id].group !in p.pending
      ==> p.db.users[id].EntitledAt(p.now) || Watched(p, id)
  }

  ghost predicate Covered(p: Plane) {
    Issued(p) && CoveredBut(p, {})
  }

  lemma PushedNode(p: Plane, gs: set<GroupId>, acked: set<(GroupId, NodeId)>, q: Plane, n: NodeId, g: GroupId)
    requires Pushed(p, gs, acked, q) && n in p.db.NodesOf(g) && !Acked(acked, n) && g !in q.pending
    ensures g !in gs && g !in p.pending
  {
    assert (g, n) !in acked;
    assert g !in Cleared(p.db, gs, acked);
  }

  lemma PushKeepsIssued(p: Plane, gs: set<GroupId>, acked: set<(GroupId, NodeId)>, q: Plane)
    requires Issued(p) && Pushed(p, gs, acked, q)
    ensures Issued(q)
  {
    forall n, slot, id | Holds(q, n, slot, id) ensures id in q.home {
      if Acked(acked, n) {
        FreshIsWanted(p.db, n, p.now, q.docs[n], slot);
      } else {
        assert Holds(p, n, slot, id);
      }
    }
  }

  lemma PushCovers(p: Plane, gs: set<GroupId>, acked: set<(GroupId, NodeId)>, q: Plane)
    requires Issued(p) && CoveredBut(p, gs) && Pushed(p, gs, acked, q)
    ensures Covered(q)
  {
    PushKeepsIssued(p, gs, acked, q);
    forall n, slot, id |
      Holds(q, n, slot, id) && id in q.db.users && n in q.db.nodes && q.db.users[id].group in q.db.nodes[n].groups
      && q.db.users[id].group !in q.pending
      ensures q.db.users[id].EntitledAt(q.now) || Watched(q, id)
    {
      if Acked(acked, n) {
        FreshIsWanted(p.db, n, p.now, q.docs[n], slot);
      } else {
        PushedNode(p, gs, acked, q, n, q.db.users[id].group);
        assert Holds(p, n, slot, id);
      }
    }
  }

  lemma RefreshCovers(p: Plane, n: NodeId, ok: bool, q: Plane)
    requires Covered(p) && Refreshed(p, n, ok, q)
    ensures Covered(q)
  {
    if ok {
      forall m, slot, id | Holds(q, m, slot, id)
        ensures if m == n then Wanted(p.db, n, slot, id, p.now) else Holds(p, m, slot, id)
      {
        if m == n {
          FreshIsWanted(p.db, n, p.now, q.docs[n], slot);
        }
      }
    }
  }

  // The steps.

  /** No user sampled as out is entitled now and expires by then. */
  predicate Calm(p: Plane, later: Time) {
    forall id :: id in p.db.users && id in p.sampled && !p.sampled[id] && p.db.users[id].EntitledAt(p.now)
      ==> p.db.users[id].EntitledAt(later)
  }

  predicate CalmEvent(p: Plane, e: Event) {
    e.Tick? ==> Calm(p, e.later)
  }

  lemma SameDocsHold(p: Plane, m: Plane)
    requires m.docs == p.docs
    ensures forall n, slot, id :: Holds(m, n, slot, id) <==> Holds(p, n, slot, id)
  {
  }

  lemma PatchUserCovers(p: Plane, id: UserId, u: User, touches: bool, acked: set<(GroupId, NodeId)>, q: Plane)
    requires Covered(p) && Step(p, PatchUser(id, u, touches, acked), q)
    ensures Covered(q)
  {
    var m := WithUser(p, id, u);
    SameDocsHold(p, m);
    if touches {
      PushCovers(m, {u.group}, acked, q);
    }
  }

  lemma RevokeUserCovers(p: Plane, id: UserId, acked: set<(GroupId, NodeId)>, q: Plane)
    requires Covered(p) && Step(p, RevokeUser(id, acked), q)
    ensures Covered(q)
  {
    var m := WithUser(p, id, p.db.users[id].(status := "revoked"));
    SameDocsHold(p, m);
    PushCovers(m, {p.db.users[id].group}, acked, q);
  }

  lemma DeleteUserCovers(p: Plane, id: UserId, acked: set<(GroupId, NodeId)>, q: Plane)
    requires Covered(p) && Step(p, DeleteUser(id, acked), q)
    ensures Covered(q)
  {
    var m := WithoutUser(p, id);
    SameDocsHold(p, m);
    PushCovers(m, {p.db.users[id].group}, acked, q);
  }

  lemma CreateUsersCovers(p: Plane, g: GroupId, users: map<UserId, User>, acked: set<(GroupId, NodeId)>, q: Plane)
    requires Covered(p) && Step(p, CreateUsers(g, users, acked), q)
    ensures Covered(q)
  {
    var m := WithUsers(p, g, users);
    SameDocsHold(p, m);
    PushCovers(m, {g}, acked, q);
  }

  lemma UserStepCovers(p: Plane, e: Event, q: Plane)
    requires Covered(p) && Step(p, e, q) && (e.CreateUsers? || e.PatchUser? || e.RevokeUser? || e.DeleteUser?)
    ensures Covered(q)
  {
    if e.CreateUsers? {
      CreateUsersCovers(p, e.g, e.users, e.acked, q);
    } else if e.PatchUser? {
      PatchUserCovers(p, e.id, e.user, e.touches, e.acked, q);
    } else if e.RevokeUser? {
      RevokeUserCovers(p, e.id, e.acked, q);
    } else {
      DeleteUserCovers(p, e.id, e.acked, q);
    }
  }

  lemma PatchNodeCovers(p: Plane, n: NodeId, name: string, hostname: string, ok: bool, q: Plane)
    requires Covered(p) && Step(p, PatchNode(n, name, hostname, ok), q)
    ensures Covered(q)
  {
    var m := WithNode(p, n, p.db.nodes[n].(name := name, hostname := hostname));
    SameDocsHold(p, m);
    RefreshCovers(m, n, ok, q);
  }

  /** Documents and users stay, and no node is attached to more groups than before. */
  lemma SmallerTablesCover(p: Plane, q: Plane)
    requires Covered(p) && q == p.(db := q.db, docs := q.docs) && q.db.users == p.db.users
    requires forall n :: n in q.docs ==> n in p.docs && q.docs[n] == p.docs[n]
    requires forall n :: n in q.docs && n in q.db.nodes ==>
               n in p.db.nodes && q.db.nodes[n].groups <= p.db.nodes[n].groups
    ensures Covered(q)
  {
    assert forall n, slot, i :: Holds(q, n, slot, i) ==> Holds(p, n, slot, i);
  }

  lemma TableStepCovers(p: Plane, e: Event, q: Plane)
    requires Covered(p) && Step(p, e, q)
    requires e.CreateNode? || e.Enroll? || e.DeleteNode? || e.CreateGroup? || e.DeleteGroup?
    ensures Covered(q)
  {
    SmallerTablesCover(p, q);
  }

  lemma PatchGroupCovers(p: Plane, g: GroupId, protocols: seq<Family>, acked: set<(GroupId, NodeId)>, q: Plane)
    requires Covered(p) && Step(p, PatchGroup(g, protocols, acked), q)
    ensures Covered(q)
  {
    var m := p.(db := p.db.(groups := p.db.groups[g := Group(protocols)]));
    SmallerTablesCover(p, m);
    PushCovers(m, {g}, acked, q);
  }

  lemma TickCovers(p: Plane, later: Time, q: Plane)
    requires Covered(p) && Step(p, Tick(later), q) && Calm(p, later)
    ensures Covered(q)
  {
    SameDocsHold(p, q);
  }

  lemma RestartCovers(p: Plane, q: Plane)
    requires Covered(p) && Step(p, Restart, q)
    ensures Covered(q)
  {
    SameDocsHold(p, q);
  }

  lemma SweepCovers(p: Plane, acked: set<(GroupId, NodeId)>, q: Plane)
    requires Covered(p) && Step(p, Sweep(acked), q)
    ensures Covered(q)
  {
    SweptIsCoveredButGroups(p);
    PushCovers(Swept(p), SweepGroups(p), acked, q);
  }

  lemma SetNodeGroupsCovers(p: Plane, n: NodeId, groups: set<GroupId>, ok: bool, q: Plane)
    requires Covered(p) && Step(p, SetNodeGroups(n, groups, ok), q)
    ensures Covered(q)
  {
    var m := WithNode(p, n, p.db.nodes[n].(groups := groups));
    forall k, slot, id | Holds(q, k, slot, id)
      ensures if ok && k == n then Wanted(m.db, n, slot, id, p.now) else Holds(p, k, slot, id)
    {
      if ok && k == n {
        FreshIsWanted(m.db, n, p.now, q.docs[n], slot);
      }
    }
  }

  lemma {:induction false} CollectKeepsAccounts(db: Db, readings: seq<Reading>)
    ensures var after := CollectedDb(db, readings);
            after.users.Keys == db.users.Keys && after.groups == db.groups && after.nodes == db.nodes
            && forall id :: id in db.users ==> SameAccount(db.users[id], after.users[id])
  {
    if readings != [] {
      CollectKeepsAccounts(db, readings[..|readings| - 1]);
    }
  }

  /** A user who starts a collect entitled and ends it out has its group pushed. */
  lemma {:induction false} CollectSeesCrossing(db: Db, readings: seq<Reading>, now: Time, id: UserId)
    requires id in db.users && db.users[id].EntitledAt(now)
    requires id in CollectedDb(db, readings).users && !CollectedDb(db, readings).users[id].EntitledAt(now)
    ensures db.users[id].group in Crossings(db, readings, now)
  {
    if readings != [] {
      var before := readings[..|readings| - 1];
      CollectKeepsAccounts(db, before);
      if !CollectedDb(db, before).users[id].EntitledAt(now) {
        CollectSeesCrossing(db, before, now, id);
      }
    }
  }

  lemma CollectCovers(p: Plane, readings: seq<Reading>, acked: set<(GroupId, NodeId)>, q: Plane)
    requires Covered(p) && Step(p, Collect(readings, acked), q)
    ensures Covered(q)
  {
    var m := p.(db := CollectedDb(p.db, readings));
    var gs := Crossings(p.db, readings, p.now);
    CollectKeepsAccounts(p.db, readings);
    assert forall n, slot, id :: Holds(m, n, slot, id) ==> Holds(p, n, slot, id);
    forall n, slot, id |
      Holds(m, n, slot, id) && id in m.db.users && n in m.db.nodes && m.db.users[id].group in m.db.nodes[n].groups
      && m.db.users[id].group !in gs && m.db.users[id].group !in m.pending
      ensures m.db.users[id].EntitledAt(m.now) || Watched(m, id)
    {
      assert Holds(p, n, slot, id);
      if p.db.users[id].EntitledAt(p.now) && !m.db.users[id].EntitledAt(p.now) {
        CollectSeesCrossing(p.db, readings, p.now, id);
      }
    }
    PushCovers(m, gs, acked, q);
  }

  /** The quota step only ever gives entitlement, and then the group is pushed. */
  lemma QuotaStepEntitles(u: User, now: Time)
    ensures u.EntitledAt(now) ==> QuotaSwept(u, now).EntitledAt(now)
    ensures !ZeroDue(u, now) ==> QuotaSwept(u, now).EntitledAt(now) == u.EntitledAt(now)
    ensures SameAccount(u, QuotaSwept(u, now))
  {
  }

  /** A stored user that is out and watched is in a group the sweep pushes. */
  lemma SweepSees(p: Plane, id: UserId)
    requires id in p.db.users && Watched(p, id) && !QuotaSwept(p.db.users[id], p.now).EntitledAt(p.now)
    ensures p.db.users[id].group in SweepGroups(p)
  {
    assert Crossed(p.sampled, id, QuotaSwept(p.db.users[id], p.now).EntitledAt(p.now));
  }

  lemma SweptIsCoveredButGroups(p: Plane)
    requires Covered(p)
    ensures Issued(Swept(p)) && CoveredBut(Swept(p), SweepGroups(p))
  {
    var m := Swept(p);
    assert forall n, slot, id :: Holds(m, n, slot, id) ==> Holds(p, n, slot, id);
    forall id | id in p.db.users
      ensures m.db.users[id].group == p.db.users[id].group
      ensures m.db.users[id].group !in SweepGroups(p) ==> m.db.users[id].EntitledAt(p.now) || !Watched(p, id)
    {
      QuotaStepEntitles(p.db.users[id], p.now);
      if Watched(p, id) && !m.db.users[id].EntitledAt(p.now) {
        SweepSees(p, id);
      }
    }
    forall n, slot, id |
      Holds(m, n, slot, id) && id in m.db.users && n in m.db.nodes && m.db.users[id].group in m.db.nodes[n].groups
      && m.db.users[id].group !in SweepGroups(p) && m.db.users[id].group !in m.pending
      ensures m.db.users[id].EntitledAt(m.now)
    {
      assert Holds(p, n, slot, id);
      QuotaStepEntitles(p.db.users[id], p.now);
    }
  }

  lemma StepCovers(p: Plane, e: Event, q: Plane)
    requires Covered(p) && Step(p, e, q) && CalmEvent(p, e)
    ensures Covered(q)
  {
    if e.Tick? {
      TickCovers(p, e.later, q);
    } else if e.PatchGroup? {
      PatchGroupCovers(p, e.g, e.protocols, e.acked, q);
    } else if e.PatchNode? {
      PatchNodeCovers(p, e.n, e.name, e.hostname, e.ok, q);
    } else if e.ApplyNode? {
      RefreshCovers(p, e.n, e.ok, q);
    } else if e.SetNodeGroups? {
      SetNodeGroupsCovers(p, e.n, e.groups, e.ok, q);
    } else if e.Collect? {
      CollectCovers(p, e.readings, e.acked, q);
    } else if e.Sweep? {
      SweepCovers(p, e.acked, q);
    } else if e.Restart? {
      RestartCovers(p, q);
    } else if e.CreateUsers? || e.PatchUser? || e.RevokeUser? || e.DeleteUser? {
      UserStepCovers(p, e, q);
    } else {
      TableStepCovers(p, e, q);
    }
  }

  /** Every stored user who is out is off every node of its group, or the group is owed a push. */
  ghost predicate Safe(p: Plane) {
    forall n, slot, id ::
      id in p.db.users && !p.db.users[id].EntitledAt(p.now) && n in p.db.NodesOf(p.db.users[id].group)
      ==> !Holds(p, n, slot, id) || p.db.users[id].group in p.pending
  }

  lemma SweepIsSafe(p: Plane, acked: set<(GroupId, NodeId)>, q: Plane)
    requires Covered(p) && Step(p, Sweep(acked), q)
    ensures Safe(q)
  {
    StepCovers(p, Sweep(acked), q);
    SweptIsCoveredButGroups(p);
    assert q.sampled == Sampling(q.db, q.now);
  }

  lemma {:induction false} RunIsCovered(planes: seq<Plane>, events: seq<Event>, k: nat)
    requires IsRun(planes, events) && k <= |events|
    requires forall i :: 0 <= i < |events| ==> CalmEvent(planes[i], events[i])
    requires Issued(planes[0]) && planes[0].sampled == map[]
    ensures Covered(planes[k])
  {
    if k == 0 {
      assert CoveredBut(planes[0], {});
    } else {
      RunIsCovered(planes, events, k - 1);
      StepCovers(planes[k - 1], events[k - 1], planes[k]);
    }
  }

  /** Kick safety. Over every run from a plane start, with any documents already on the nodes, any
      restarts and any refused applies, the state after each sweep is safe, provided no clock step
      expires a user who came back since the last sweep. */
  lemma KickSafety(planes: seq<Plane>, events: seq<Event>, k: nat)
    requires IsRun(planes, events) && k < |events| && events[k].Sweep?
    requires forall i :: 0 <= i < |events| ==> CalmEvent(planes[i], events[i])
    requires Issued(planes[0]) && planes[0].sampled == map[]
    ensures Safe(planes[k + 1])
  {
    RunIsCovered(planes, events, k);
    SweepIsSafe(planes[k], events[k].acked, planes[k + 1]);
  }

  // The clock condition is needed.

  /** Whatever the agents answer, the sweep kicks the user from the node or marks its group. */
  ghost predicate SweepAlwaysKicks(p: Plane, n: NodeId, slot: Slot, id: UserId, g: GroupId) {
    forall acked, q :: Pushed(Swept(p), SweepGroups(p), acked, q) ==> !Holds(q, n, slot, id) || g in q.pending
  }

  lemma RefusedPush(p: Plane, gs: set<GroupId>) returns (q: Plane)
    ensures Pushed(p, gs, {}, q) && q.docs == p.docs
    ensures forall n, g :: n in p.db.NodesOf(g) && g !in gs ==> (g in q.pending <==> g in p.pending)
  {
    q := p.(pending := p.pending + gs - Cleared(p.db, gs, {}));
  }

  /** From any state at all, a sweep is sure to deal with a user who is out and on a node of its
      group exactly when the sweep selects the group. So a user who is put back after being
      sampled as out, and then expires before the next sweep, is missed. */
  lemma SweepKicksIffGroupSelected(p: Plane, n: NodeId, slot: Slot, id: UserId)
    requires id in p.db.users && n in p.db.NodesOf(p.db.users[id].group) && Holds(p, n, slot, id)
    requires !QuotaSwept(p.db.users[id], p.now).EntitledAt(p.now)
    ensures SweepAlwaysKicks(p, n, slot, id, p.db.users[id].group) <==> p.db.users[id].group in SweepGroups(p)
  {
    var g := p.db.users[id].group;
    var m := Swept(p);
    QuotaStepEntitles(p.db.users[id], p.now);
    if g in SweepGroups(p) {
      forall acked, q | Pushed(m, SweepGroups(p), acked, q) ensures !Holds(q, n, slot, id) || g in q.pending {
        SelectedIsKicked(m, SweepGroups(p), acked, q, n, slot, id);
      }
    } else {
      var q := RefusedPush(m, SweepGroups(p));
      assert n in m.db.NodesOf(g);
      assert Holds(q, n, slot, id) && g !in q.pending;
    }
  }

  lemma SelectedIsKicked(m: Plane, gs: set<GroupId>, acked: set<(GroupId, NodeId)>, q: Plane, n: NodeId, slot: Slot,
                         id: UserId)
    requires Pushed(m, gs, acked, q)
    requires id in m.db.users && !m.db.users[id].EntitledAt(m.now)
    requires m.db.users[id].group in gs && n in m.db.NodesOf(m.db.users[id].group)
    ensures !Holds(q, n, slot, id) || m.db.users[id].group in q.pending
  {
    if Acked(acked, n) {
      FreshIsWanted(m.db, n, m.now, q.docs[n], slot);
    } else {
      assert (m.db.users[id].group, n) !in acked;
      assert m.db.users[id].group !in Cleared(m.db, gs, acked);
    }
  }

  /** A revoked user is never entitled again, and is off every node of its group, or the group is owed a
      push. */
  lemma RevokeEndsAccess(p: Plane, id: UserId, acked: set<(GroupId, NodeId)>, q: Plane, n: NodeId, slot: Slot)
    requires Step(p, RevokeUser(id, acked), q)
    ensures id in q.db.users && forall t :: !q.db.users[id].EntitledAt(t)
    ensures n in q.db.NodesOf(q.db.users[id].group) && Holds(q, n, slot, id) ==> q.db.users[id].group in q.pending
  {
    var u := p.db.users[id].(status := "revoked");
    if n in q.db.NodesOf(u.group) {
      SelectedIsKicked(WithUser(p, id, u), {u.group}, acked, q, n, slot, id);
    }
  }

  /** A deleted user leaves no row and no cursor, and is off every node of its group, or the group is
      owed a push. */
  lemma DeleteEndsAccess(p: Plane, id: UserId, acked: set<(GroupId, NodeId)>, q: Plane, n: NodeId, slot: Slot)
    requires Step(p, DeleteUser(id, acked), q)
    ensures id !in q.db.users && forall k :: k in q.db.cursors ==> k.user != id
    ensures n in q.db.NodesOf(p.db.users[id].group) && Holds(q, n, slot, id) ==> p.db.users[id].group in q.pending
  {
    var m, g := WithoutUser(p, id), p.db.users[id].group;
    if n in q.db.NodesOf(g) {
      if Acked(acked, n) {
        FreshIsWanted(m.db, n, m.now, q.docs[n], slot);
      } else {
        assert (g, n) !in acked;
        assert g !in Cleared(m.db, {g}, acked);
      }
    }
  }

  /** The lapse itself: sampled as out, entitled again, on a node, then expired by the clock, with
      the rest of its group as last sampled. The sweep neither kicks the user nor marks the group. */
  lemma LapseIsMissed(p: Plane, later: Time, n: NodeId, slot: Slot, id: UserId) returns (t: Plane, q: Plane)
    requires p.now <= later && id in p.db.users && n in p.db.NodesOf(p.db.users[id].group) && Holds(p, n, slot, id)
    requires p.db.users[id].EntitledAt(p.now) && !p.db.users[id].EntitledAt(later)
    requires p.db.users[id].group !in p.pending
    requires forall j :: j in p.db.users && p.db.users[j].group == p.db.users[id].group ==>
               !ZeroDue(p.db.users[j], later) && j in p.sampled && p.sampled[j] == p.db.users[j].EntitledAt(later)
    ensures Step(p, Tick(later), t) && Step(t, Sweep({}), q) && !Safe(q)
  {
    t := p.(now := later);
    var g := p.db.users[id].group;
    forall j | j in t.db.users && t.db.users[j].group == g
      ensures !Crossed(t.sampled, j, QuotaSwept(t.db.users[j], later).EntitledAt(later))
    {
      QuotaStepEntitles(t.db.users[j], later);
    }
    assert g !in SweepGroups(t);
    q := RefusedPush(Swept(t), SweepGroups(t));
    QuotaStepEntitles(t.db.users[id], later);
    assert Holds(q, n, slot, id);
    assert id in q.db.users && !q.db.users[id].EntitledAt(q.now) && n in q.db.NodesOf(g);
  }
}
