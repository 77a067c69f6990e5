/** Short runs from an installation that reach the failing states of Kicks and Exceptions: one group,
    one user, one node. */
module Scenarios {
  import opened Entitlement
  import opened Period
  import opened Storage
  import opened Stack
  import opened Text
  import opened Desired
  import opened Plane
  import opened Kicks
  import opened Convergence
  import opened Exceptions
  import opened Server

  const EXPIRY: Time := 1000

  const ALICE := User(0, "4f1c", "", "", "", "", "", 0, 0, 0, Some(EXPIRY), "active", Lifetime, None)
  const SUSPENDED := ALICE.(status := "disabled")
  const CREATED := Node("n", "", "", "", [VLESS], Ports(443, [], [], 0, 0), {})
  const ENROLLED := CREATED.(ipv4 := "10.0.0.1", agentToken := "t")
  const ATTACHED := ENROLLED.(groups := {0})

  function World(u: User, n: Node): Db {
    Db(map[0 := u], map[0 := Group([VLESS])], map[0 := n], map[])
  }

  /** The state after the user and the node exist; only what varies is named. */
  function At(u: User, n: Node, pending: set<GroupId>, sampled: map<UserId, bool>, docs: map<NodeId, Doc>): Plane {
    Plane(World(u, n), pending, sampled, docs, map[0 := 0], 0)
  }

  const START := Plane(Db(map[], map[], map[], map[]), {}, map[], map[], map[], 0)
  const GROUPED := START.(db := START.db.(groups := map[0 := Group([VLESS])]))
  const USED := GROUPED.(db := GROUPED.db.(users := map[0 := ALICE]), home := map[0 := 0])

  /** A run from an installation ends in p. */
  ghost predicate Reached(p: Plane) {
    exists planes, events :: IsRun(planes, events) && Install(planes[0]) && planes[|events|] == p
  }

  lemma ReachedNext(p: Plane, e: Event, q: Plane)
    requires Reached(p) && Step(p, e, q)
    ensures Reached(q)
  {
    var planes, events :| IsRun(planes, events) && Install(planes[0]) && planes[|events|] == p;
    RunExtends(planes, events, e, q);
    assert (planes + [q])[0] == planes[0] && (planes + [q])[|events + [e]|] == q;
  }

  lemma RunExtends(planes: seq<Plane>, events: seq<Event>, e: Event, q: Plane)
    requires IsRun(planes, events) && Step(planes[|events|], e, q)
    ensures IsRun(planes + [q], events + [e])
  {
    var more, all := planes + [q], events + [e];
    forall i | 0 <= i < |all| ensures Step(more[i], all[i], more[i + 1]) {
      if i < |events| {
        assert Step(planes[i], events[i], planes[i + 1]);
      }
    }
  }

  // One step at a time.

  lemma NodeIsServed(rows: seq<GroupRows>, keys: RealityKeys, now: Time)
    ensures Compile(ATTACHED, rows, keys, now).Ok? && ServesXray(ATTACHED)
  {
    TrimSpaceTrims("10.0.0.1");
    TrimSpaceTrims("t");
    assert VLESS in ATTACHED.families && ResolveXray(ATTACHED.ports) == [VlessRealityGRPC(443)];
    assert VlessRealityGRPC(443) in ResolveXray(ATTACHED.ports);
  }

  /** What apply reads of a group that holds only this user. */
  function RowsOf(u: User): seq<GroupRows> {
    [GroupRows(0, [VLESS], if u.status == "active" then [Row(0, u)] else [])]
  }

  lemma RowsAreSnapshot(u: User)
    requires u.group == 0 && u == ALICE.(status := u.status)
    ensures SnapshotOf(World(u, ATTACHED), ATTACHED, RowsOf(u))
  {
    var db, rows := World(u, ATTACHED), RowsOf(u);
    assert GroupSnapshot(db, rows[0]) by {
      if u.status == "active" {
        assert rows[0].users[0].id == 0;
      }
    }
    assert rows[0].gid == 0;
  }

  lemma SnapshotIsFresh(db: Db, n: NodeId, rows: seq<GroupRows>, keys: RealityKeys, now: Time, doc: Doc, slot: Slot)
    requires n in db.nodes && SnapshotOf(db, db.nodes[n], rows) && Compile(db.nodes[n], rows, keys, now) == Ok(doc)
    requires UniqueCredentials(db)
    ensures Fresh(db, n, now, doc) && forall id :: id in doc.Ids(slot) <==> Wanted(db, n, slot, id, now)
  {
    FreshIsWanted(db, n, now, doc, slot);
  }

  lemma WorldWants(u: User)
    requires u.group == 0 && u == ALICE.(status := u.status)
    ensures UniqueCredentials(World(u, ATTACHED))
    ensures Wanted(World(u, ATTACHED), 0, ByUUID, 0, 0) <==> u.EntitledAt(0)
  {
    assert [VLESS][0] == VLESS;
  }

  /** The node accepts a document, which holds the user exactly when entitled. */
  lemma FreshDoc(u: User) returns (doc: Doc)
    requires u.group == 0 && u == ALICE.(status := u.status)
    ensures Fresh(World(u, ATTACHED), 0, 0, doc)
    ensures 0 in doc.Ids(ByUUID) <==> u.EntitledAt(0)
  {
    var rows, keys := RowsOf(u), RealityKeys("", "", "", "", "");
    RowsAreSnapshot(u);
    NodeIsServed(rows, keys, 0);
    doc := Compile(ATTACHED, rows, keys, 0).value;
    WorldWants(u);
    SnapshotIsFresh(World(u, ATTACHED), 0, rows, keys, 0, doc, ByUUID);
  }

  lemma PushOne(m: Plane, doc: Doc)
    requires m.db.NodesOf(0) == {0} && m.docs.Keys <= {0} && IsFresh(m)(0, doc)
    ensures Pushed(m, {0}, {(0, 0)}, m.(docs := map[0 := doc], pending := m.pending - {0}))
  {
    assert Pairs(0, {0}) == {(0, 0)};
    DocsAfterIsPushed(m, 0, {0}, false, m.(docs := map[0 := doc], pending := m.pending - {0}));
  }

  lemma AttachStep(p: Plane, groups: set<GroupId>, m: Plane, doc: Doc, q: Plane)
    requires 0 in p.db.nodes && groups <= p.db.groups.Keys && m == WithNode(p, 0, p.db.nodes[0].(groups := groups))
    requires IsFresh(m)(0, doc) && q == m.(docs := m.docs[0 := doc])
    ensures Step(p, SetNodeGroups(0, groups, true), q)
  {
  }

  lemma PatchStep(p: Plane, u: User, m: Plane, doc: Doc, q: Plane)
    requires 0 in p.db.users && SameAccount(p.db.users[0], u) && u.group == 0 && m == WithUser(p, 0, u)
    requires m.db.NodesOf(0) == {0} && m.docs.Keys <= {0} && IsFresh(m)(0, doc)
    requires q == m.(docs := map[0 := doc], pending := m.pending - {0})
    ensures Step(p, PatchUser(0, u, true, {(0, 0)}), q)
  {
    PushOne(m, doc);
  }

  lemma SweepStep(p: Plane, m: Plane, doc: Doc, q: Plane)
    requires m == Swept(p) && SweepGroups(p) == {0}
    requires m.db.NodesOf(0) == {0} && m.docs.Keys <= {0} && IsFresh(m)(0, doc)
    requires q == m.(docs := map[0 := doc], pending := m.pending - {0})
    ensures Step(p, Sweep({(0, 0)}), q)
  {
    PushOne(m, doc);
  }

  lemma FreshAt(u: User, n: Node, sampled: map<UserId, bool>, docs: map<NodeId, Doc>, doc: Doc)
    requires Fresh(World(u, n), 0, 0, doc)
    ensures IsFresh(At(u, n, {}, sampled, docs))(0, doc)
  {
  }

  lemma WithUserIs(v: User, u: User, n: Node, sampled: map<UserId, bool>, docs: map<NodeId, Doc>)
    requires n.groups == {0}
    ensures WithUser(At(v, n, {}, sampled, docs), 0, u) == At(u, n, {}, sampled, docs)
    ensures At(u, n, {}, sampled, docs).db.NodesOf(0) == {0}
  {
  }

  lemma WithNodeIs(u: User, m: Node, n: Node)
    ensures WithNode(At(u, m, {}, map[], map[]), 0, n) == At(u, n, {}, map[], map[])
  {
  }

  lemma AttachReaches(u: User, n: Node, doc: Doc)
    requires Reached(At(u, n, {}, map[], map[])) && Fresh(World(u, n.(groups := {0})), 0, 0, doc)
    ensures Reached(At(u, n.(groups := {0}), {}, map[], map[0 := doc]))
  {
    var p, m := At(u, n, {}, map[], map[]), At(u, n.(groups := {0}), {}, map[], map[]);
    var q := At(u, n.(groups := {0}), {}, map[], map[0 := doc]);
    WithNodeIs(u, n, n.(groups := {0}));
    FreshAt(u, n.(groups := {0}), map[], map[], doc);
    AttachStep(p, {0}, m, doc, q);
    ReachedNext(p, SetNodeGroups(0, {0}, true), q);
  }

  lemma PatchReaches(v: User, u: User, n: Node, sampled: map<UserId, bool>, before: Doc, doc: Doc)
    requires n.groups == {0} && u.group == 0 && SameAccount(v, u) && Fresh(World(u, n), 0, 0, doc)
    requires Reached(At(v, n, {}, sampled, map[0 := before]))
    ensures Reached(At(u, n, {}, sampled, map[0 := doc]))
  {
    var p, m := At(v, n, {}, sampled, map[0 := before]), At(u, n, {}, sampled, map[0 := before]);
    WithUserIs(v, u, n, sampled, map[0 := before]);
    FreshAt(u, n, sampled, map[0 := before], doc);
    PatchStep(p, u, m, doc, At(u, n, {}, sampled, map[0 := doc]));
    ReachedNext(p, PatchUser(0, u, true, {(0, 0)}), At(u, n, {}, sampled, map[0 := doc]));
  }

  lemma OutIsSelected(p: Plane, u: User)
    requires p.db.users == map[0 := u] && p.sampled == map[] && p.pending == {}
    requires u.group == 0 && u.quotaReset == Lifetime && !u.EntitledAt(p.now)
    ensures SweepGroups(p) == {0} && Swept(p).db.users == p.db.users && Swept(p).sampled == map[0 := false]
  {
    assert QuotaSwept(u, p.now) == u;
    assert Crossed(p.sampled, 0, QuotaSwept(p.db.users[0], p.now).EntitledAt(p.now));
  }

  lemma SweepReaches(u: User, n: Node, doc: Doc)
    requires n.groups == {0} && u.group == 0 && u.quotaReset == Lifetime && !u.EntitledAt(0)
             && Fresh(World(u, n), 0, 0, doc)
    requires Reached(At(u, n, {}, map[], map[0 := doc]))
    ensures Reached(At(u, n, {}, map[0 := false], map[0 := doc]))
  {
    var p, m := At(u, n, {}, map[], map[0 := doc]), At(u, n, {}, map[0 := false], map[0 := doc]);
    OutIsSelected(p, u);
    assert Swept(p) == m;
    FreshAt(u, n, map[0 := false], map[0 := doc], doc);
    assert m.db.NodesOf(0) == {0};
    SweepStep(p, m, doc, m);
    ReachedNext(p, Sweep({(0, 0)}), m);
  }

  lemma UserReaches()
    ensures Reached(USED)
  {
    StartIsReached();
    ReachedNext(START, CreateGroup(0, Group([VLESS])), GROUPED);
    UserIsCreated();
    ReachedNext(GROUPED, CreateUsers(0, map[0 := ALICE], {}), USED);
  }

  /** Group and user, then node and its enrolment. */
  lemma SetupReaches()
    ensures Reached(At(ALICE, ENROLLED, {}, map[], map[]))
  {
    UserReaches();
    var p3, p4 := At(ALICE, CREATED, {}, map[], map[]), At(ALICE, ENROLLED, {}, map[], map[]);
    assert WithNode(USED, 0, CREATED) == p3;
    ReachedNext(USED, CreateNode(0, CREATED), p3);
    WithNodeIs(ALICE, CREATED, ENROLLED);
    ReachedNext(p3, Enroll(0, "10.0.0.1", "t"), p4);
  }

  lemma StartIsReached()
    ensures Reached(START)
  {
    var none: seq<Event> := [];
    assert IsRun([START], none) && Install(START);
    assert [START][|none|] == START;
  }

  lemma UserIsCreated()
    ensures Step(GROUPED, CreateUsers(0, map[0 := ALICE], {}), USED)
  {
    var m := WithUsers(GROUPED, 0, map[0 := ALICE]);
    assert map[] + map[0 := ALICE] == map[0 := ALICE];
    assert m == USED;
    assert m.db.NodesOf(0) == {};
    assert Cleared(m.db, {0}, {}) == {0};
  }

  // The scenarios.

  lemma SuspendedIsReached() returns (doc: Doc, out: Doc)
    ensures Reached(At(SUSPENDED, ATTACHED, {}, map[0 := false], map[0 := out]))
    ensures Fresh(World(ALICE, ATTACHED), 0, 0, doc) && 0 in doc.Ids(ByUUID)
  {
    SetupReaches();
    doc := FreshDoc(ALICE);
    AttachReaches(ALICE, ENROLLED, doc);
    out := FreshDoc(SUSPENDED);
    PatchReaches(ALICE, SUSPENDED, ATTACHED, map[], doc, out);
    SweepReaches(SUSPENDED, ATTACHED, out);
  }

  lemma Lapses(u: User, n: Node, doc: Doc, later: Time) returns (t: Plane, q: Plane)
    requires n.groups == {0} && u.group == 0 && u.quotaReset == Lifetime && 0 <= later
    requires 0 in doc.Ids(ByUUID) && u.EntitledAt(0) && !u.EntitledAt(later)
    ensures Step(At(u, n, {}, map[0 := false], map[0 := doc]), Tick(later), t) && Step(t, Sweep({}), q) && !Safe(q)
  {
    var p := At(u, n, {}, map[0 := false], map[0 := doc]);
    assert p.db.NodesOf(0) == {0};
    t, q := LapseIsMissed(p, later, 0, ByUUID, 0);
  }

  /** Kick safety without the clock condition: the user is suspended, swept, put back, expires by the
      clock, and the next sweep leaves it on the node with nothing pending. */
  lemma LapseIsReached() returns (t: Plane, q: Plane)
    ensures Reached(t) && Step(t, Sweep({}), q) && !Safe(q)
  {
    var doc, out := SuspendedIsReached();
    PatchReaches(SUSPENDED, ALICE, ATTACHED, map[0 := false], out, doc);
    t, q := Lapses(ALICE, ATTACHED, doc, EXPIRY + 1);
    ReachedNext(At(ALICE, ATTACHED, {}, map[0 := false], map[0 := doc]), Tick(EXPIRY + 1), t);
  }

  lemma Survives(u: User, n: Node, doc: Doc) returns (q: Plane, r: Plane, t: Plane)
    requires n.groups == {0} && u.group == 0 && 0 in doc.Ids(ByUUID)
    ensures var p := At(u, n, {}, map[], map[0 := doc]);
            Step(p, DeleteUser(0, {}), q) && Step(q, DeleteGroup(0), r) && Step(r, Sweep({}), t)
    ensures AllAccepted(r, {}) && t.pending == {} && Holds(t, 0, ByUUID, 0) && 0 !in t.db.users
  {
    var p := At(u, n, {}, map[], map[0 := doc]);
    assert WithoutUser(p, 0).db.users == map[];
    assert SweepGroups(WithoutUser(p, 0)) == {};
    assert p.db.NodesOf(0) == {0};
    q, r, t := DeletedUserSurvives(p, 0, ByUUID, 0);
  }

  /** A deleted user stays on the node: its deletion and its group's, with the push refused. */
  lemma SurvivalIsReached() returns (r: Plane, t: Plane)
    ensures Reached(r) && Step(r, Sweep({}), t) && AllAccepted(r, {}) && t.pending == {}
    ensures Holds(t, 0, ByUUID, 0) && 0 !in t.db.users
  {
    SetupReaches();
    var doc := FreshDoc(ALICE);
    AttachReaches(ALICE, ENROLLED, doc);
    var q: Plane;
    q, r, t := Survives(ALICE, ATTACHED, doc);
    ReachedNext(At(ALICE, ATTACHED, {}, map[], map[0 := doc]), DeleteUser(0, {}), q);
    ReachedNext(q, DeleteGroup(0), r);
  }

  lemma AliceIsWanted(p: Plane)
    requires p.db == World(ALICE, ATTACHED) && p.now == 0
    ensures Wanted(p.db, 0, ByUUID, 0, p.now)
  {
    NodeIsServed([], RealityKeys("", "", "", "", ""), 0);
    assert [VLESS][0] == VLESS;
  }

  /** A restart after a refused first push: the user never gets onto the node. */
  lemma ForgottenPushIsReached() returns (r: Plane, q: Plane)
    ensures Reached(r) && Step(r, Sweep({}), q) && AllAccepted(r, {}) && q.pending == {}
    ensures Wanted(q.db, 0, ByUUID, 0, q.now) && !Holds(q, 0, ByUUID, 0)
  {
    SetupReaches();
    var p4, p5 := At(ALICE, ENROLLED, {}, map[], map[]), At(ALICE, ATTACHED, {0}, map[], map[]);
    assert WithNode(p4, 0, ATTACHED) == At(ALICE, ATTACHED, {}, map[], map[]);
    ReachedNext(p4, SetNodeGroups(0, {0}, false), p5);
    AliceIsWanted(p5);
    r, q := RestartForgetsPush(p5, 0, ByUUID, 0);
    ReachedNext(p5, Restart, r);
  }

  /** A node created attached: the user never gets onto it. */
  lemma EmptyNodeIsReached() returns (q: Plane, r: Plane)
    ensures Reached(q) && Step(q, Sweep({}), r) && AllAccepted(q, {}) && r.pending == {}
    ensures Wanted(r.db, 0, ByUUID, 0, r.now) && !Holds(r, 0, ByUUID, 0)
  {
    UserReaches();
    assert SweepGroups(USED) == {};
    assert WithNode(USED, 0, ATTACHED).db == World(ALICE, ATTACHED);
    AliceIsWanted(WithNode(USED, 0, ATTACHED));
    q, r := NodeCreatedAttachedStaysEmpty(USED, 0, ATTACHED, ByUUID, 0);
    ReachedNext(USED, CreateNode(0, ATTACHED), q);
  }
}
