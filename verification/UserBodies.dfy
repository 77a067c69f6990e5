/** Whole subscription bodies: what renderUser of internal/api/server.go hands a user for all the nodes
    of its group. */
module UserBodies {
  import opened Entitlement
  import opened Storage
  import opened Stack
  import opened Text
  import opened Desired
  import opened Plane
  import opened XrayConf
  import opened Settings
  import opened Share
  import opened Agreement
  import opened Bodies

  /** A node of the group that renderUser includes: its row, its applied families and the user's
      minted TrustTunnel deeplink on it. */
  datatype GroupNode = GroupNode(n: Node, applied: seq<Family>, ttLink: string)

  function LinesOfNode(gn: GroupNode, protocols: seq<Family>, settings: RealityKeys): seq<NodeLine> {
    NodeLines(gn.n, gn.applied, protocols, settings, gn.ttLink)
  }

  /** The lines of all nodes, node after node. */
  function GroupLines(nodes: seq<GroupNode>, protocols: seq<Family>, settings: RealityKeys): seq<NodeLine> {
    if nodes == [] then []
    else
      GroupLines(nodes[..|nodes| - 1], protocols, settings) + LinesOfNode(nodes[|nodes| - 1], protocols, settings)
  }

  method RenderUser(u: User, now: Time, nodes: seq<GroupNode>, protocols: seq<Family>, settings: RealityKeys)
    returns (r: Result<seq<Link>, LinkError>)
    ensures r == if u.EntitledAt(now) then LinksOf(u, GroupLines(nodes, protocols, settings)) else Ok([])
  {
    if !u.EntitledAt(now) {
      return Ok([]);
    }
    var lines: seq<NodeLine> := [];
    for i := 0 to |nodes|
      invariant lines == GroupLines(nodes[..i], protocols, settings)
    {
      assert nodes[..i + 1][..i] == nodes[..i];
      var more := NodeLinesOf(nodes[i].n, nodes[i].applied, protocols, settings, nodes[i].ttLink);
      lines := lines + more;
    }
    assert nodes[..|nodes|] == nodes;
    if |lines| == 0 {
      return Ok([]);
    }
    r := Render(u, lines);
  }

  /** The lines of the nodes stand in the body in the order of the nodes. */
  lemma {:induction false} NodesJoin(first: seq<GroupNode>, second: seq<GroupNode>, protocols: seq<Family>,
                                     settings: RealityKeys)
    ensures GroupLines(first + second, protocols, settings)
            == GroupLines(first, protocols, settings) + GroupLines(second, protocols, settings)
    decreases |second|
  {
    if second == [] {
      NoNodesJoin(first, protocols, settings);
    } else {
      var init, last := second[..|second| - 1], second[|second| - 1];
      LastNode(second, init, last);
      NodesJoin(first, init, protocols, settings);
      NodesJoinOneMore(first, init, last, protocols, settings);
    }
  }

  lemma LastNode(nodes: seq<GroupNode>, init: seq<GroupNode>, last: GroupNode)
    requires nodes != [] && init == nodes[..|nodes| - 1] && last == nodes[|nodes| - 1]
    ensures nodes == init + [last]
  {
  }

  lemma NoNodesJoin(first: seq<GroupNode>, protocols: seq<Family>, settings: RealityKeys)
    ensures GroupLines(first + [], protocols, settings)
            == GroupLines(first, protocols, settings) + GroupLines([], protocols, settings)
  {
    assert first + [] == first;
    assert GroupLines([], protocols, settings) == [];
  }

  lemma NodesJoinOneMore(first: seq<GroupNode>, second: seq<GroupNode>, gn: GroupNode, protocols: seq<Family>,
                         settings: RealityKeys)
    requires GroupLines(first + second, protocols, settings)
             == GroupLines(first, protocols, settings) + GroupLines(second, protocols, settings)
    ensures GroupLines(first + (second + [gn]), protocols, settings)
            == GroupLines(first, protocols, settings) + GroupLines(second + [gn], protocols, settings)
  {
    assert first + (second + [gn]) == (first + second) + [gn];
    OneMoreNode(first + second, gn, protocols, settings);
    OneMoreNode(second, gn, protocols, settings);
    Associates(GroupLines(first, protocols, settings), GroupLines(second, protocols, settings),
               LinesOfNode(gn, protocols, settings));
  }

  lemma OneMoreNode(nodes: seq<GroupNode>, gn: GroupNode, protocols: seq<Family>, settings: RealityKeys)
    ensures GroupLines(nodes + [gn], protocols, settings)
            == GroupLines(nodes, protocols, settings) + LinesOfNode(gn, protocols, settings)
  {
    assert (nodes + [gn])[..|nodes|] == nodes;
  }

  lemma Associates(xs: seq<NodeLine>, ys: seq<NodeLine>, zs: seq<NodeLine>)
    ensures (xs + ys) + zs == xs + (ys + zs)
  {
  }

  lemma {:induction false} LineIsOfNode(nodes: seq<GroupNode>, protocols: seq<Family>, settings: RealityKeys,
                                        line: NodeLine)
    ensures line in GroupLines(nodes, protocols, settings)
            <==> exists gn :: gn in nodes && line in LinesOfNode(gn, protocols, settings)
  {
    if nodes != [] {
      var before, last := nodes[..|nodes| - 1], nodes[|nodes| - 1];
      assert nodes == before + [last];
      LineIsOfNode(before, protocols, settings, line);
    }
  }

  /** A node without lines, or with an address and no unknown family on offer. */
  predicate Renders(gn: GroupNode, protocols: seq<Family>, settings: RealityKeys) {
    LinesOfNode(gn, protocols, settings) == [] || (!Blank(HostOf(gn.n)) && KnownFamilies(gn.applied, protocols))
  }

  /** The exact condition for a body: no node with something to offer is without an address or offers
      an unknown family. One such node refuses the body of all. */
  lemma BodyIsRenderedIff(u: User, nodes: seq<GroupNode>, protocols: seq<Family>, settings: RealityKeys)
    ensures LinksOf(u, GroupLines(nodes, protocols, settings)).Ok?
            <==> forall gn :: gn in nodes ==> Renders(gn, protocols, settings)
  {
    var lines := GroupLines(nodes, protocols, settings);
    BodyIsOkIff(u, lines);
    forall line ensures line in lines <==> exists gn :: gn in nodes && line in LinesOfNode(gn, protocols, settings) {
      LineIsOfNode(nodes, protocols, settings, line);
    }
    forall gn ensures (forall line :: line in LinesOfNode(gn, protocols, settings) ==> ShareLink(u, line).Ok?)
                      <==> Renders(gn, protocols, settings)
    {
      NodeLinesAreOkIff(gn.n, gn.applied, protocols, settings, gn.ttLink, u);
    }
  }

  // What was sent to the nodes.

  /** What one node was sent last: the rows and the time of the snapshot, the document and the built
      inbounds, and where in the rows the user stands. */
  datatype Snapshot = Snapshot(rows: seq<GroupRows>, now: Time, doc: Doc, ins: seq<Inbound>, g: nat, j: nat)

  /** The node was sent the snapshot, in which the user is entitled through a group with these
      protocols. */
  ghost predicate SentFor(gn: GroupNode, s: Snapshot, u: User, protocols: seq<Family>, settings: RealityKeys) {
    Sent(gn.n, s.rows, settings, s.now, s.doc, s.ins) && EntitledRow(s.rows, s.now, s.g, s.j)
    && s.rows[s.g].users[s.j].user == u && s.rows[s.g].protocols == protocols
  }

  /** What an accepted apply leaves on a node with a legal stack, on stored keys, is such a snapshot. */
  lemma AppliedIsSent(db: Db, n: NodeId, table: RealityKeys, now: Time, doc: Doc)
    returns (rows: seq<GroupRows>, ins: seq<Inbound>)
    requires FreshWith(db, n, now, Carried(table), doc) && Legal(Spec(db.nodes[n].families, db.nodes[n].ports))
    requires doc.xray.Some? ==> KeysSet(table)
    ensures SnapshotOf(db, db.nodes[n], rows) && Sent(db.nodes[n], rows, table, now, doc, ins)
  {
    rows :| SnapshotOf(db, db.nodes[n], rows) && Compile(db.nodes[n], rows, Carried(table), now) == Ok(doc);
    LegalStackCompiles(db.nodes[n], rows, Carried(table), now);
    ins := if doc.xray.Some? then BuildSpec(doc.xray.value).value else [];
  }

  ghost predicate AllSent(nodes: seq<GroupNode>, sent: seq<Snapshot>, u: User, protocols: seq<Family>,
                          settings: RealityKeys) {
    |sent| == |nodes| && forall i :: 0 <= i < |nodes| ==> SentFor(nodes[i], sent[i], u, protocols, settings)
  }

  /** Every listen of every node is Agreeing, and every applied family is the node's own. */
  ghost predicate AllNodesAgree(nodes: seq<GroupNode>, settings: RealityKeys) {
    forall gn :: gn in nodes ==> AllAgreeing(gn.n, settings) && AppliedAreOwn(gn.n, gn.applied)
  }

  /** Soundness of a whole body: when every listen of every node is Agreeing, every link leads to
      something one of the nodes was sent. */
  lemma EveryRenderedLinkLeads(u: User, nodes: seq<GroupNode>, sent: seq<Snapshot>, protocols: seq<Family>,
                               settings: RealityKeys, links: seq<Link>, k: nat) returns (i: nat)
    requires AllSent(nodes, sent, u, protocols, settings) && AllNodesAgree(nodes, settings)
    requires LinksOf(u, GroupLines(nodes, protocols, settings)) == Ok(links) && k < |links|
    ensures i < |nodes| && Leads(links[k], sent[i].ins, sent[i].doc, nodes[i].ttLink)
  {
    var line := LinkOfLine(u, GroupLines(nodes, protocols, settings), k);
    LineIsOfNode(nodes, protocols, settings, line);
    var gn :| gn in nodes && line in LinesOfNode(gn, protocols, settings);
    i :| 0 <= i < |nodes| && nodes[i] == gn;
    var s := sent[i];
    assert SentFor(gn, s, u, protocols, settings);
    NodeLineLeads(gn.n, s.rows, settings, s.now, gn.applied, s.doc, s.ins, s.g, s.j, gn.ttLink, line, links[k]);
  }

  /** A line of one node has its link in the body of all. */
  lemma NodeLineIsRendered(u: User, nodes: seq<GroupNode>, protocols: seq<Family>, settings: RealityKeys,
                           gn: GroupNode, line: NodeLine) returns (k: nat)
    requires LinksOf(u, GroupLines(nodes, protocols, settings)).Ok?
    requires gn in nodes && line in LinesOfNode(gn, protocols, settings) && GivesLink(u, line)
    ensures var links := LinksOf(u, GroupLines(nodes, protocols, settings)).value;
            k < |links| && links[k] == ShareLink(u, line).value.value
  {
    LineIsOfNode(nodes, protocols, settings, line);
    k := LinkIsIn(u, GroupLines(nodes, protocols, settings), line);
  }

  /** A node's own line for a listen with an applied and permitted family. */
  lemma ListenLineIsOffered(gn: GroupNode, protocols: seq<Family>, settings: RealityKeys, u: User, l: nat)
    returns (line: NodeLine)
    requires Renders(gn, protocols, settings) && l < |ResolveXray(gn.n.ports)|
    requires var fam := FamilyForListen(ResolveXray(gn.n.ports)[l]);
             fam in gn.applied && fam in protocols && HasKey(u, fam, "")
    ensures LineFor(gn.n, ResolveXray(gn.n.ports)[l], gn.applied, protocols, settings) == Some(line)
    ensures line in LinesOfNode(gn, protocols, settings) && GivesLink(u, line)
  {
    var listens := ResolveXray(gn.n.ports);
    line := LineFor(gn.n, listens[l], gn.applied, protocols, settings).value;
    ListenHasLine(gn.n, listens, gn.applied, protocols, settings, l);
    ListenLineGives(gn.n, listens[l], gn.applied, protocols, settings, u);
  }

  /** Completeness for listens: on any node of a rendered body, each listen whose family is applied
      and permitted, and whose credential the user has, has its link in the body, and the link dials
      it exactly when it is Agreeing. */
  lemma EveryListenIsRendered(u: User, nodes: seq<GroupNode>, protocols: seq<Family>, settings: RealityKeys,
                              gn: GroupNode, s: Snapshot, l: nat) returns (k: nat)
    requires LinksOf(u, GroupLines(nodes, protocols, settings)).Ok? && gn in nodes
    requires SentFor(gn, s, u, protocols, settings) && l < |ResolveXray(gn.n.ports)|
    requires var fam := FamilyForListen(ResolveXray(gn.n.ports)[l]);
             fam in gn.applied && fam in protocols && HasKey(u, fam, "")
    ensures var links := LinksOf(u, GroupLines(nodes, protocols, settings)).value;
            k < |links| && l < |s.ins|
            && (Dials(links[k], s.ins[l]) <==> Agreeing(ResolveXray(gn.n.ports)[l], gn.n.hostname, settings))
  {
    BodyIsRenderedIff(u, nodes, protocols, settings);
    var line := ListenLineIsOffered(gn, protocols, settings, u, l);
    k := NodeLineIsRendered(u, nodes, protocols, settings, gn, line);
    var link := ShareLink(u, line).value.value;
    ListenLinkDials(gn.n, s.rows, settings, s.now, gn.applied, s.doc, s.ins, s.g, s.j, l, link);
  }

  /** Completeness for Hysteria2 and TrustTunnel. */
  lemma EveryFamilyIsRendered(u: User, nodes: seq<GroupNode>, protocols: seq<Family>, settings: RealityKeys,
                              gn: GroupNode, fam: Family) returns (k: nat)
    requires LinksOf(u, GroupLines(nodes, protocols, settings)).Ok? && gn in nodes
    requires fam in {Hy2, TT} && fam in gn.applied && fam in protocols && HasKey(u, fam, gn.ttLink)
    ensures var links := LinksOf(u, GroupLines(nodes, protocols, settings)).value;
            k < |links|
            && if fam == TT then links[k] == Deeplink(TrimSpace(gn.ttLink))
               else links[k].Hy2Link? && links[k].password == u.hy2Password
  {
    BodyIsRenderedIff(u, nodes, protocols, settings);
    FamilyHasLine(gn.n, gn.applied, protocols, gn.ttLink, fam);
    var line := FamilyLine(gn.n, fam, protocols, gn.ttLink).value;
    assert line in LinesOfNode(gn, protocols, settings);
    FamilyLinkIs(gn.n, fam, protocols, gn.ttLink, u);
    k := NodeLineIsRendered(u, nodes, protocols, settings, gn, line);
  }

  // A blank host name.

  /** A plain stack whose stored host name is blank but not empty compiles and is served, and every
      body of its group is refused, whatever the other nodes are. */
  lemma BlankHostRefusesBodies(n: Node, rows: seq<GroupRows>, keys: RealityKeys, now: Time, u: User,
                               nodes: seq<GroupNode>, gn: GroupNode, protocols: seq<Family>, settings: RealityKeys)
    requires PlainNode(n) && n.hostname != "" && Blank(n.hostname)
    requires gn in nodes && gn.n == n && gn.applied == [VLESS] && VLESS in protocols
    ensures Legal(Spec(n.families, n.ports)) && Compile(n, rows, keys, now).Ok?
    ensures LinksOf(u, GroupLines(nodes, protocols, settings)).Err?
  {
    PlainStackIsServed(n, rows, keys, now);
    var listens := ResolveXray(n.ports);
    ListenHasLine(n, listens, gn.applied, protocols, settings, 0);
    assert LineFor(n, listens[0], gn.applied, protocols, settings).value in LinesOfNode(gn, protocols, settings);
    BodyIsRenderedIff(u, nodes, protocols, settings);
  }
}
