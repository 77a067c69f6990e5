/** The lines renderUser of internal/api/server.go makes for a node, the links they become, and what
    those lead to. */
module Bodies {
  import opened Entitlement
  import opened Storage
  import opened Stack
  import opened Text
  import opened Desired
  import opened XrayConf
  import opened Settings
  import opened Share
  import opened Agreement

  // Every link of a body comes from one line, and every line with a credential gives one.

  lemma {:induction false} LineOfListen(n: Node, listens: seq<Listen>, applied: seq<Family>, protocols: seq<Family>,
                                        settings: RealityKeys, line: NodeLine) returns (i: nat)
    requires line in LinesFor(n, listens, applied, protocols, settings)
    ensures i < |listens| && LineFor(n, listens[i], applied, protocols, settings) == Some(line)
    decreases |listens|
  {
    var before := listens[..|listens| - 1];
    if line in LinesFor(n, before, applied, protocols, settings) {
      i := LineOfListen(n, before, applied, protocols, settings, line);
    } else {
      i := |listens| - 1;
    }
  }

  /** Lines stand in the order of the listens, and after them in that of the applied families. */
  lemma {:induction false} LinesJoin(n: Node, xs: seq<Listen>, ys: seq<Listen>, applied: seq<Family>,
                                     protocols: seq<Family>, settings: RealityKeys)
    ensures LinesFor(n, xs + ys, applied, protocols, settings)
            == LinesFor(n, xs, applied, protocols, settings) + LinesFor(n, ys, applied, protocols, settings)
    decreases |ys|
  {
    if ys == [] {
      assert xs + ys == xs;
    } else {
      assert (xs + ys)[..|xs + ys| - 1] == xs + ys[..|ys| - 1];
      LinesJoin(n, xs, ys[..|ys| - 1], applied, protocols, settings);
    }
  }

  lemma {:induction false} FamilyLinesJoin(n: Node, fs: seq<Family>, gs: seq<Family>, protocols: seq<Family>,
                                           ttLink: string)
    ensures FamilyLines(n, fs + gs, protocols, ttLink)
            == FamilyLines(n, fs, protocols, ttLink) + FamilyLines(n, gs, protocols, ttLink)
    decreases |gs|
  {
    if gs == [] {
      assert fs + gs == fs;
    } else {
      assert (fs + gs)[..|fs + gs| - 1] == fs + gs[..|gs| - 1];
      FamilyLinesJoin(n, fs, gs[..|gs| - 1], protocols, ttLink);
    }
  }

  lemma {:induction false} LinkOfLine(u: User, lines: seq<NodeLine>, k: nat) returns (line: NodeLine)
    requires LinksOf(u, lines).Ok? && k < |LinksOf(u, lines).value|
    ensures line in lines && ShareLink(u, line) == Ok(Some(LinksOf(u, lines).value[k]))
    decreases |lines|
  {
    var before := lines[..|lines| - 1];
    if k < |LinksOf(u, before).value| {
      line := LinkOfLine(u, before, k);
    } else {
      line := lines[|lines| - 1];
    }
  }

  lemma {:induction false} LineOfFamily(n: Node, fams: seq<Family>, protocols: seq<Family>, ttLink: string,
                                        line: NodeLine)
    returns (fam: Family)
    requires line in FamilyLines(n, fams, protocols, ttLink)
    ensures fam in fams && FamilyLine(n, fam, protocols, ttLink) == Some(line)
    decreases |fams|
  {
    var before := fams[..|fams| - 1];
    if line in FamilyLines(n, before, protocols, ttLink) {
      fam := LineOfFamily(n, before, protocols, ttLink, line);
    } else {
      fam := fams[|fams| - 1];
    }
  }

  predicate GivesLink(u: User, line: NodeLine) {
    ShareLink(u, line).Ok? && ShareLink(u, line).value.Some?
  }

  /** How many of the lines give a link. */
  function Offered(u: User, lines: seq<NodeLine>): nat {
    if lines == [] then 0
    else Offered(u, lines[..|lines| - 1]) + if GivesLink(u, lines[|lines| - 1]) then 1 else 0
  }

  lemma {:induction false} BodyLength(u: User, lines: seq<NodeLine>)
    requires LinksOf(u, lines).Ok?
    ensures |LinksOf(u, lines).value| == Offered(u, lines)
  {
    if lines != [] {
      BodyLength(u, lines[..|lines| - 1]);
    }
  }

  /** The link of a line stands in the body after those of the lines before it. */
  lemma {:induction false} LinkAt(u: User, lines: seq<NodeLine>, x: nat)
    requires LinksOf(u, lines).Ok? && x < |lines| && GivesLink(u, lines[x])
    ensures Offered(u, lines[..x]) < |LinksOf(u, lines).value|
    ensures LinksOf(u, lines).value[Offered(u, lines[..x])] == ShareLink(u, lines[x]).value.value
    decreases |lines|
  {
    var before := lines[..|lines| - 1];
    if x < |before| {
      LinkAt(u, before, x);
      assert before[..x] == lines[..x];
    } else {
      BodyLength(u, before);
    }
  }

  lemma LinkIsIn(u: User, lines: seq<NodeLine>, line: NodeLine) returns (k: nat)
    requires LinksOf(u, lines).Ok? && line in lines && GivesLink(u, line)
    ensures k < |LinksOf(u, lines).value| && LinksOf(u, lines).value[k] == ShareLink(u, line).value.value
  {
    var x :| 0 <= x < |lines| && lines[x] == line;
    LinkAt(u, lines, x);
    k := Offered(u, lines[..x]);
  }

  /** One line that is refused refuses the whole body. */
  lemma {:induction false} BodyIsOkIff(u: User, lines: seq<NodeLine>)
    ensures LinksOf(u, lines).Ok? <==> forall line :: line in lines ==> ShareLink(u, line).Ok?
  {
    if lines != [] {
      BodyIsOkIff(u, lines[..|lines| - 1]);
      assert lines == lines[..|lines| - 1] + [lines[|lines| - 1]];
    }
  }

  lemma {:induction false} ListenHasLine(n: Node, listens: seq<Listen>, applied: seq<Family>, protocols: seq<Family>,
                                         settings: RealityKeys, i: nat)
    requires i < |listens| && LineFor(n, listens[i], applied, protocols, settings).Some?
    ensures LineFor(n, listens[i], applied, protocols, settings).value
            in LinesFor(n, listens, applied, protocols, settings)
    decreases |listens|
  {
    if i < |listens| - 1 {
      ListenHasLine(n, listens[..|listens| - 1], applied, protocols, settings, i);
    }
  }

  lemma {:induction false} FamilyHasLine(n: Node, fams: seq<Family>, protocols: seq<Family>, ttLink: string,
                                         fam: Family)
    requires fam in fams && FamilyLine(n, fam, protocols, ttLink).Some?
    ensures FamilyLine(n, fam, protocols, ttLink).value in FamilyLines(n, fams, protocols, ttLink)
    decreases |fams|
  {
    var before := fams[..|fams| - 1];
    assert fams == before + [fams[|fams| - 1]];
    if fam in before {
      FamilyHasLine(n, before, protocols, ttLink, fam);
    }
  }

  // What a body leads to.

  /** A client following the link reaches the Hysteria2 server of the document, trusts its
      certificate and is let in. */
  ghost predicate DialsHy2(k: Link, d: Hy2Doc) {
    k.Hy2Link? && k.port == d.port && IssuedFor(CertFor(d.hostname), k.sni) && k.password in Keys(d.users)
  }

  /** On a legal stack the Hysteria2 link names the server's port, the entitled user's password is on
      its list, and the name it asks for is the certificate's exactly when the host name was stored
      trimmed. */
  lemma Hy2LinkDialsIffTrimmed(n: Node, rows: seq<GroupRows>, keys: RealityKeys, now: Time, g: nat, j: nat, link: Link)
    requires Legal(Spec(n.families, n.ports)) && Compile(n, rows, keys, now).Ok? && Hy2 in n.families
    requires EntitledRow(rows, now, g, j)
    requires var line := FamilyLine(n, Hy2, rows[g].protocols, "");
             line.Some? && ShareLink(rows[g].users[j].user, line.value) == Ok(Some(link))
    ensures Compile(n, rows, keys, now).value.hy2.Some? && link.Hy2Link? && link.host == TrimSpace(n.hostname)
    ensures DialsHy2(link, Compile(n, rows, keys, now).value.hy2.value) <==> IsTrimmed(n.hostname)
  {
    LegalPortsAreServed(n, rows, keys, now);
    Hy2PasswordIsListed(n, rows, now, g, j);
    CertificateIsForTrimmed(n.hostname, n.hostname);
    SameTrimmedIff(n.hostname);
  }

  lemma Hy2PasswordIsListed(n: Node, rows: seq<GroupRows>, now: Time, g: nat, j: nat)
    requires Hy2 in n.families && EntitledRow(rows, now, g, j)
    requires Hy2 in rows[g].protocols && !Blank(rows[g].users[j].user.hy2Password)
    ensures rows[g].users[j].user.hy2Password in Keys(ListFor(n.families, rows, ByHy2, now))
  {
    DesiredListIsExact(n.families, rows, ByHy2, now);
    assert Earns(n.families, rows, ByHy2, now, g, j);
    assert EntryFor(ByHy2, rows[g].users[j]).key == rows[g].users[j].user.hy2Password;
  }

  /** Row j of group g is an entitled user's. */
  predicate EntitledRow(rows: seq<GroupRows>, now: Time, g: nat, j: nat) {
    g < |rows| && j < |rows[g].users| && rows[g].users[j].user.EntitledAt(now)
  }

  /** At one snapshot, node n with a legal stack was sent doc, whose Xray part, if any, was built as
      ins on stored REALITY keys. */
  ghost predicate Sent(n: Node, rows: seq<GroupRows>, settings: RealityKeys, now: Time, doc: Doc, ins: seq<Inbound>) {
    Legal(Spec(n.families, n.ports)) && Compile(n, rows, Carried(settings), now) == Ok(doc)
    && if doc.xray.Some? then Ready(settings) && BuildSpec(doc.xray.value) == Ok(ins) else ins == []
  }

  /** What a link in a body leads to: an Xray inbound, the Hysteria2 server, or the minted
      TrustTunnel deeplink. */
  ghost predicate Leads(k: Link, ins: seq<Inbound>, doc: Doc, ttLink: string) {
    (exists i :: 0 <= i < |ins| && Dials(k, ins[i]))
    || (doc.hy2.Some? && DialsHy2(k, doc.hy2.value))
    || (k == Deeplink(TrimSpace(ttLink)) && doc.tt.Some?)
  }

  /** Every listen is Agreeing, and Hysteria2 has a trimmed host name. */
  ghost predicate AllAgreeing(n: Node, settings: RealityKeys) {
    (forall i :: 0 <= i < |ResolveXray(n.ports)| ==> Agreeing(ResolveXray(n.ports)[i], n.hostname, settings))
    && (Hy2 in n.families ==> IsTrimmed(n.hostname))
  }

  ghost predicate AppliedAreOwn(n: Node, applied: seq<Family>) {
    forall f :: f in applied ==> f in n.families
  }

  lemma NoXrayNoListens(n: Node, rows: seq<GroupRows>, settings: RealityKeys, now: Time, doc: Doc, ins: seq<Inbound>)
    requires Sent(n, rows, settings, now, doc, ins) && ResolveXray(n.ports) != []
    ensures doc.xray.Some?
  {
    XrayPart(n, rows, Carried(settings), now);
    assert LegalListen(n.families, ResolveXray(n.ports)[0]);
  }

  lemma SentIsDeployed(n: Node, rows: seq<GroupRows>, settings: RealityKeys, now: Time, doc: Doc, ins: seq<Inbound>)
    requires Sent(n, rows, settings, now, doc, ins) && ResolveXray(n.ports) != []
    ensures Ready(settings) && doc.xray.Some? && Deployed(n, rows, Carried(settings), now, doc.xray.value, ins)
  {
    NoXrayNoListens(n, rows, settings, now, doc, ins);
  }

  lemma ListenLinkDials(n: Node, rows: seq<GroupRows>, settings: RealityKeys, now: Time, applied: seq<Family>, doc: Doc,
                        ins: seq<Inbound>, g: nat, j: nat, i: nat, link: Link)
    requires Sent(n, rows, settings, now, doc, ins) && EntitledRow(rows, now, g, j) && i < |ResolveXray(n.ports)|
    requires var line := LineFor(n, ResolveXray(n.ports)[i], applied, rows[g].protocols, settings);
             line.Some? && ShareLink(rows[g].users[j].user, line.value) == Ok(Some(link))
    ensures i < |ins| && (Dials(link, ins[i]) <==> Agreeing(ResolveXray(n.ports)[i], n.hostname, settings))
  {
    SentIsDeployed(n, rows, settings, now, doc, ins);
    LinkDialsInboundIffAgreeing(n, rows, settings, now, applied, doc.xray.value, ins, g, j, i, link);
  }

  lemma ListenLineLeads(n: Node, rows: seq<GroupRows>, settings: RealityKeys, now: Time, applied: seq<Family>, doc: Doc,
                        ins: seq<Inbound>, g: nat, j: nat, ttLink: string, line: NodeLine, link: Link)
    requires Sent(n, rows, settings, now, doc, ins) && EntitledRow(rows, now, g, j) && AllAgreeing(n, settings)
    requires line in LinesFor(n, ResolveXray(n.ports), applied, rows[g].protocols, settings)
             && ShareLink(rows[g].users[j].user, line) == Ok(Some(link))
    ensures Leads(link, ins, doc, ttLink)
  {
    var i := LineOfListen(n, ResolveXray(n.ports), applied, rows[g].protocols, settings, line);
    ListenLinkDials(n, rows, settings, now, applied, doc, ins, g, j, i, link);
    assert Dials(link, ins[i]);
  }

  lemma FamilyLinkLeads(n: Node, rows: seq<GroupRows>, settings: RealityKeys, now: Time, doc: Doc, ins: seq<Inbound>,
                        g: nat, j: nat, fam: Family, ttLink: string, link: Link)
    requires Sent(n, rows, settings, now, doc, ins) && EntitledRow(rows, now, g, j) && fam in n.families
    requires Hy2 in n.families ==> IsTrimmed(n.hostname)
    requires var line := FamilyLine(n, fam, rows[g].protocols, ttLink);
             line.Some? && ShareLink(rows[g].users[j].user, line.value) == Ok(Some(link))
    ensures Leads(link, ins, doc, ttLink)
  {
    if fam == Hy2 {
      assert FamilyLine(n, fam, rows[g].protocols, ttLink) == FamilyLine(n, Hy2, rows[g].protocols, "");
      Hy2LinkDialsIffTrimmed(n, rows, Carried(settings), now, g, j, link);
    } else {
      LegalPortsAreServed(n, rows, Carried(settings), now);
      assert fam == TT;
    }
  }

  lemma FamilyLineLeads(n: Node, rows: seq<GroupRows>, settings: RealityKeys, now: Time, applied: seq<Family>, doc: Doc,
                        ins: seq<Inbound>, g: nat, j: nat, ttLink: string, line: NodeLine, link: Link)
    requires Sent(n, rows, settings, now, doc, ins) && EntitledRow(rows, now, g, j) && AllAgreeing(n, settings)
    requires AppliedAreOwn(n, applied)
    requires line in FamilyLines(n, applied, rows[g].protocols, ttLink)
             && ShareLink(rows[g].users[j].user, line) == Ok(Some(link))
    ensures Leads(link, ins, doc, ttLink)
  {
    var fam := LineOfFamily(n, applied, rows[g].protocols, ttLink, line);
    FamilyLinkLeads(n, rows, settings, now, doc, ins, g, j, fam, ttLink, link);
  }

  /** On a node of any stack whose listens are all Agreeing and whose applied families are its own,
      the link of every line leads to something the node was sent at the same snapshot. */
  lemma NodeLineLeads(n: Node, rows: seq<GroupRows>, settings: RealityKeys, now: Time, applied: seq<Family>, doc: Doc,
                      ins: seq<Inbound>, g: nat, j: nat, ttLink: string, line: NodeLine, link: Link)
    requires Sent(n, rows, settings, now, doc, ins) && EntitledRow(rows, now, g, j) && AllAgreeing(n, settings)
    requires AppliedAreOwn(n, applied)
    requires line in NodeLines(n, applied, rows[g].protocols, settings, ttLink)
             && ShareLink(rows[g].users[j].user, line) == Ok(Some(link))
    ensures Leads(link, ins, doc, ttLink)
  {
    if line in LinesFor(n, ResolveXray(n.ports), applied, rows[g].protocols, settings) {
      ListenLineLeads(n, rows, settings, now, applied, doc, ins, g, j, ttLink, line, link);
    } else {
      FamilyLineLeads(n, rows, settings, now, applied, doc, ins, g, j, ttLink, line, link);
    }
  }

  // Completeness.

  /** The user has what a link of the family needs. */
  predicate HasKey(u: User, fam: Family, ttLink: string) {
    match fam
    case VLESS => !Blank(u.vlessUUID)
    case VMess => !Blank(u.vlessUUID)
    case Trojan => !Blank(u.trojanPassword)
    case SS => !Blank(u.ssPassword)
    case Hy2 => !Blank(u.hy2Password)
    case TT => !Blank(ttLink)
    case Other(_) => false
  }

  lemma ListenLineGives(n: Node, l: Listen, applied: seq<Family>, protocols: seq<Family>, settings: RealityKeys,
                        u: User)
    requires !Blank(HostOf(n))
    ensures var line := LineFor(n, l, applied, protocols, settings);
            line.Some? ==> (GivesLink(u, line.value) <==> HasKey(u, FamilyForListen(l), ""))
  {
  }

  lemma ShareLinkIsOkIff(u: User, line: NodeLine)
    ensures ShareLink(u, line).Ok? <==> !Blank(line.host) && !line.family.Other?
    ensures ShareLink(u, line) == Err(MissingHost) <==> Blank(line.host)
  {
  }

  /** No applied and permitted family is unknown. */
  predicate KnownFamilies(applied: seq<Family>, protocols: seq<Family>) {
    forall f :: f in applied && f in protocols ==> !f.Other?
  }

  lemma ListenLineIs(n: Node, l: Listen, applied: seq<Family>, protocols: seq<Family>, settings: RealityKeys)
    ensures var line := LineFor(n, l, applied, protocols, settings);
            line.Some? ==>
              line.value.host == HostOf(n) && line.value.family in applied && line.value.family in protocols
  {
  }

  lemma NodeLineIs(n: Node, applied: seq<Family>, protocols: seq<Family>, settings: RealityKeys, ttLink: string,
                   line: NodeLine)
    requires line in NodeLines(n, applied, protocols, settings, ttLink)
    ensures line.host == HostOf(n) && line.family in applied && line.family in protocols
  {
    var listens := ResolveXray(n.ports);
    if line in LinesFor(n, listens, applied, protocols, settings) {
      var i := LineOfListen(n, listens, applied, protocols, settings, line);
      ListenLineIs(n, listens[i], applied, protocols, settings);
    } else {
      var fam := LineOfFamily(n, applied, protocols, ttLink, line);
    }
  }

  /** Every line of a node has a link, or none for want of a credential, if and only if it has no line,
      or has an address and no unknown family. */
  lemma NodeLinesAreOkIff(n: Node, applied: seq<Family>, protocols: seq<Family>, settings: RealityKeys,
                          ttLink: string, u: User)
    ensures var lines := NodeLines(n, applied, protocols, settings, ttLink);
            (forall line :: line in lines ==> ShareLink(u, line).Ok?)
            <==> lines == [] || (!Blank(HostOf(n)) && KnownFamilies(applied, protocols))
  {
    var lines := NodeLines(n, applied, protocols, settings, ttLink);
    forall line | line in lines
      ensures line.host == HostOf(n) && line.family in applied && line.family in protocols
      ensures ShareLink(u, line).Ok? <==> !Blank(line.host) && !line.family.Other?
    {
      NodeLineIs(n, applied, protocols, settings, ttLink, line);
      ShareLinkIsOkIff(u, line);
    }
    forall f | f in applied && f in protocols && f.Other?
      ensures exists line :: line in lines && line.family == f
    {
      FamilyHasLine(n, applied, protocols, ttLink, f);
      assert FamilyLine(n, f, protocols, ttLink).value in lines;
    }
    if lines != [] {
      assert lines[0] in lines;
    }
  }

  lemma FamilyLinkIs(n: Node, fam: Family, protocols: seq<Family>, ttLink: string, u: User)
    requires !Blank(HostOf(n)) && fam in {Hy2, TT} && fam in protocols && HasKey(u, fam, ttLink)
    ensures var line := FamilyLine(n, fam, protocols, ttLink);
            line.Some? && GivesLink(u, line.value)
            && var link := ShareLink(u, line.value).value.value;
               if fam == TT then link == Deeplink(TrimSpace(ttLink))
               else link.Hy2Link? && link.password == u.hy2Password
  {
  }

  // The plain stack, end to end.

  /** The plain stack: VLESS REALITY over gRPC on one port, on an enrolled and attached node. */
  predicate PlainNode(n: Node) {
    n.families == [VLESS] && n.ports.xray == [] && n.ports.vless == [] && n.ports.vlessTCP > 0
    && !Blank(n.ipv4) && !Blank(n.agentToken) && n.groups != {}
  }

  predicate PlainStack(n: Node) {
    PlainNode(n) && !Blank(HostOf(n))
  }

  lemma PlainStackIsServed(n: Node, rows: seq<GroupRows>, keys: RealityKeys, now: Time)
    requires PlainNode(n)
    ensures ResolveXray(n.ports) == [VlessRealityGRPC(n.ports.vlessTCP)] && Legal(Spec(n.families, n.ports))
    ensures Compile(n, rows, keys, now).Ok? && Compile(n, rows, keys, now).value.xray.Some?
  {
    var listens := ResolveXray(n.ports);
    assert VLESS in n.families && listens[0] == VlessRealityGRPC(n.ports.vlessTCP);
    assert LegalListen(n.families, listens[0]);
  }

  lemma PlainStackLine(n: Node, protocols: seq<Family>, settings: RealityKeys, u: User)
    requires PlainStack(n) && VLESS in protocols && !Blank(u.vlessUUID)
    ensures var line := LineFor(n, VlessRealityGRPC(n.ports.vlessTCP), [VLESS], protocols, settings);
            line.Some? && ShareLink(u, line.value).Ok? && ShareLink(u, line.value).value.Some?
            && NodeLines(n, [VLESS], protocols, settings, "") == [line.value]
  {
    var l := VlessRealityGRPC(n.ports.vlessTCP);
    var line := LineFor(n, l, [VLESS], protocols, settings);
    assert [l][..0] == [] && LinesFor(n, [], [VLESS], protocols, settings) == [];
    assert LinesFor(n, [l], [VLESS], protocols, settings) == [line.value];
    assert [VLESS][..0] == [] && FamilyLines(n, [], protocols, "") == [];
    assert FamilyLines(n, [VLESS], protocols, "") == [];
  }

  lemma OneLink(u: User, line: NodeLine)
    requires ShareLink(u, line).Ok? && ShareLink(u, line).value.Some?
    ensures LinksOf(u, [line]) == Ok([ShareLink(u, line).value.value])
  {
    var none: seq<Link> := [];
    assert [line][..0] == [] && LinksOf(u, []) == Ok(none);
    assert none + [ShareLink(u, line).value.value] == [ShareLink(u, line).value.value];
  }

  lemma PlainStackBody(n: Node, protocols: seq<Family>, settings: RealityKeys, u: User) returns (link: Link)
    requires PlainStack(n) && VLESS in protocols && !Blank(u.vlessUUID)
    ensures LinksOf(u, NodeLines(n, [VLESS], protocols, settings, "")) == Ok([link])
    ensures var line := LineFor(n, VlessRealityGRPC(n.ports.vlessTCP), [VLESS], protocols, settings);
            line.Some? && ShareLink(u, line.value) == Ok(Some(link))
  {
    PlainStackLine(n, protocols, settings, u);
    var line := LineFor(n, VlessRealityGRPC(n.ports.vlessTCP), [VLESS], protocols, settings).value;
    link := ShareLink(u, line).value.value;
    OneLink(u, line);
  }

  lemma PlainStackDeployed(n: Node, rows: seq<GroupRows>, keys: RealityKeys, now: Time)
    returns (v: XrayDoc, ins: seq<Inbound>)
    requires PlainStack(n)
    ensures Deployed(n, rows, keys, now, v, ins) && |ins| == 2
    ensures ResolveXray(n.ports) == [VlessRealityGRPC(n.ports.vlessTCP)]
  {
    PlainStackIsServed(n, rows, keys, now);
    LegalStackCompiles(n, rows, keys, now);
    v := Compile(n, rows, keys, now).value.xray.value;
    ins := BuildSpec(v).value;
  }

  /** End to end on the plain stack: the node compiles, and an entitled user of a group that permits
      VLESS is handed one link, which dials the node's inbound. */
  lemma PlainStackDials(n: Node, rows: seq<GroupRows>, settings: RealityKeys, now: Time, g: nat, j: nat)
    returns (v: XrayDoc, ins: seq<Inbound>, link: Link)
    requires PlainStack(n) && Ready(settings) && Plain(settings)
    requires g < |rows| && j < |rows[g].users| && rows[g].users[j].user.EntitledAt(now)
    requires VLESS in rows[g].protocols && !Blank(rows[g].users[j].user.vlessUUID)
    ensures Deployed(n, rows, Carried(settings), now, v, ins) && |ins| == 2
    ensures LinksOf(rows[g].users[j].user, NodeLines(n, [VLESS], rows[g].protocols, settings, "")) == Ok([link])
    ensures Dials(link, ins[0])
  {
    v, ins := PlainStackDeployed(n, rows, Carried(settings), now);
    link := PlainStackBody(n, rows[g].protocols, settings, rows[g].users[j].user);
    LinkDialsInboundIffAgreeing(n, rows, settings, now, [VLESS], v, ins, g, j, 0, link);
  }
}
