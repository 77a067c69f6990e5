/** The two translations of a stack, internal/xrayconf/build.go for nodes and internal/sub/render.go
    for links, and exactly where they agree. */
module Agreement {
  import opened Entitlement
  import opened Storage
  import opened Stack
  import opened Text
  import opened Desired
  import opened XrayConf
  import opened Settings
  import opened Share

  /** The client's credential is known to the inbound, and every client there has the link's flow. */
  ghost predicate LetsIn(clients: seq<Client>, k: Link)
    requires k.XrayLink?
  {
    (exists c :: c in clients && c.credential == k.credential) && forall c :: c in clients ==> c.flow == k.flow
  }

  /** The certificate is the one issued for the host name. */
  predicate IssuedFor(cert: Certificate, host: string) {
    cert == Certificate(CertDir(host) + "/fullchain.pem", CertDir(host) + "/privkey.pem")
  }

  ghost predicate SameStream(k: Link, s: Stream)
    requires k.XrayLink?
  {
    k.network == Some(s.network) && k.security == s.security
    && (s.tls.Some? ==> IssuedFor(s.tls.value, k.sni))
    && (s.reality.Some? ==>
          k.sni == s.reality.value.sni && k.shortId == s.reality.value.shortId
          && k.publicKey == s.reality.value.publicKey)
    && (s.network == GRPC ==> k.service == s.service)
    && (s.network == WS ==> s.ws.Some? && k.path == Some(s.ws.value.path) && k.wsHost == s.ws.value.host)
  }

  /** A client following the link reaches the inbound and is let in. */
  ghost predicate Dials(k: Link, b: Inbound) {
    k.XrayLink? && b.Proxy? && k.port == b.port && k.protocol == b.protocol && LetsIn(b.clients, k)
    && if b.stream.None? then k.cipher == b.cipher else SameStream(k, b.stream.value)
  }

  /** The listens on which the two translations agree on the stream, REALITY settings aside. */
  ghost predicate ListenAgreeing(l: Listen, hostname: string) {
    match l.protocol
    case ProtoVLESS => l.security == Reality || (l.network != GRPC && IsTrimmed(hostname))
    case ProtoVMess =>
      l.security == TLS && IsTrimmed(hostname)
      && (l.network == TCP || (l.network == WS && (l.host == "" || l.host == hostname)))
    case ProtoTrojan => l.security == TLS && l.network == TCP && IsTrimmed(hostname)
    case _ => true
  }

  /** The listens on which the two translations agree, read off the listen, the hostname and the
      stored REALITY settings. */
  ghost predicate Agreeing(l: Listen, hostname: string, settings: RealityKeys) {
    ListenAgreeing(l, hostname) && (l.protocol == ProtoVLESS && l.security == Reality ==> Plain(settings))
  }

  function SlotOf(p: Protocol): Slot {
    match p
    case ProtoTrojan => ByTrojan
    case Shadowsocks => BySS
    case _ => ByUUID
  }

  lemma KeyLetsIn(es: seq<Entry>, flow: string, cipher: string, k: Link)
    requires k.XrayLink? && k.flow == flow && k.credential in Keys(es)
    ensures LetsIn(ClientsOf(es, flow, cipher), k)
  {
    var e :| e in es && e.key == k.credential;
    var i :| 0 <= i < |es| && es[i] == e;
    assert ClientsOf(es, flow, cipher)[i].credential == k.credential;
  }

  /** The user's credential for a listen is on the inbound's list, at the same snapshot. */
  lemma CredentialIsListed(n: Node, rows: seq<GroupRows>, now: Time, g: nat, j: nat, l: Listen)
    requires g < |rows| && j < |rows[g].users| && rows[g].users[j].user.EntitledAt(now)
    requires LegalListen(n.families, l) && FamilyForListen(l) in rows[g].protocols
    requires HasCredential(SlotOf(l.protocol), rows[g].users[j].user)
    ensures EntryFor(SlotOf(l.protocol), rows[g].users[j]).key
            in Keys(ListFor(n.families, rows, SlotOf(l.protocol), now))
  {
    DesiredListIsExact(n.families, rows, SlotOf(l.protocol), now);
    assert Earns(n.families, rows, SlotOf(l.protocol), now, g, j);
  }

  /** Listen l of node n, the document v it was compiled into, and the link rendered for it. */
  ghost predicate Rendered(n: Node, l: Listen, v: XrayDoc, u: User, applied: seq<Family>, protocols: seq<Family>,
                           settings: RealityKeys, link: Link) {
    Ready(settings) && LegalListen(n.families, l)
    && v.hostname == n.hostname && v.reality == Carried(settings)
    && (l.security == TLS || l.protocol == ProtoVMess || l.protocol == ProtoTrojan ==> !Blank(n.hostname))
    && var line := LineFor(n, l, applied, protocols, settings);
       line.Some? && ShareLink(u, line.value) == Ok(Some(link))
  }

  // What each translation gives, family by family.

  lemma RealityLink(n: Node, l: Listen, u: User, applied: seq<Family>, protocols: seq<Family>, settings: RealityKeys,
                    link: Link)
    requires Ready(settings) && LegalListen(n.families, l) && l.protocol == ProtoVLESS && l.security == Reality
    requires var line := LineFor(n, l, applied, protocols, settings);
             line.Some? && ShareLink(u, line.value) == Ok(Some(link))
    ensures link == XrayLink(
                      ProtoVLESS, u.vlessUUID, TrimSpace(HostOf(n)), l.port, Some(l.network), Reality,
                      NonEmpty(settings.sni, DEFAULT_SNI), settings.publicKey, settings.shortId,
                      if l.network == GRPC then Some(NonEmpty(l.serviceName, GRPC_SERVICE)) else None, l.flow,
                      None, None, "")
  {
    var line := LineFor(n, l, applied, protocols, settings).value;
    var shown := ShareKeys(settings, l);
    assert line.reality == Some(shown);
    assert link == VlessLink(u, line, TrimSpace(line.host), l.port);
  }

  lemma VlessTLSLink(n: Node, l: Listen, u: User, applied: seq<Family>, protocols: seq<Family>, settings: RealityKeys,
                     link: Link)
    requires n.hostname != "" && LegalListen(n.families, l) && l.protocol == ProtoVLESS && l.security == TLS
    requires var line := LineFor(n, l, applied, protocols, settings);
             line.Some? && ShareLink(u, line.value) == Ok(Some(link))
    ensures link == XrayLink(
                      ProtoVLESS, u.vlessUUID, TrimSpace(HostOf(n)), l.port, Some(l.network), TLS, n.hostname, "", "",
                      None, "",
                      if l.network == WS then Some(NonEmpty(l.path, WS_PATH)) else None,
                      if l.network == WS then Some(NonEmpty(l.host, n.hostname)) else None, "")
  {
    var line := LineFor(n, l, applied, protocols, settings).value;
    assert line.reality.None? && line.tlsSni == n.hostname;
    assert link == VlessLink(u, line, TrimSpace(line.host), l.port);
  }

  lemma VmessTLSLink(n: Node, l: Listen, u: User, applied: seq<Family>, protocols: seq<Family>, settings: RealityKeys,
                     link: Link)
    requires n.hostname != "" && LegalListen(n.families, l) && l.protocol == ProtoVMess
    requires var line := LineFor(n, l, applied, protocols, settings);
             line.Some? && ShareLink(u, line.value) == Ok(Some(link))
    ensures link == XrayLink(
                      ProtoVMess, u.vlessUUID, TrimSpace(HostOf(n)), l.port, Some(l.network), TLS, n.hostname, "", "",
                      None, "",
                      Some(NonEmpty(l.path, WS_PATH)), Some(n.hostname), "")
  {
    var line := LineFor(n, l, applied, protocols, settings).value;
    assert link == VmessLink(u, line, TrimSpace(line.host), l.port);
  }

  lemma TrojanTLSLink(n: Node, l: Listen, u: User, applied: seq<Family>, protocols: seq<Family>, settings: RealityKeys,
                      link: Link)
    requires n.hostname != "" && LegalListen(n.families, l) && l.protocol == ProtoTrojan
    requires var line := LineFor(n, l, applied, protocols, settings);
             line.Some? && ShareLink(u, line.value) == Ok(Some(link))
    ensures link == XrayLink(
                      ProtoTrojan, u.trojanPassword, TrimSpace(HostOf(n)), l.port, Some(TCP), TLS, n.hostname, "", "",
                      None, "",
                      None, None, "")
  {
    var line := LineFor(n, l, applied, protocols, settings).value;
    assert link == TrojanLink(u, line, TrimSpace(line.host), l.port);
  }

  lemma SSCipherLink(n: Node, l: Listen, u: User, applied: seq<Family>, protocols: seq<Family>, settings: RealityKeys,
                     link: Link)
    requires LegalListen(n.families, l) && l.protocol == Shadowsocks
    requires var line := LineFor(n, l, applied, protocols, settings);
             line.Some? && ShareLink(u, line.value) == Ok(Some(link))
    ensures link == XrayLink(
                      Shadowsocks, u.ssPassword, TrimSpace(HostOf(n)), l.port, None, NoSecurity, "", "", "", None, "",
                      None, None, NonEmpty(l.cipher, DEFAULT_SS_METHOD))
  {
    var line := LineFor(n, l, applied, protocols, settings).value;
    assert link == SSLink(u, line, TrimSpace(line.host), l.port);
  }

  /** The transport half of the inbound for a legal listen. */
  function StreamOf(l: Listen, v: XrayDoc, cert: Certificate): Stream {
    Stream(l.network, l.security, if l.security == Reality then Some(v.reality) else None,
           if l.security == TLS then Some(cert) else None,
           if l.network == GRPC then Some(NonEmpty(l.serviceName, GRPC_SERVICE)) else None,
           if l.network == WS then Some(WSSettings(NonEmpty(l.path, WS_PATH), WSHost(l, v))) else None)
  }

  lemma StreamInbound(families: seq<Family>, l: Listen, v: XrayDoc, tag: Tag, cert: Certificate)
    requires LegalListen(families, l) && l.protocol != Shadowsocks && BuildInbound(tag, l, v, cert).Ok?
    ensures BuildInbound(tag, l, v, cert)
            == Ok(Proxy(tag, l.protocol, l.port,
                        ClientsOf(if l.protocol == ProtoTrojan then v.trojan else v.clients, l.flow, ""),
                        Some(StreamOf(l, v, cert)), ""))
  {
  }

  lemma SSInbound(families: seq<Family>, l: Listen, v: XrayDoc, tag: Tag, cert: Certificate)
    requires LegalListen(families, l) && l.protocol == Shadowsocks
    ensures var cipher := NonEmpty(l.cipher, DEFAULT_SS_METHOD);
            BuildInbound(tag, l, v, cert)
            == Ok(Proxy(tag, Shadowsocks, l.port, ClientsOf(v.ss, "", cipher), None, cipher))
  {
  }

  lemma CertificateIsForTrimmed(hostname: string, host: string)
    requires !Blank(hostname)
    ensures IssuedFor(CertFor(hostname), host) <==> host == TrimSpace(hostname)
  {
    var tail := "/fullchain.pem";
    assert forall h :: CertDir(h)[|LIVE_DIR|..] == h;
    assert forall h :: (CertDir(h) + tail)[..|CertDir(h) + tail| - |tail|] == CertDir(h);
    if IssuedFor(CertFor(hostname), host) {
      assert CertDir(host) + tail == CertDir(TrimSpace(hostname)) + tail;
      assert CertDir(host) == CertDir(TrimSpace(hostname));
    }
  }

  // Which pairs of them agree.

  lemma RealityAgrees(families: seq<Family>, l: Listen, v: XrayDoc, hostname: string, settings: RealityKeys,
                      link: Link, cert: Certificate)
    requires link.XrayLink? && LegalListen(families, l) && l.protocol == ProtoVLESS && l.security == Reality
    requires v.reality == Carried(settings)
    requires link.network == Some(l.network) && link.security == Reality
             && link.sni == NonEmpty(settings.sni, DEFAULT_SNI)
    requires link.publicKey == settings.publicKey && link.shortId == settings.shortId
    requires l.network == GRPC ==> link.service == Some(NonEmpty(l.serviceName, GRPC_SERVICE))
    ensures SameStream(link, StreamOf(l, v, cert)) <==> Agreeing(l, hostname, settings)
  {
    PlainIffShownAsCarried(settings);
  }

  lemma VlessTLSAgrees(families: seq<Family>, l: Listen, v: XrayDoc, settings: RealityKeys, link: Link)
    requires link.XrayLink? && LegalListen(families, l) && l.protocol == ProtoVLESS && l.security == TLS
             && !Blank(v.hostname)
    requires link.network == Some(l.network) && link.security == TLS && link.sni == v.hostname && link.service == None
    requires l.network == WS ==>
               link.path == Some(NonEmpty(l.path, WS_PATH)) && link.wsHost == Some(NonEmpty(l.host, v.hostname))
    ensures SameStream(link, StreamOf(l, v, CertFor(v.hostname))) <==> Agreeing(l, v.hostname, settings)
  {
    CertificateIsForTrimmed(v.hostname, v.hostname);
    SameTrimmedIff(v.hostname);
  }

  lemma VmessAgrees(families: seq<Family>, l: Listen, v: XrayDoc, settings: RealityKeys, link: Link)
    requires link.XrayLink? && LegalListen(families, l) && l.protocol == ProtoVMess && !Blank(v.hostname)
    requires link.network == Some(l.network) && link.security == TLS && link.sni == v.hostname && link.service == None
    requires link.path == Some(NonEmpty(l.path, WS_PATH)) && link.wsHost == Some(v.hostname)
    ensures SameStream(link, StreamOf(l, v, CertFor(v.hostname))) <==> Agreeing(l, v.hostname, settings)
  {
    CertificateIsForTrimmed(v.hostname, v.hostname);
    SameTrimmedIff(v.hostname);
  }

  lemma TrojanAgrees(families: seq<Family>, l: Listen, v: XrayDoc, settings: RealityKeys, link: Link)
    requires link.XrayLink? && LegalListen(families, l) && l.protocol == ProtoTrojan && !Blank(v.hostname)
    requires link.network == Some(TCP) && link.security == TLS && link.sni == v.hostname
    ensures SameStream(link, StreamOf(l, v, CertFor(v.hostname))) <==> Agreeing(l, v.hostname, settings)
  {
    CertificateIsForTrimmed(v.hostname, v.hostname);
    SameTrimmedIff(v.hostname);
  }

  lemma StreamAgrees(n: Node, l: Listen, v: XrayDoc, u: User, applied: seq<Family>, protocols: seq<Family>,
                     settings: RealityKeys, link: Link)
    requires Rendered(n, l, v, u, applied, protocols, settings, link) && l.protocol != Shadowsocks
    ensures link.XrayLink? && link.port == l.port && link.protocol == l.protocol && link.flow == l.flow
    ensures link.host == TrimSpace(HostOf(n))
    ensures link.credential == if l.protocol == ProtoTrojan then u.trojanPassword else u.vlessUUID
    ensures SameStream(link, StreamOf(l, v, CertFor(n.hostname))) <==> Agreeing(l, n.hostname, settings)
  {
    if l.protocol == ProtoVLESS && l.security == Reality {
      RealityLink(n, l, u, applied, protocols, settings, link);
      RealityAgrees(n.families, l, v, n.hostname, settings, link, CertFor(n.hostname));
    } else if l.protocol == ProtoVLESS {
      VlessTLSLink(n, l, u, applied, protocols, settings, link);
      VlessTLSAgrees(n.families, l, v, settings, link);
    } else if l.protocol == ProtoVMess {
      VmessTLSLink(n, l, u, applied, protocols, settings, link);
      VmessAgrees(n.families, l, v, settings, link);
    } else {
      TrojanTLSLink(n, l, u, applied, protocols, settings, link);
      TrojanAgrees(n.families, l, v, settings, link);
    }
  }

  ghost predicate Listed(v: XrayDoc, p: Protocol, u: User) {
    EntryFor(SlotOf(p), Row(0, u)).key
    in Keys(match SlotOf(p) case ByTrojan => v.trojan case BySS => v.ss case _ => v.clients)
  }

  lemma ListenAgrees(n: Node, l: Listen, v: XrayDoc, u: User, applied: seq<Family>, protocols: seq<Family>,
                     settings: RealityKeys, link: Link, tag: Tag)
    requires Rendered(n, l, v, u, applied, protocols, settings, link)
    requires BuildInbound(tag, l, v, CertFor(n.hostname)).Ok?
    requires Listed(v, l.protocol, u)
    ensures link.XrayLink? && link.host == TrimSpace(HostOf(n))
    ensures Dials(link, BuildInbound(tag, l, v, CertFor(n.hostname)).value) <==> Agreeing(l, n.hostname, settings)
  {
    var cert := CertFor(n.hostname);
    if l.protocol == Shadowsocks {
      SSCipherLink(n, l, u, applied, protocols, settings, link);
      SSInbound(n.families, l, v, tag, cert);
      KeyLetsIn(v.ss, "", NonEmpty(l.cipher, DEFAULT_SS_METHOD), link);
    } else {
      StreamAgrees(n, l, v, u, applied, protocols, settings, link);
      StreamInbound(n.families, l, v, tag, cert);
      KeyLetsIn(if l.protocol == ProtoTrojan then v.trojan else v.clients, l.flow, "", link);
    }
  }

  /** Node n with a legal stack was sent a document with Xray part v, which built inbounds ins. */
  ghost predicate Deployed(n: Node, rows: seq<GroupRows>, keys: RealityKeys, now: Time, v: XrayDoc, ins: seq<Inbound>) {
    Legal(Spec(n.families, n.ports))
    && Compile(n, rows, keys, now).Ok? && Compile(n, rows, keys, now).value.xray == Some(v)
    && BuildSpec(v) == Ok(ins)
  }

  lemma DeployedLists(n: Node, rows: seq<GroupRows>, keys: RealityKeys, now: Time, v: XrayDoc)
    requires Compile(n, rows, keys, now).Ok? && Compile(n, rows, keys, now).value.xray == Some(v)
    ensures v.reality == keys && HoldsLists(n, rows, now, v)
  {
  }

  lemma DeployedListen(n: Node, rows: seq<GroupRows>, keys: RealityKeys, now: Time, v: XrayDoc, ins: seq<Inbound>,
                       i: nat)
    requires Deployed(n, rows, keys, now, v, ins) && i < |ResolveXray(n.ports)|
    ensures v.hostname == n.hostname && LegalListen(n.families, ResolveXray(n.ports)[i])
    ensures var l := ResolveXray(n.ports)[i];
            i < |ins| && BuildInbound(TagFor(l, i), l, v, CertFor(n.hostname)) == Ok(ins[i])
  {
    XrayPart(n, rows, keys, now);
    LegalStackCompiles(n, rows, keys, now);
    assert BuiltAt(v, ins, i);
  }

  /** Every client of a built configuration is an entitled user's: it lets in that user's credential
      for the listen and reports the traffic under that user's id. */
  lemma ClientIsItsUser(n: Node, rows: seq<GroupRows>, keys: RealityKeys, now: Time, v: XrayDoc, ins: seq<Inbound>,
                        i: nat, c: Client) returns (g: nat, j: nat)
    requires Deployed(n, rows, keys, now, v, ins) && i < |ResolveXray(n.ports)|
    requires i < |ins| && ins[i].Proxy? && c in ins[i].clients
    ensures g < |rows| && j < |rows[g].users| && rows[g].users[j].user.EntitledAt(now)
    ensures c.email == rows[g].users[j].id
    ensures var u := rows[g].users[j].user;
            c.credential == match ResolveXray(n.ports)[i].protocol
                            case ProtoTrojan => u.trojanPassword
                            case Shadowsocks => u.ssPassword
                            case _ => u.vlessUUID
  {
    LegalStackCompiles(n, rows, keys, now);
    assert BuiltAt(v, ins, i);
    var p := ResolveXray(n.ports)[i].protocol;
    var k :| 0 <= k < |ins[i].clients| && ins[i].clients[k] == c;
    var e := ListServed(v, p)[k];
    DeployedLists(n, rows, keys, now, v);
    g, j := EntryIsItsUser(n.families, rows, SlotOf(p), now, e);
  }

  lemma LineNamesNode(n: Node, l: Listen, applied: seq<Family>, protocols: seq<Family>, settings: RealityKeys)
    ensures var line := LineFor(n, l, applied, protocols, settings);
            line.Some? ==> line.value.host == HostOf(n) && line.value.family == FamilyForListen(l)
  {
  }

  lemma LinkNamesLineAndUser(u: User, line: NodeLine, link: Link)
    requires ShareLink(u, line) == Ok(Some(link)) && line.family in {VLESS, VMess, Trojan, SS}
    ensures link.XrayLink? && link.host == TrimSpace(line.host) != ""
    ensures link.credential == if line.family == Trojan then u.trojanPassword
                               else if line.family == SS then u.ssPassword
                               else u.vlessUUID
  {
  }

  /** A rendered link names the node's host name, or without one its address, and the user's own
      credential for the listen. */
  lemma LinkNamesNodeAndUser(n: Node, l: Listen, u: User, applied: seq<Family>, protocols: seq<Family>,
                             settings: RealityKeys, link: Link)
    requires var line := LineFor(n, l, applied, protocols, settings);
             line.Some? && ShareLink(u, line.value) == Ok(Some(link))
    ensures link.XrayLink? && link.host != ""
    ensures link.host == if Blank(n.hostname) then TrimSpace(n.ipv4) else TrimSpace(n.hostname)
    ensures link.credential == match l.protocol
                               case ProtoTrojan => u.trojanPassword
                               case Shadowsocks => u.ssPassword
                               case _ => u.vlessUUID
  {
    LineNamesNode(n, l, applied, protocols, settings);
    LinkNamesLineAndUser(u, LineFor(n, l, applied, protocols, settings).value, link);
  }

  /** For every listen of a legal stack, the link rendered for an entitled user of a permitting
      group names the node and the user's credential, and dials the inbound built for that listen
      exactly when the listen is Agreeing. */
  lemma LinkDialsInboundIffAgreeing(n: Node, rows: seq<GroupRows>, settings: RealityKeys, now: Time,
                                    applied: seq<Family>, v: XrayDoc, ins: seq<Inbound>,
                                    g: nat, j: nat, i: nat, link: Link)
    requires Ready(settings) && Deployed(n, rows, Carried(settings), now, v, ins)
    requires g < |rows| && j < |rows[g].users| && rows[g].users[j].user.EntitledAt(now)
    requires i < |ResolveXray(n.ports)|
    requires var line := LineFor(n, ResolveXray(n.ports)[i], applied, rows[g].protocols, settings);
             line.Some? && ShareLink(rows[g].users[j].user, line.value) == Ok(Some(link))
    ensures link.XrayLink? && link.host == if Blank(n.hostname) then TrimSpace(n.ipv4) else TrimSpace(n.hostname)
    ensures i < |ins| && (Dials(link, ins[i]) <==> Agreeing(ResolveXray(n.ports)[i], n.hostname, settings))
  {
    DeployedLists(n, rows, Carried(settings), now, v);
    DeployedListen(n, rows, Carried(settings), now, v, ins, i);
    var l, u := ResolveXray(n.ports)[i], rows[g].users[j].user;
    HostnameIsThere(n, l);
    LinkNamesNodeAndUser(n, l, u, applied, rows[g].protocols, settings, link);
    LinkIsDialled(n, rows, settings, now, applied, v, g, j, l, TagFor(l, i), link);
  }

  lemma SameKey(r: Row, slot: Slot)
    ensures EntryFor(slot, r).key == EntryFor(slot, Row(0, r.user)).key
  {
  }

  ghost predicate HoldsLists(n: Node, rows: seq<GroupRows>, now: Time, v: XrayDoc) {
    v.clients == ListFor(n.families, rows, ByUUID, now) && v.trojan == ListFor(n.families, rows, ByTrojan, now)
    && v.ss == ListFor(n.families, rows, BySS, now)
  }

  lemma ListedAtSnapshot(n: Node, rows: seq<GroupRows>, now: Time, v: XrayDoc, g: nat, j: nat, l: Listen)
    requires g < |rows| && j < |rows[g].users| && rows[g].users[j].user.EntitledAt(now) && HoldsLists(n, rows, now, v)
    requires LegalListen(n.families, l) && FamilyForListen(l) in rows[g].protocols
    requires HasCredential(SlotOf(l.protocol), rows[g].users[j].user)
    ensures Listed(v, l.protocol, rows[g].users[j].user)
  {
    CredentialIsListed(n, rows, now, g, j, l);
    SameKey(rows[g].users[j], SlotOf(l.protocol));
  }

  lemma LinkIsDialled(n: Node, rows: seq<GroupRows>, settings: RealityKeys, now: Time, applied: seq<Family>, v: XrayDoc,
                      g: nat, j: nat, l: Listen, tag: Tag, link: Link)
    requires g < |rows| && j < |rows[g].users| && rows[g].users[j].user.EntitledAt(now)
    requires Rendered(n, l, v, rows[g].users[j].user, applied, rows[g].protocols, settings, link)
    requires HoldsLists(n, rows, now, v)
    requires BuildInbound(tag, l, v, CertFor(n.hostname)).Ok?
    ensures link.XrayLink? && link.host == TrimSpace(HostOf(n))
    ensures Dials(link, BuildInbound(tag, l, v, CertFor(n.hostname)).value) <==> Agreeing(l, n.hostname, settings)
  {
    var u := rows[g].users[j].user;
    LineNamesNode(n, l, applied, rows[g].protocols, settings);
    LinkHasCredential(u, LineFor(n, l, applied, rows[g].protocols, settings).value, link, l.protocol);
    ListedAtSnapshot(n, rows, now, v, g, j, l);
    ListenAgrees(n, l, v, u, applied, rows[g].protocols, settings, link, tag);
  }

  lemma HostnameIsThere(n: Node, l: Listen)
    requires ApplyBlock(n).None? && l in ResolveXray(n.ports)
    ensures l.security == TLS || l.protocol == ProtoVMess || l.protocol == ProtoTrojan ==> !Blank(n.hostname)
  {
  }

  lemma LinkHasCredential(u: User, line: NodeLine, link: Link, p: Protocol)
    requires ShareLink(u, line) == Ok(Some(link)) && !p.UnknownProto?
    requires line.family == match p
                            case ProtoVLESS => VLESS
                            case ProtoVMess => VMess
                            case ProtoTrojan => Trojan
                            case _ => SS
    ensures HasCredential(SlotOf(p), u)
  {
  }

  /** On settings the handlers stored, whatever their history, the REALITY clause falls away. */
  lemma StoredSettingsLinkDialsIff(n: Node, rows: seq<GroupRows>, events: seq<Update>, hostOf: string -> string,
                                   now: Time, applied: seq<Family>, v: XrayDoc, ins: seq<Inbound>,
                                   g: nat, j: nat, i: nat, link: Link)
    requires forall k :: 0 <= k < |events| && events[k].Ensure? ==> Generated(events[k].made)
    requires Ready(Run(events, hostOf)) && Deployed(n, rows, Carried(Run(events, hostOf)), now, v, ins)
    requires g < |rows| && j < |rows[g].users| && rows[g].users[j].user.EntitledAt(now)
    requires i < |ResolveXray(n.ports)|
    requires var line := LineFor(n, ResolveXray(n.ports)[i], applied, rows[g].protocols, Run(events, hostOf));
             line.Some? && ShareLink(rows[g].users[j].user, line.value) == Ok(Some(link))
    ensures i < |ins| && (Dials(link, ins[i]) <==> ListenAgreeing(ResolveXray(n.ports)[i], n.hostname))
  {
    StoredSettingsArePlain(events, hostOf);
    LinkDialsInboundIffAgreeing(n, rows, Run(events, hostOf), now, applied, v, ins, g, j, i, link);
  }
}
