/** internal/xrayconf/build.go: the node configuration compiled from a document. */
module XrayConf {
  import opened Entitlement
  import opened Storage
  import opened Stack
  import opened Text
  import opened Desired

  const STATS_PORT := 10085

  datatype Tag = Named(tag: string) | Numbered(index: nat)

  /** Fields a client entry of an inbound carries; email is the user id the stats report. */
  datatype Client = Client(credential: string, email: UserId, flow: string, cipher: string)

  datatype WSSettings = WSSettings(path: string, host: Option<string>)
  datatype Certificate = Certificate(cert: string, key: string)

  datatype Stream = Stream(
    network: Network, security: Security, reality: Option<RealityKeys>, tls: Option<Certificate>,
    service: Option<string>, ws: Option<WSSettings>)

  datatype Inbound =
    | Proxy(tag: Tag, protocol: Protocol, port: int, clients: seq<Client>, stream: Option<Stream>, cipher: string)
    | Api(port: int)

  datatype BuildError = BadInboundProtocol | BadSecurity | BadInboundNetwork | MissingCert

  function ResolveInbounds(v: XrayDoc): seq<Listen> {
    if v.inbounds != [] then v.inbounds else [VlessRealityGRPC(if v.port <= 0 then 443 else v.port)]
  }

  function PrimaryPort(v: XrayDoc): int {
    ResolveInbounds(v)[0].port
  }

  const LIVE_DIR := "/etc/letsencrypt/live/"

  function CertDir(host: string): string {
    LIVE_DIR + host
  }

  /** Let's Encrypt files of the hostname; empty when there is no hostname. */
  function CertFor(hostname: string): Certificate {
    if Blank(hostname) then Certificate("", "")
    else
      var base := CertDir(TrimSpace(hostname));
      Certificate(base + "/fullchain.pem", base + "/privkey.pem")
  }

  lemma CertificateFiles(hostname: string)
    requires !Blank(hostname)
    ensures CertFor(hostname).cert == "/etc/letsencrypt/live/" + TrimSpace(hostname) + "/fullchain.pem"
    ensures CertFor(hostname).key == "/etc/letsencrypt/live/" + TrimSpace(hostname) + "/privkey.pem"
  {
  }

  function NetworkOf(l: Listen): Network {
    if l.network.NoNetwork? then TCP else l.network
  }

  function WSHost(l: Listen, v: XrayDoc): Option<string> {
    if l.host != "" then Some(l.host)
    else if v.reality.sni != "" && l.security.Reality? then Some(v.reality.sni)
    else if v.hostname != "" then Some(v.hostname)
    else None
  }

  function StreamSettings(l: Listen, v: XrayDoc, cert: Certificate): Result<Stream, BuildError> {
    var network := NetworkOf(l);
    if !(l.security.Reality? || l.security.TLS?) then Err(BadSecurity)
    else if l.security.TLS? && (cert.cert == "" || cert.key == "") then Err(MissingCert)
    else if !(network.TCP? || network.WS? || network.GRPC?) then Err(BadInboundNetwork)
    else
      Ok(Stream(
        network, l.security,
        if l.security.Reality? then Some(v.reality) else None,
        if l.security.TLS? then Some(cert) else None,
        if network.GRPC? then Some(if l.serviceName == "" then GRPC_SERVICE else l.serviceName) else None,
        if network.WS? then
          Some(WSSettings(if l.path == "" then WS_PATH else l.path, WSHost(l, v)))
        else None))
  }

  function ClientsOf(es: seq<Entry>, flow: string, cipher: string): seq<Client> {
    seq(|es|, i requires 0 <= i < |es| => Client(es[i].key, es[i].id, flow, cipher))
  }

  function BuildInbound(tag: Tag, l: Listen, v: XrayDoc, cert: Certificate): Result<Inbound, BuildError> {
    if l.protocol.UnknownProto? then Err(BadInboundProtocol)
    else if l.protocol.Shadowsocks? then
      var cipher := if l.cipher == "" then DEFAULT_SS_METHOD else l.cipher;
      Ok(Proxy(tag, Shadowsocks, l.port, ClientsOf(v.ss, "", cipher), None, cipher))
    else
      match StreamSettings(l, v, cert)
      case Err(e) => Err(e)
      case Ok(stream) =>
        var flow := if l.protocol.ProtoVLESS? && NetworkOf(l).TCP? then l.flow else "";
        Ok(Proxy(tag, l.protocol, l.port,
                 ClientsOf(if l.protocol.ProtoTrojan? then v.trojan else v.clients, flow, ""), Some(stream), ""))
  }

  function TagFor(l: Listen, i: nat): Tag {
    if l.tag == "" then Numbered(i) else Named(l.tag)
  }

  /** Inbounds of the first n listens, or the first error. */
  function BuildUpTo(v: XrayDoc, n: nat): (r: Result<seq<Inbound>, BuildError>)
    requires n <= |ResolveInbounds(v)|
    ensures r.Ok? ==> |r.value| == n
  {
    if n == 0 then Ok([])
    else
      match BuildUpTo(v, n - 1)
      case Err(e) => Err(e)
      case Ok(before) =>
        var l := ResolveInbounds(v)[n - 1];
        match BuildInbound(TagFor(l, n - 1), l, v, CertFor(v.hostname))
        case Err(e) => Err(e)
        case Ok(b) => Ok(before + [b])
  }

  function BuildSpec(v: XrayDoc): Result<seq<Inbound>, BuildError> {
    match BuildUpTo(v, |ResolveInbounds(v)|)
    case Err(e) => Err(e)
    case Ok(ins) => Ok(ins + [Api(STATS_PORT)])
  }

  method Build(v: XrayDoc) returns (r: Result<seq<Inbound>, BuildError>)
    ensures r == BuildSpec(v)
  {
    var ins := ResolveInbounds(v);
    var cert := CertFor(v.hostname);
    var inbounds: seq<Inbound> := [];
    for i := 0 to |ins|
      invariant BuildUpTo(v, i) == Ok(inbounds)
    {
      var built := BuildInbound(TagFor(ins[i], i), ins[i], v, cert);
      match built {
        case Err(e) =>
          FirstErrorStays(v, i + 1, |ins|);
          return Err(e);
        case Ok(b) =>
          inbounds := inbounds + [b];
      }
    }
    inbounds := inbounds + [Api(STATS_PORT)];
    r := Ok(inbounds);
  }

  lemma {:induction false} FirstErrorStays(v: XrayDoc, k: nat, n: nat)
    requires k <= n <= |ResolveInbounds(v)| && BuildUpTo(v, k).Err?
    ensures BuildUpTo(v, n) == BuildUpTo(v, k)
    decreases n - k
  {
    if k < n {
      FirstErrorStays(v, k, n - 1);
    }
  }

  /** What a build error says of the listen it is about. */
  predicate FailsBuild(v: XrayDoc, l: Listen, e: BuildError) {
    match e
    case BadInboundProtocol => l.protocol !in {ProtoVLESS, ProtoVMess, ProtoTrojan, Shadowsocks}
    case BadSecurity => l.protocol != Shadowsocks && l.security !in {Reality, TLS}
    case MissingCert => l.security == TLS && Blank(v.hostname)
    case BadInboundNetwork => l.network !in {NoNetwork, TCP, WS, GRPC}
  }

  /** The error of a build is that of the first listen that fails. */
  lemma {:induction false} BuildErrorExplains(v: XrayDoc, n: nat) returns (i: nat)
    requires n <= |ResolveInbounds(v)| && BuildUpTo(v, n).Err?
    ensures i < n && BuildUpTo(v, i).Ok? && FailsBuild(v, ResolveInbounds(v)[i], BuildUpTo(v, n).error)
  {
    if BuildUpTo(v, n - 1).Err? {
      i := BuildErrorExplains(v, n - 1);
    } else {
      i := n - 1;
    }
  }

  /** Inbound b serves listen l: same port and protocol, a flow exactly where the listen sets one,
      and that only on VLESS REALITY over TCP. */
  ghost predicate Serves(b: Inbound, l: Listen) {
    b.Proxy? && b.port == l.port && b.protocol == l.protocol
    && (forall c :: c in b.clients ==> c.flow == l.flow)
    && (forall c :: c in b.clients && c.flow != "" ==>
          b.protocol == ProtoVLESS && b.stream.Some? && b.stream.value.security == Reality
          && b.stream.value.network == TCP)
  }

  /** The document's list a listen serves. */
  function ListServed(v: XrayDoc, p: Protocol): seq<Entry> {
    match p
    case ProtoTrojan => v.trojan
    case Shadowsocks => v.ss
    case _ => v.clients
  }

  /** Inbound b admits the list its listen serves: one client an entry, in order, with the entry's key
      as credential and the entry's user as the name its traffic is reported under; Shadowsocks
      clients have the inbound's own cipher, and REALITY is the document's, private key included. */
  ghost predicate Admits(b: Inbound, l: Listen, v: XrayDoc) {
    var es := ListServed(v, l.protocol);
    b.Proxy? && |b.clients| == |es|
    && (forall k :: 0 <= k < |es| ==> b.clients[k].credential == es[k].key && b.clients[k].email == es[k].id)
    && (forall k :: 0 <= k < |es| ==>
          b.clients[k].flow == l.flow && b.clients[k].cipher == if l.protocol == Shadowsocks then l.cipher else "")
    && b.cipher == (if l.protocol == Shadowsocks then l.cipher else "")
    && (b.stream.Some? <==> l.protocol != Shadowsocks)
    && (b.stream.Some? ==> b.stream.value.reality == if l.security == Reality then Some(v.reality) else None)
  }

  lemma LegalListenBuilds(families: seq<Family>, l: Listen, tag: Tag, v: XrayDoc, cert: Certificate)
    requires LegalListen(families, l)
    requires l.security == TLS && l.protocol != Shadowsocks ==> cert.cert != "" && cert.key != ""
    ensures BuildInbound(tag, l, v, cert).Ok? && Serves(BuildInbound(tag, l, v, cert).value, l)
    ensures Admits(BuildInbound(tag, l, v, cert).value, l, v)
  {
  }

  /** Inbound i of ins is the one built for listen i, serves it under its label and admits its list. */
  ghost predicate BuiltAt(v: XrayDoc, ins: seq<Inbound>, i: nat)
    requires i < |v.inbounds| && i < |ins|
  {
    var l := v.inbounds[i];
    BuildInbound(TagFor(l, i), l, v, CertFor(v.hostname)) == Ok(ins[i]) && Serves(ins[i], l) && Admits(ins[i], l, v)
    && ins[i].tag == if l.tag != "" then Named(l.tag) else Numbered(i)
  }

  lemma NextListenBuilds(families: seq<Family>, v: XrayDoc, i: nat)
    requires i < |v.inbounds| && LegalListen(families, v.inbounds[i])
    requires v.inbounds[i].security == TLS ==> !Blank(v.hostname)
    ensures var l := v.inbounds[i];
            var r := BuildInbound(TagFor(l, i), l, v, CertFor(v.hostname));
            r.Ok? && Serves(r.value, l) && Admits(r.value, l, v)
  {
    LegalListenBuilds(families, v.inbounds[i], TagFor(v.inbounds[i], i), v, CertFor(v.hostname));
  }

  lemma {:induction false} LegalListensBuild(families: seq<Family>, v: XrayDoc, n: nat)
    requires n <= |v.inbounds| && v.inbounds != []
    requires forall l :: l in v.inbounds ==> LegalListen(families, l)
    requires (exists l :: l in v.inbounds && l.security == TLS) ==> !Blank(v.hostname)
    ensures BuildUpTo(v, n).Ok?
    ensures forall i :: 0 <= i < n ==> BuiltAt(v, BuildUpTo(v, n).value, i)
  {
    if n > 0 {
      LegalListensBuild(families, v, n - 1);
      assert v.inbounds[n - 1] in v.inbounds;
      NextListenBuilds(families, v, n - 1);
      KeepsBuilt(v, BuildUpTo(v, n - 1).value, BuildUpTo(v, n).value);
    }
  }

  lemma KeepsBuilt(v: XrayDoc, ins: seq<Inbound>, more: seq<Inbound>)
    requires |ins| < |v.inbounds| && |more| == |ins| + 1 && more[..|ins|] == ins
    requires forall i :: 0 <= i < |ins| ==> BuiltAt(v, ins, i)
    requires BuiltAt(v, more, |ins|)
    ensures forall i :: 0 <= i < |more| ==> BuiltAt(v, more, i)
  {
    forall i | 0 <= i < |ins| ensures BuiltAt(v, more, i) {
      BuiltInPrefix(v, ins, more, i);
    }
  }

  lemma BuiltInPrefix(v: XrayDoc, ins: seq<Inbound>, more: seq<Inbound>, i: nat)
    requires |ins| <= |more| && more[..|ins|] == ins && i < |ins| && i < |v.inbounds| && BuiltAt(v, ins, i)
    ensures BuiltAt(v, more, i)
  {
    assert more[..|ins|][i] == more[i];
  }

  lemma LegalInboundsBuild(families: seq<Family>, v: XrayDoc)
    requires v.inbounds != []
    requires forall l :: l in v.inbounds ==> LegalListen(families, l)
    requires (exists l :: l in v.inbounds && l.security == TLS) ==> !Blank(v.hostname)
    ensures BuildSpec(v).Ok? && |BuildSpec(v).value| == |v.inbounds| + 1
            && BuildSpec(v).value[|v.inbounds|] == Api(STATS_PORT)
    ensures forall i :: 0 <= i < |v.inbounds| ==> BuiltAt(v, BuildSpec(v).value, i)
  {
    LegalListensBuild(families, v, |v.inbounds|);
    var ins := BuildUpTo(v, |v.inbounds|).value;
    forall i | 0 <= i < |v.inbounds| ensures BuiltAt(v, BuildSpec(v).value, i) {
      BuiltInPrefix(v, ins, ins + [Api(STATS_PORT)], i);
    }
  }

  /** What a compiled document says of its node. */
  lemma XrayPart(n: Node, rows: seq<GroupRows>, keys: RealityKeys, now: Time)
    requires Legal(Spec(n.families, n.ports)) && Compile(n, rows, keys, now).Ok?
    ensures var part := Compile(n, rows, keys, now).value.xray;
            (part.Some? <==> WantsXray(n.families))
            && (part.Some? ==>
                  part.value.hostname == n.hostname && part.value.inbounds == ResolveXray(n.ports) != []
                  && PrimaryPort(part.value) == part.value.port
                  && (forall l :: l in part.value.inbounds ==> LegalListen(n.families, l))
                  && ((exists l :: l in part.value.inbounds && l.security == TLS) ==> !Blank(n.hostname)))
  {
    CertNeedsHost(n);
  }

  /** Every legal stack compiles: once a node's document passes its checks, Build succeeds with one
      inbound per listen, in order, and the stats inbound last; the document has an Xray part
      exactly when the stack has an Xray family. */
  lemma LegalStackCompiles(n: Node, rows: seq<GroupRows>, keys: RealityKeys, now: Time)
    requires Legal(Spec(n.families, n.ports)) && Compile(n, rows, keys, now).Ok?
    ensures var part := Compile(n, rows, keys, now).value.xray;
            (part.Some? <==> WantsXray(n.families))
            && (part.Some? ==>
                  var v, built := part.value, BuildSpec(part.value);
                  built.Ok? && v.hostname == n.hostname && v.inbounds == ResolveXray(n.ports)
                  && PrimaryPort(v) == v.port
                  && |built.value| == |v.inbounds| + 1 && built.value[|v.inbounds|] == Api(STATS_PORT)
                  && forall i :: 0 <= i < |v.inbounds| ==> BuiltAt(v, built.value, i))
  {
    XrayPart(n, rows, keys, now);
    var part := Compile(n, rows, keys, now).value.xray;
    if part.Some? {
      LegalInboundsBuild(n.families, part.value);
    }
  }

  lemma CertNeedsHost(n: Node)
    requires ApplyBlock(n).None?
    ensures (exists l :: l in ResolveXray(n.ports) && l.security == TLS) ==> !Blank(n.hostname)
  {
  }

  // The stored stacks over a run of the node handlers.

  datatype StackEvent =
    | CreateNode(id: NodeId, node: Node)          // families and ports of a preset
    | SetNodeStack(id: NodeId, spec: Spec)
    | PatchNode(id: NodeId, name: string, hostname: string)
    | Enroll(id: NodeId, ipv4: string, agentToken: string)
    | DeleteNode(id: NodeId)

  /** The node table after a handler; a refused request leaves it alone. */
  function Handle(nodes: map<NodeId, Node>, e: StackEvent): map<NodeId, Node> {
    match e
    case CreateNode(id, n) =>
      if Verdict(Spec(n.families, n.ports)).Some? then nodes
      else if (NeedsHostname(n.families) || NeedsTLSCert(n.ports)) && Blank(n.hostname) then nodes
      else nodes[id := n]
    case SetNodeStack(id, spec) =>
      if Verdict(spec).Some? || id !in nodes then nodes
      else if NeedsHostname(spec.families) && Blank(nodes[id].hostname) then nodes
      else nodes[id := nodes[id].(families := spec.families, ports := spec.ports)]
    case PatchNode(id, name, hostname) =>
      if id !in nodes || (NeedsHostname(nodes[id].families) && Blank(hostname)) then nodes
      else nodes[id := nodes[id].(name := name, hostname := hostname)]
    case Enroll(id, ipv4, token) =>
      if id !in nodes || Blank(ipv4) || Blank(token) then nodes
      else nodes[id := nodes[id].(ipv4 := ipv4, agentToken := token)]
    case DeleteNode(id) => nodes - {id}
  }

  function HandleAll(nodes: map<NodeId, Node>, events: seq<StackEvent>): map<NodeId, Node> {
    if events == [] then nodes
    else Handle(HandleAll(nodes, events[..|events| - 1]), events[|events| - 1])
  }

  ghost predicate LegalNode(n: Node) {
    Legal(Spec(n.families, n.ports))
  }

  lemma HandleKeepsLegal(nodes: map<NodeId, Node>, e: StackEvent, id: NodeId)
    requires (id in nodes ==> LegalNode(nodes[id])) && id in Handle(nodes, e)
    ensures LegalNode(Handle(nodes, e)[id])
  {
    if e.CreateNode? {
      ValidateAcceptsExactlyLegal(Spec(e.node.families, e.node.ports));
    } else if e.SetNodeStack? {
      ValidateAcceptsExactlyLegal(e.spec);
    }
  }

  lemma {:induction false} StoredStacksStayLegal(events: seq<StackEvent>, id: NodeId)
    requires id in HandleAll(map[], events)
    ensures LegalNode(HandleAll(map[], events)[id])
    decreases |events|
  {
    var before := HandleAll(map[], events[..|events| - 1]);
    if id in before {
      StoredStacksStayLegal(events[..|events| - 1], id);
    }
    HandleKeepsLegal(before, events[|events| - 1], id);
  }

  /** In every reachable node table, a node whose apply is not blocked gets a configuration. */
  lemma EveryStoredStackCompiles(events: seq<StackEvent>, id: NodeId, rows: seq<GroupRows>, keys: RealityKeys,
                                 now: Time)
    requires id in HandleAll(map[], events)
    requires Compile(HandleAll(map[], events)[id], rows, keys, now).Ok?
    ensures var n := HandleAll(map[], events)[id];
            var doc := Compile(n, rows, keys, now).value;
            doc.xray.Some? ==>
              BuildSpec(doc.xray.value).Ok? && |BuildSpec(doc.xray.value).value| == |ResolveXray(n.ports)| + 1
  {
    StoredStacksStayLegal(events, id);
    LegalStackCompiles(HandleAll(map[], events)[id], rows, keys, now);
  }
}
