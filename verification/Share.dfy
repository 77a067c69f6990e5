/** internal/api/server.go renderUser and internal/sub/render.go: the links a user is handed, as
    records of what the client will dial. */
module Share {
  import opened Entitlement
  import opened Storage
  import opened Stack
  import opened Text
  import opened Desired
  import opened Settings

  datatype RealityShare = RealityShare(
    sni: string, publicKey: string, shortId: string, flow: string, network: Network, serviceName: string)

  datatype NodeLine = NodeLine(
    name: string, host: string, family: Family, port: int, reality: Option<RealityShare>, security: Security,
    tlsSni: string, network: Network, path: string, wsHost: string, cipher: string, hy2SNI: string, ttLink: string)

  datatype Link =
    | XrayLink(protocol: Protocol, credential: string, host: string, port: int, network: Option<Network>,
               security: Security, sni: string, publicKey: string, shortId: string, service: Option<string>,
               flow: string, path: Option<string>, wsHost: Option<string>, cipher: string)
    | Hy2Link(password: string, host: string, port: int, sni: string)
    | Deeplink(link: string)

  datatype LinkError = MissingHost | UnknownFamily

  /** realityShare, on a stored public key: what links carry, untrimmed. */
  function ShareKeys(settings: RealityKeys, l: Listen): RealityShare {
    RealityShare(NonEmpty(settings.sni, DEFAULT_SNI), settings.publicKey, settings.shortId,
                 l.flow, l.network, l.serviceName)
  }

  function HostOf(n: Node): string {
    if n.hostname == "" then n.ipv4 else n.hostname
  }

  /** renderUser's line for one listen of a node, if the node applied its family and the group
      permits it. */
  function LineFor(n: Node, l: Listen, applied: seq<Family>, protocols: seq<Family>,
                   settings: RealityKeys): Option<NodeLine> {
    var fam := FamilyForListen(l);
    if fam !in applied || fam !in protocols then None
    else
      var base := NodeLine(if l.tag == "" then n.name else n.name + "-" + l.tag, HostOf(n), fam, l.port, None,
                           NoSecurity, "", l.network, l.path, l.host, l.cipher, n.hostname, "");
      Some(
        match fam
        case VLESS =>
          var sec := if l.security.NoSecurity? then Reality else l.security;
          if sec.Reality? && settings.publicKey != "" then
            base.(security := sec, reality := Some(ShareKeys(settings, l)))
          else if sec.TLS? then base.(security := sec, tlsSni := n.hostname)
          else base.(security := sec)
        case VMess => base.(security := TLS, tlsSni := n.hostname, path := if l.path == "" then WS_PATH else l.path)
        case Trojan => base.(security := TLS, tlsSni := n.hostname)
        case _ => base.(cipher := if l.cipher == "" then DEFAULT_SS_METHOD else l.cipher))
  }

  /** The Xray lines of one node, in listen order. */
  function LinesFor(n: Node, listens: seq<Listen>, applied: seq<Family>, protocols: seq<Family>,
                    settings: RealityKeys): seq<NodeLine> {
    if listens == [] then []
    else
      var line := LineFor(n, listens[|listens| - 1], applied, protocols, settings);
      LinesFor(n, listens[..|listens| - 1], applied, protocols, settings) + if line.Some? then [line.value] else []
  }

  method XrayLines(n: Node, listens: seq<Listen>, applied: seq<Family>, protocols: seq<Family>, settings: RealityKeys)
    returns (lines: seq<NodeLine>)
    ensures lines == LinesFor(n, listens, applied, protocols, settings)
  {
    lines := [];
    for i := 0 to |listens|
      invariant lines == LinesFor(n, listens[..i], applied, protocols, settings)
    {
      assert listens[..i + 1][..i] == listens[..i];
      var line := LineFor(n, listens[i], applied, protocols, settings);
      lines := lines + if line.Some? then [line.value] else [];
    }
    assert listens[..|listens|] == listens;
  }

  /** renderUser's line for an applied family that is no listen: Hysteria2, and TrustTunnel when a
      deeplink was minted. */
  function FamilyLine(n: Node, fam: Family, protocols: seq<Family>, ttLink: string): Option<NodeLine> {
    if fam in {VLESS, VMess, Trojan, SS} || fam !in protocols || (fam.TT? && Blank(ttLink)) then None
    else
      Some(NodeLine(n.name, HostOf(n), fam, if fam.Hy2? then n.ports.hy2UDP else if fam.TT? then n.ports.tt else 443,
                    None, NoSecurity, "", NoNetwork, "", "", "", n.hostname, if fam.TT? then ttLink else ""))
  }

  function FamilyLines(n: Node, fams: seq<Family>, protocols: seq<Family>, ttLink: string): seq<NodeLine> {
    if fams == [] then []
    else
      var line := FamilyLine(n, fams[|fams| - 1], protocols, ttLink);
      FamilyLines(n, fams[..|fams| - 1], protocols, ttLink) + if line.Some? then [line.value] else []
  }

  /** All the lines of one node. */
  function NodeLines(n: Node, applied: seq<Family>, protocols: seq<Family>, settings: RealityKeys,
                     ttLink: string): seq<NodeLine> {
    LinesFor(n, ResolveXray(n.ports), applied, protocols, settings) + FamilyLines(n, applied, protocols, ttLink)
  }

  method NodeLinesOf(n: Node, applied: seq<Family>, protocols: seq<Family>, settings: RealityKeys, ttLink: string)
    returns (lines: seq<NodeLine>)
    ensures lines == NodeLines(n, applied, protocols, settings, ttLink)
    ensures lines == LinesFor(n, ResolveXray(n.ports), applied, protocols, settings)
                     + FamilyLines(n, applied, protocols, ttLink)
  {
    lines := XrayLines(n, ResolveXray(n.ports), applied, protocols, settings);
    ghost var listens := lines;
    for i := 0 to |applied|
      invariant lines == listens + FamilyLines(n, applied[..i], protocols, ttLink)
    {
      assert applied[..i + 1][..i] == applied[..i];
      var line := FamilyLine(n, applied[i], protocols, ttLink);
      lines := lines + if line.Some? then [line.value] else [];
    }
    assert applied[..|applied|] == applied;
  }

  function Known(s: string): Option<string> {
    if s == "" then None else Some(s)
  }

  function VlessLink(u: User, line: NodeLine, host: string, port: int): Link {
    var isReality := line.reality.Some? && line.reality.value.publicKey != "";
    var network :=
      if !line.network.NoNetwork? then line.network
      else if !isReality then TCP
      else if line.reality.value.network.NoNetwork? then GRPC
      else line.reality.value.network;
    var wsHost :=
      if line.wsHost != "" then line.wsHost
      else if line.reality.Some? && line.reality.value.sni != "" then line.reality.value.sni
      else line.tlsSni;
    XrayLink(
      ProtoVLESS, u.vlessUUID, host, port, Some(network),
      if isReality then Reality else if line.security.TLS? then TLS else NoSecurity,
      if isReality then NonEmpty(line.reality.value.sni, host)
      else if line.security.TLS? then NonEmpty(line.tlsSni, host)
      else "",
      if isReality then line.reality.value.publicKey else "",
      if isReality then line.reality.value.shortId else "",
      if isReality && network.GRPC? then Some(NonEmpty(line.reality.value.serviceName, GRPC_SERVICE)) else None,
      if isReality then line.reality.value.flow else "",
      if network.WS? then Some(NonEmpty(line.path, WS_PATH)) else None,
      if network.WS? then Known(wsHost) else None,
      "")
  }

  function VmessLink(u: User, line: NodeLine, host: string, port: int): Link {
    var sni := NonEmpty(line.tlsSni, host);
    XrayLink(ProtoVMess, u.vlessUUID, host, port, Some(if line.network.NoNetwork? then WS else line.network), TLS, sni,
             "", "", None, "", Some(NonEmpty(line.path, WS_PATH)), Some(sni), "")
  }

  function TrojanLink(u: User, line: NodeLine, host: string, port: int): Link {
    XrayLink(ProtoTrojan, u.trojanPassword, host, port, Some(TCP), TLS, NonEmpty(line.tlsSni, host), "", "", None, "",
             None, None, "")
  }

  function SSLink(u: User, line: NodeLine, host: string, port: int): Link {
    XrayLink(Shadowsocks, u.ssPassword, host, port, None, NoSecurity, "", "", "", None, "", None, None,
             NonEmpty(line.cipher, DEFAULT_SS_METHOD))
  }

  /** shareLink: no link when the user has no credential for the family. */
  function ShareLink(u: User, line: NodeLine): Result<Option<Link>, LinkError> {
    var host := TrimSpace(line.host);
    var port := if line.port <= 0 then 443 else line.port;
    if host == "" then Err(MissingHost)
    else
      match line.family
      case VLESS => Ok(if Blank(u.vlessUUID) then None else Some(VlessLink(u, line, host, port)))
      case VMess => Ok(if Blank(u.vlessUUID) then None else Some(VmessLink(u, line, host, port)))
      case Trojan => Ok(if Blank(u.trojanPassword) then None else Some(TrojanLink(u, line, host, port)))
      case SS => Ok(if Blank(u.ssPassword) then None else Some(SSLink(u, line, host, port)))
      case Hy2 =>
        Ok(if Blank(u.hy2Password) then None else Some(Hy2Link(u.hy2Password, host, port, NonEmpty(line.hy2SNI, host))))
      case TT => Ok(if Blank(line.ttLink) then None else Some(Deeplink(TrimSpace(line.ttLink))))
      case Other(_) => Err(UnknownFamily)
  }

  /** Links of the lines in order, or the first error. */
  function LinksOf(u: User, lines: seq<NodeLine>): Result<seq<Link>, LinkError> {
    if lines == [] then Ok([])
    else
      match LinksOf(u, lines[..|lines| - 1])
      case Err(e) => Err(e)
      case Ok(before) =>
        match ShareLink(u, lines[|lines| - 1])
        case Err(e) => Err(e)
        case Ok(link) => Ok(before + if link.Some? then [link.value] else [])
  }

  method Render(u: User, lines: seq<NodeLine>) returns (r: Result<seq<Link>, LinkError>)
    ensures r == LinksOf(u, lines)
  {
    var body: seq<Link> := [];
    for i := 0 to |lines|
      invariant LinksOf(u, lines[..i]) == Ok(body)
    {
      assert lines[..i + 1][..i] == lines[..i];
      var link := ShareLink(u, lines[i]);
      match link {
        case Err(e) =>
          FirstLinkErrorStays(u, lines, i + 1);
          return Err(e);
        case Ok(s) =>
          body := body + if s.Some? then [s.value] else [];
      }
    }
    assert lines[..|lines|] == lines;
    r := Ok(body);
  }

  lemma {:induction false} FirstLinkErrorStays(u: User, lines: seq<NodeLine>, k: nat)
    requires k <= |lines| && LinksOf(u, lines[..k]).Err?
    ensures LinksOf(u, lines) == LinksOf(u, lines[..k])
    decreases |lines|
  {
    if k == |lines| {
      assert lines[..k] == lines;
    } else {
      assert lines[..|lines| - 1][..k] == lines[..k];
      FirstLinkErrorStays(u, lines[..|lines| - 1], k);
    }
  }
}
