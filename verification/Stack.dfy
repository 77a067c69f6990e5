/** internal/stack/stack.go: which protocol stacks a node may be given. */
module Stack {
  import opened Entitlement
  import opened Storage
  import opened Text

  const DEFAULT_SS_METHOD := "aes-256-gcm"
  const WS_PATH := "/goodwin"
  const GRPC_SERVICE := "goodwin"

  // A cleaned keyword, read. Unknown keywords keep their text.
  datatype Protocol = ProtoVLESS | ProtoVMess | ProtoTrojan | Shadowsocks | UnknownProto(text: string)
  datatype Security = NoSecurity | Reality | TLS | UnknownSec(text: string)
  datatype Network = NoNetwork | TCP | WS | GRPC | UnknownNet(text: string)

  function ReadProtocol(word: string): Protocol {
    if word == "vless" then ProtoVLESS
    else if word == "vmess" then ProtoVMess
    else if word == "trojan" then ProtoTrojan
    else if word == "shadowsocks" || word == "ss" then Shadowsocks
    else UnknownProto(word)
  }

  function ShowProtocol(p: Protocol): string {
    match p
    case ProtoVLESS => "vless"
    case ProtoVMess => "vmess"
    case ProtoTrojan => "trojan"
    case Shadowsocks => "shadowsocks"
    case UnknownProto(text) => text
  }

  function ReadSecurity(word: string): Security {
    if word == "" then NoSecurity
    else if word == "reality" then Reality
    else if word == "tls" then TLS
    else UnknownSec(word)
  }

  function ShowSecurity(s: Security): string {
    match s
    case NoSecurity => ""
    case Reality => "reality"
    case TLS => "tls"
    case UnknownSec(text) => text
  }

  function ReadNetwork(word: string): Network {
    if word == "" then NoNetwork
    else if word == "tcp" then TCP
    else if word == "ws" then WS
    else if word == "grpc" then GRPC
    else UnknownNet(word)
  }

  function ShowNetwork(n: Network): string {
    match n
    case NoNetwork => ""
    case TCP => "tcp"
    case WS => "ws"
    case GRPC => "grpc"
    case UnknownNet(text) => text
  }

  /** A listen with its keywords read. */
  datatype Listen = Listen(
    protocol: Protocol, security: Security, network: Network, port: int, cipher: string,
    serviceName: string, flow: string, path: string, host: string, tag: string)

  function ShowListen(l: Listen): RawListen {
    RawListen(ShowProtocol(l.protocol), ShowSecurity(l.security), ShowNetwork(l.network), l.port, l.cipher,
              l.serviceName, l.flow, l.path, l.host, l.tag)
  }

  datatype Spec = Spec(families: seq<Family>, ports: Ports)

  datatype SpecError =
    | NoFamily | NoListens
    | ListenNotAllowed(tag: string) | BadProtocol(protocol: Protocol) | BadNetwork(network: Network)
    | VisionMisplaced | RealityWebSocket | GrpcVision | NoMethod | NeedsSecurity(protocol: Protocol)
    | NeedsTCPPort(who: string) | SharedTCPPort(prev: string, who: string, port: int)
    | NeedsHy2Port | NeedsTTPort | SharedUDPPort(port: int)

  function VlessRealityGRPC(port: int): Listen {
    Listen(ProtoVLESS, Reality, GRPC, port, "", GRPC_SERVICE, "", "", "", "grpc")
  }

  function DefaultLabel(l: Listen): string {
    match l.protocol
    case Shadowsocks => "ss"
    case ProtoVMess => "vmess"
    case ProtoTrojan => "trojan"
    case ProtoVLESS => if l.security.TLS? then "vless-tls" else ShowNetwork(l.network)
    case UnknownProto(text) => text
  }

  function Read(r: RawListen): Listen {
    Listen(ReadProtocol(Clean(r.protocol)), ReadSecurity(Clean(r.security)), ReadNetwork(Clean(r.network)), r.port,
           r.cipher, r.serviceName, r.flow, r.path, r.host, r.tag)
  }

  // The defaults of normalizeListens' loop body, in order.

  function WithNetwork(l: Listen): Listen {
    if l.network.NoNetwork? then l.(network := TCP) else l
  }

  function WithSecurity(l: Listen): Listen {
    if l.protocol.ProtoVLESS? && l.security.NoSecurity? then l.(security := Reality) else l
  }

  function WithService(l: Listen): Listen {
    if l.protocol.ProtoVLESS? && l.network.GRPC? && l.serviceName == "" then l.(serviceName := GRPC_SERVICE) else l
  }

  function WithCipher(l: Listen): Listen {
    if l.protocol.Shadowsocks? && l.cipher == "" then l.(cipher := DEFAULT_SS_METHOD) else l
  }

  function WithLabel(l: Listen): Listen {
    if l.tag == "" then l.(tag := DefaultLabel(l)) else l
  }

  function Defaulted(l: Listen): Listen {
    WithLabel(WithCipher(WithService(WithSecurity(WithNetwork(l)))))
  }

  method FillDefaults(l0: Listen) returns (l: Listen)
    ensures l == Defaulted(l0)
  {
    l := l0;
    if l.network.NoNetwork? {
      l := l.(network := TCP);
    }
    if l.protocol.ProtoVLESS? && l.security.NoSecurity? {
      l := l.(security := Reality);
    }
    if l.protocol.ProtoVLESS? && l.network.GRPC? && l.serviceName == "" {
      l := l.(serviceName := GRPC_SERVICE);
    }
    if l.protocol.Shadowsocks? && l.cipher == "" {
      l := l.(cipher := DEFAULT_SS_METHOD);
    }
    if l.tag == "" {
      l := l.(tag := DefaultLabel(l));
    }
  }

  function NormalizeListen(r: RawListen): Listen {
    Defaulted(Read(r))
  }

  function Normalized(rs: seq<RawListen>): seq<Listen> {
    seq(|rs|, i requires 0 <= i < |rs| => NormalizeListen(rs[i]))
  }

  method NormalizeListens(rs: seq<RawListen>) returns (out: seq<Listen>)
    ensures out == Normalized(rs)
  {
    out := [];
    for i := 0 to |rs|
      invariant |out| == i
      invariant forall k :: 0 <= k < i ==> out[k] == NormalizeListen(rs[k])
    {
      var l := FillDefaults(Read(rs[i]));
      assert l == NormalizeListen(rs[i]);
      out := out + [l];
    }
  }

  function ResolveXray(p: Ports): seq<Listen> {
    if |p.xray| > 0 then Normalized(p.xray)
    else if |p.vless| > 0 then Normalized(p.vless)
    else if p.vlessTCP <= 0 then []
    else [VlessRealityGRPC(p.vlessTCP)]
  }

  function FamilyForListen(l: Listen): Family {
    match l.protocol
    case ProtoVMess => VMess
    case ProtoTrojan => Trojan
    case Shadowsocks => SS
    case _ => VLESS
  }

  predicate WantsXray(families: seq<Family>) {
    VLESS in families || VMess in families || Trojan in families || SS in families
  }

  predicate NeedsHostname(families: seq<Family>) {
    Hy2 in families || TT in families || VMess in families || Trojan in families
  }

  predicate NeedsTLSCert(p: Ports) {
    exists l :: l in ResolveXray(p) && (l.security.TLS? || l.protocol.ProtoTrojan? || l.protocol.ProtoVMess?)
  }

  /** The checks of Validate's loop on one listen, in order, short of its port. */
  function ListenFault(families: seq<Family>, l: Listen): Option<SpecError> {
    if FamilyForListen(l) !in families then Some(ListenNotAllowed(l.tag))
    else if l.protocol.UnknownProto? then Some(BadProtocol(l.protocol))
    else if !(l.network.TCP? || l.network.WS? || l.network.GRPC?) then Some(BadNetwork(l.network))
    else if l.flow != "" && !(l.protocol.ProtoVLESS? && l.security.Reality? && l.network.TCP?) then
      Some(VisionMisplaced)
    else if l.security.Reality? && l.network.WS? then Some(RealityWebSocket)
    else if l.protocol.ProtoVLESS? && l.network.GRPC? && l.flow != "" then Some(GrpcVision)
    else if l.protocol.Shadowsocks? then (if Blank(l.cipher) then Some(NoMethod) else None)
    else if !(l.security.Reality? || l.security.TLS?) then Some(NeedsSecurity(l.protocol))
    else None
  }

  function MarkFault(seen: map<int, string>, port: int, who: string): Option<SpecError> {
    if port <= 0 then Some(NeedsTCPPort(who))
    else if port in seen then Some(SharedTCPPort(seen[port], who, port))
    else None
  }

  /** TCP ports of listens, each with the name it is reported under. */
  function PortsSeen(ls: seq<Listen>): map<int, string> {
    if ls == [] then map[]
    else
      var l := ls[|ls| - 1];
      PortsSeen(ls[..|ls| - 1])[l.port := "xray:" + l.tag]
  }

  /** First fault of the listens, in order. */
  function ListensFault(families: seq<Family>, ls: seq<Listen>): Option<SpecError> {
    if ls == [] then None
    else
      var before, l := ls[..|ls| - 1], ls[|ls| - 1];
      if ListensFault(families, before).Some? then ListensFault(families, before)
      else if ListenFault(families, l).Some? then ListenFault(families, l)
      else MarkFault(PortsSeen(before), l.port, "xray:" + l.tag)
  }

  function TailFault(spec: Spec, seen: map<int, string>): Option<SpecError> {
    var hy2, tt := Hy2 in spec.families, TT in spec.families;
    if hy2 && spec.ports.hy2UDP <= 0 then Some(NeedsHy2Port)
    else if tt && spec.ports.tt <= 0 then Some(NeedsTTPort)
    else if tt && MarkFault(seen, spec.ports.tt, "trusttunnel").Some? then
      MarkFault(seen, spec.ports.tt, "trusttunnel")
    else if tt && hy2 && spec.ports.hy2UDP == spec.ports.tt then Some(SharedUDPPort(spec.ports.tt))
    else None
  }

  function VerdictOn(spec: Spec, listens: seq<Listen>): Option<SpecError> {
    if !WantsXray(spec.families) && Hy2 !in spec.families && TT !in spec.families then Some(NoFamily)
    else if WantsXray(spec.families) && listens == [] then Some(NoListens)
    else if ListensFault(spec.families, listens).Some? then ListensFault(spec.families, listens)
    else TailFault(spec, PortsSeen(listens))
  }

  /** The error Validate reports for a spec, if any. */
  function Verdict(spec: Spec): Option<SpecError> {
    VerdictOn(spec, ResolveXray(spec.ports))
  }

  method ValidateOn(spec: Spec, listens: seq<Listen>) returns (err: Option<SpecError>)
    ensures err == VerdictOn(spec, listens)
  {
    var hy2, tt := Hy2 in spec.families, TT in spec.families;
    var wantXray := WantsXray(spec.families);
    if !wantXray && !hy2 && !tt {
      return Some(NoFamily);
    }
    if wantXray && |listens| == 0 {
      return Some(NoListens);
    }
    var seenPort: map<int, string> := map[];
    for i := 0 to |listens|
      invariant ListensFault(spec.families, listens[..i]).None?
      invariant seenPort == PortsSeen(listens[..i])
    {
      var l := listens[i];
      var upTo := listens[..i + 1];
      assert upTo[..i] == listens[..i];
      var fault := ListenFault(spec.families, l);
      if fault.None? {
        fault := MarkFault(seenPort, l.port, "xray:" + l.tag);
      }
      if fault.Some? {
        FirstFaultStays(spec.families, listens, i + 1);
        return fault;
      }
      seenPort := seenPort[l.port := "xray:" + l.tag];
    }
    assert listens[..|listens|] == listens;
    err := TailFault(spec, seenPort);
  }

  method Validate(spec: Spec) returns (err: Option<SpecError>)
    ensures err == Verdict(spec)
  {
    var listens := ResolveXray(spec.ports);
    err := ValidateOn(spec, listens);
  }

  lemma {:induction false} FirstFaultStays(families: seq<Family>, ls: seq<Listen>, k: nat)
    requires k <= |ls| && ListensFault(families, ls[..k]).Some?
    ensures ListensFault(families, ls) == ListensFault(families, ls[..k])
    decreases |ls|
  {
    if k == |ls| {
      assert ls[..k] == ls;
    } else {
      assert ls[..|ls| - 1][..k] == ls[..k];
      FirstFaultStays(families, ls[..|ls| - 1], k);
    }
  }

  /** A listen every node can serve: a known protocol and network of a chosen family, Vision only
      on VLESS REALITY over TCP, no REALITY over WebSocket, a cipher for Shadowsocks and REALITY or
      TLS for everything else. */
  ghost predicate LegalListen(families: seq<Family>, l: Listen) {
    l.port > 0
    && l.network in {TCP, WS, GRPC}
    && (l.flow != "" ==> l.protocol == ProtoVLESS && l.security == Reality && l.network == TCP)
    && (l.security == Reality ==> l.network != WS)
    && ((l.protocol == ProtoVLESS && VLESS in families && l.security in {Reality, TLS})
        || (l.protocol == ProtoVMess && VMess in families && l.security in {Reality, TLS})
        || (l.protocol == ProtoTrojan && Trojan in families && l.security in {Reality, TLS})
        || (l.protocol == Shadowsocks && SS in families && !Blank(l.cipher)))
  }

  ghost predicate DistinctPorts(ls: seq<Listen>) {
    forall i, j :: 0 <= i < j < |ls| ==> ls[i].port != ls[j].port
  }

  ghost predicate LegalOn(spec: Spec, listens: seq<Listen>) {
    (exists f :: f in spec.families && !f.Other?)
    && (WantsXray(spec.families) ==> listens != [])
    && (forall l :: l in listens ==> LegalListen(spec.families, l))
    && DistinctPorts(listens)
    && (Hy2 in spec.families ==> spec.ports.hy2UDP > 0)
    && (TT in spec.families ==>
          spec.ports.tt > 0
          && (forall l :: l in listens ==> l.port != spec.ports.tt)
          && (Hy2 in spec.families ==> spec.ports.hy2UDP != spec.ports.tt))
  }

  /** A stack that can be deployed. */
  ghost predicate Legal(spec: Spec) {
    LegalOn(spec, ResolveXray(spec.ports))
  }

  // The normal form and the verdict, said without the loops.

  /** The normal form of a listen, keyword by keyword as the column spells it. */
  lemma NormalFormReads(r: RawListen)
    ensures var l, p, s, n := NormalizeListen(r), Clean(r.protocol), Clean(r.security), Clean(r.network);
            (l.protocol == ProtoVLESS <==> p == "vless") && (l.protocol == ProtoVMess <==> p == "vmess")
            && (l.protocol == ProtoTrojan <==> p == "trojan")
            && (l.protocol == Shadowsocks <==> p in ["ss", "shadowsocks"])
            && (l.network == TCP <==> n in ["", "tcp"]) && (l.network == WS <==> n == "ws")
            && (l.network == GRPC <==> n == "grpc")
            && (l.security == Reality <==> s == "reality" || (s == "" && p == "vless"))
            && (l.security == TLS <==> s == "tls") && (l.security == NoSecurity <==> s == "" && p != "vless")
  {
  }

  /** The rest of the normal form: fields are kept, and where they are empty filled in. */
  lemma NormalFormFills(r: RawListen)
    ensures var l, p, s, n := NormalizeListen(r), Clean(r.protocol), Clean(r.security), Clean(r.network);
            l.port == r.port && l.flow == r.flow && l.path == r.path && l.host == r.host
            && l.serviceName
               == (if p == "vless" && n == "grpc" && r.serviceName == "" then "goodwin" else r.serviceName)
            && l.cipher == (if p in ["ss", "shadowsocks"] && r.cipher == "" then "aes-256-gcm" else r.cipher)
            && l.tag == if r.tag != "" then r.tag
                        else if p in ["ss", "shadowsocks"] then "ss"
                        else if p != "vless" then p
                        else if s == "tls" then "vless-tls"
                        else if n == "" then "tcp"
                        else n
  {
  }

  /** Listens come from the xray column, else from the vless column, else from the lone port. */
  lemma ListensAreTheFirstColumns(p: Ports)
    ensures p.xray != [] ==> |ResolveXray(p)| == |p.xray|
                             && forall i :: 0 <= i < |p.xray| ==> ResolveXray(p)[i] == NormalizeListen(p.xray[i])
    ensures p.xray == [] && p.vless != [] ==>
              |ResolveXray(p)| == |p.vless|
              && forall i :: 0 <= i < |p.vless| ==> ResolveXray(p)[i] == NormalizeListen(p.vless[i])
    ensures p.xray == [] && p.vless == [] ==>
              ResolveXray(p) == if p.vlessTCP > 0 then
                                  [Listen(ProtoVLESS, Reality, GRPC, p.vlessTCP, "", "goodwin", "", "", "", "grpc")]
                                else []
  {
  }

  /** What an error says of a listen whose predecessors are in order. */
  ghost predicate ListenIsAtFault(families: seq<Family>, before: seq<Listen>, l: Listen, e: SpecError) {
    match e
    case ListenNotAllowed(tag) => tag == l.tag && FamilyForListen(l) !in families
    case BadProtocol(p) => p == l.protocol && l.protocol !in {ProtoVLESS, ProtoVMess, ProtoTrojan, Shadowsocks}
    case BadNetwork(n) => n == l.network && l.network !in {TCP, WS, GRPC}
    case VisionMisplaced => l.flow != "" && !(l.protocol == ProtoVLESS && l.security == Reality && l.network == TCP)
    case RealityWebSocket => l.security == Reality && l.network == WS
    case NoMethod => l.protocol == Shadowsocks && Blank(l.cipher)
    case NeedsSecurity(p) => p == l.protocol != Shadowsocks && l.security !in {Reality, TLS}
    case NeedsTCPPort(who) => who == "xray:" + l.tag && l.port <= 0
    case SharedTCPPort(prev, who, port) =>
      who == "xray:" + l.tag && port == l.port
      && exists k :: 0 <= k < |before| && before[k].port == port && prev == "xray:" + before[k].tag
    case _ => false
  }

  /** What an error says of a spec: the first listen at fault, with those before it legal and on ports of
      their own, or what is wrong once every listen is. */
  ghost predicate Explains(spec: Spec, listens: seq<Listen>, e: SpecError) {
    match e
    case NoFamily => forall f :: f in spec.families ==> f.Other?
    case NoListens => WantsXray(spec.families) && listens == []
    case NeedsHy2Port => Hy2 in spec.families && spec.ports.hy2UDP <= 0
    case NeedsTTPort => TT in spec.families && spec.ports.tt <= 0
    case SharedUDPPort(port) =>
      Hy2 in spec.families && TT in spec.families && spec.ports.hy2UDP == spec.ports.tt == port
    case _ => AtFault(spec, listens, e) || TTAtFault(spec, listens, e)
  }

  ghost predicate AtFault(spec: Spec, listens: seq<Listen>, e: SpecError) {
    exists i :: 0 <= i < |listens| && FirstAtFault(spec.families, listens, i, e)
  }

  ghost predicate FirstAtFault(families: seq<Family>, listens: seq<Listen>, i: nat, e: SpecError)
    requires i < |listens|
  {
    (forall l :: l in listens[..i] ==> LegalListen(families, l)) && DistinctPorts(listens[..i])
    && ListenIsAtFault(families, listens[..i], listens[i], e)
  }

  /** TrustTunnel's port is a listen's. */
  ghost predicate TTAtFault(spec: Spec, listens: seq<Listen>, e: SpecError) {
    TT in spec.families && e.SharedTCPPort? && e.who == "trusttunnel" && e.port == spec.ports.tt
    && exists k :: 0 <= k < |listens| && listens[k].port == e.port && e.prev == "xray:" + listens[k].tag
  }

  lemma {:induction false} PortSeenIsListens(ls: seq<Listen>, port: int) returns (k: nat)
    requires port in PortsSeen(ls)
    ensures k < |ls| && ls[k].port == port && PortsSeen(ls)[port] == "xray:" + ls[k].tag
  {
    var l := ls[|ls| - 1];
    if port == l.port {
      k := |ls| - 1;
    } else {
      k := PortSeenIsListens(ls[..|ls| - 1], port);
    }
  }

  lemma {:induction false} ListensFaultExplains(families: seq<Family>, ls: seq<Listen>) returns (i: nat)
    requires ListensFault(families, ls).Some?
    ensures i < |ls| && FirstAtFault(families, ls, i, ListensFault(families, ls).value)
  {
    var before, l := ls[..|ls| - 1], ls[|ls| - 1];
    if ListensFault(families, before).Some? {
      i := ListensFaultExplains(families, before);
      assert before[..i] == ls[..i];
    } else {
      i := |before|;
      ListensVerdict(families, before);
      if ListenFault(families, l).None? && l.port in PortsSeen(before) {
        var k := PortSeenIsListens(before, l.port);
      }
    }
  }

  /** The error Validate reports is the first fault there is. */
  lemma VerdictExplains(spec: Spec)
    requires Verdict(spec).Some?
    ensures Explains(spec, ResolveXray(spec.ports), Verdict(spec).value)
  {
    var listens := ResolveXray(spec.ports);
    if ListensFault(spec.families, listens).Some? {
      var i := ListensFaultExplains(spec.families, listens);
    } else if spec.ports.tt in PortsSeen(listens) {
      var k := PortSeenIsListens(listens, spec.ports.tt);
    }
  }

  lemma ListenVerdict(families: seq<Family>, l: Listen)
    ensures ListenFault(families, l).None? && l.port > 0 <==> LegalListen(families, l)
  {
  }

  lemma {:induction false} PortsSeenAre(ls: seq<Listen>)
    ensures forall p :: p in PortsSeen(ls) <==> exists l :: l in ls && l.port == p
  {
    if ls != [] {
      var before := ls[..|ls| - 1];
      PortsSeenAre(before);
      assert ls == before + [ls[|ls| - 1]];
    }
  }

  lemma {:induction false} ListensVerdict(families: seq<Family>, ls: seq<Listen>)
    ensures ListensFault(families, ls).None?
            <==> (forall l :: l in ls ==> LegalListen(families, l)) && DistinctPorts(ls)
  {
    if ls != [] {
      var before, l := ls[..|ls| - 1], ls[|ls| - 1];
      assert ls == before + [l];
      ListensVerdict(families, before);
      ListenVerdict(families, l);
      PortsSeenAre(before);
      assert DistinctPorts(ls) <==> DistinctPorts(before) && forall k :: k in before ==> k.port != l.port;
    }
  }

  lemma VerdictOnIsLegalOn(spec: Spec, listens: seq<Listen>)
    ensures VerdictOn(spec, listens).None? <==> LegalOn(spec, listens)
  {
    ListensVerdict(spec.families, listens);
    PortsSeenAre(listens);
  }

  /** Validate accepts exactly the deployable stacks. */
  lemma ValidateAcceptsExactlyLegal(spec: Spec)
    ensures Verdict(spec).None? <==> Legal(spec)
  {
    VerdictOnIsLegalOn(spec, ResolveXray(spec.ports));
  }

  lemma CleanWordsReadThemselves(word: string)
    requires IsCleanWord(word)
    ensures ReadProtocol(Clean(word)) == ReadProtocol(word)
    ensures ReadSecurity(Clean(word)) == ReadSecurity(word)
    ensures ReadNetwork(Clean(word)) == ReadNetwork(word)
  {
    CleanCleans(word);
  }

  lemma ShowInvertsRead(word: string)
    ensures ReadProtocol(ShowProtocol(ReadProtocol(word))) == ReadProtocol(word)
    ensures ShowProtocol(ReadProtocol(word)) == word || ShowProtocol(ReadProtocol(word)) == "shadowsocks"
    ensures ShowSecurity(ReadSecurity(word)) == word
    ensures ShowNetwork(ReadNetwork(word)) == word
  {
  }

  lemma KeywordsReadBack()
    ensures ReadProtocol(Clean("shadowsocks")) == Shadowsocks && ReadProtocol(Clean("vless")) == ProtoVLESS
    ensures ReadSecurity(Clean("reality")) == Reality
    ensures ReadNetwork(Clean("tcp")) == TCP && ReadNetwork(Clean("grpc")) == GRPC
  {
    LettersAreClean("shadowsocks");
    LettersAreClean("vless");
    LettersAreClean("reality");
    LettersAreClean("tcp");
    LettersAreClean("grpc");
  }

  lemma ReadProtocolBack(word: string)
    requires IsCleanWord(word)
    ensures ReadProtocol(Clean(ShowProtocol(ReadProtocol(word)))) == ReadProtocol(word)
  {
    ShowInvertsRead(word);
    CleanWordsReadThemselves(word);
    KeywordsReadBack();
  }

  lemma ReadSecurityBack(word: string)
    requires IsCleanWord(word)
    ensures ReadSecurity(Clean(ShowSecurity(ReadSecurity(word)))) == ReadSecurity(word)
  {
    ShowInvertsRead(word);
    CleanWordsReadThemselves(word);
  }

  lemma ReadNetworkBack(word: string)
    requires IsCleanWord(word)
    ensures ReadNetwork(Clean(ShowNetwork(ReadNetwork(word)))) == ReadNetwork(word)
  {
    ShowInvertsRead(word);
    CleanWordsReadThemselves(word);
  }

  lemma DefaultsTwice(l: Listen)
    ensures Defaulted(Defaulted(l)) == Defaulted(l)
  {
  }

  /** Shown keywords read back, also where a default stands for an empty keyword. */
  predicate ReadsBack(l: Listen) {
    ReadProtocol(Clean(ShowProtocol(l.protocol))) == l.protocol
    && (l.security == Reality || ReadSecurity(Clean(ShowSecurity(l.security))) == l.security)
    && (l.network == TCP || ReadNetwork(Clean(ShowNetwork(l.network))) == l.network)
  }

  lemma ShownReadsBack(l: Listen)
    requires ReadsBack(l)
    ensures Read(ShowListen(l)) == l
  {
    KeywordsReadBack();
  }

  /** Writing a normalised listen back to the ports column and normalising again changes nothing. */
  lemma NormalizeTwice(r: RawListen)
    ensures NormalizeListen(ShowListen(NormalizeListen(r))) == NormalizeListen(r)
  {
    var l := Read(r);
    CleanCleans(r.protocol);
    CleanCleans(r.security);
    CleanCleans(r.network);
    ReadProtocolBack(Clean(r.protocol));
    ReadSecurityBack(Clean(r.security));
    ReadNetworkBack(Clean(r.network));
    assert ReadsBack(l);
    var d := Defaulted(l);
    assert d.protocol == l.protocol;
    assert d.security == l.security || d.security == Reality;
    assert d.network == l.network || d.network == TCP;
    ShownReadsBack(d);
    DefaultsTwice(l);
  }

  lemma RealityGrpcIsNormal(port: int)
    ensures NormalizeListen(ShowListen(VlessRealityGRPC(port))) == VlessRealityGRPC(port)
  {
    KeywordsReadBack();
    ShownReadsBack(VlessRealityGRPC(port));
  }

  /** A stack whose ports are replaced by their normal form serves the same listens and gets the
      same verdict. */
  lemma NormalFormHasSameVerdict(spec: Spec)
    ensures var listens := ResolveXray(spec.ports);
            var again := spec.(ports := spec.ports.(
              xray := seq(|listens|, i requires 0 <= i < |listens| => ShowListen(listens[i])), vless := []));
            ResolveXray(again.ports) == listens && Verdict(again) == Verdict(spec)
  {
    var listens := ResolveXray(spec.ports);
    var shown := seq(|listens|, i requires 0 <= i < |listens| => ShowListen(listens[i]));
    forall i | 0 <= i < |listens| ensures NormalizeListen(shown[i]) == listens[i] {
      if |spec.ports.xray| > 0 {
        NormalizeTwice(spec.ports.xray[i]);
      } else if |spec.ports.vless| > 0 {
        NormalizeTwice(spec.ports.vless[i]);
      } else {
        RealityGrpcIsNormal(spec.ports.vlessTCP);
      }
    }
    assert Normalized(shown) == listens;
    var again := spec.(ports := spec.ports.(xray := shown, vless := []));
    assert ResolveXray(again.ports) == listens;
    SameListensSameVerdict(spec, again, listens);
  }

  lemma SameListensSameVerdict(spec: Spec, again: Spec, listens: seq<Listen>)
    requires again.families == spec.families && again.ports.hy2UDP == spec.ports.hy2UDP
             && again.ports.tt == spec.ports.tt
    ensures VerdictOn(again, listens) == VerdictOn(spec, listens)
  {
  }
}
