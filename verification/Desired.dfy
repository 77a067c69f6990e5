/** internal/api/server.go applyStoredNode, up to the PUT: the document a node is sent, and
    internal/desired/state.go, the shape of that document. */
module Desired {
  import opened Entitlement
  import opened Storage
  import opened Stack
  import opened Text

  datatype Result<+T, +E> = Ok(value: T) | Err(error: E)

  /** One user in a list: who it is for, the credential the list is deduplicated on, and for
      TrustTunnel the password beside it. */
  datatype Entry = Entry(id: UserId, key: string, secret: string)

  /** The five user lists of a document. UUIDs serve VLESS and VMess. */
  datatype Slot = ByUUID | ByTrojan | BySS | ByHy2 | ByTT

  datatype Lists = Lists(clients: seq<Entry>, trojan: seq<Entry>, ss: seq<Entry>, hy2: seq<Entry>, tt: seq<Entry>)
  {
    function At(slot: Slot): seq<Entry> {
      match slot
      case ByUUID => clients
      case ByTrojan => trojan
      case BySS => ss
      case ByHy2 => hy2
      case ByTT => tt
    }
  }

  datatype Row = Row(id: UserId, user: User)
  /** What one pass over an attached group reads: its protocols, and its users in some order. */
  datatype GroupRows = GroupRows(gid: GroupId, protocols: seq<Family>, users: seq<Row>)

  predicate Permits(families: seq<Family>, protocols: seq<Family>, slot: Slot) {
    match slot
    case ByUUID => (VLESS in families && VLESS in protocols) || (VMess in families && VMess in protocols)
    case ByTrojan => Trojan in families && Trojan in protocols
    case BySS => SS in families && SS in protocols
    case ByHy2 => Hy2 in families && Hy2 in protocols
    case ByTT => TT in families && TT in protocols
  }

  function EntryFor(slot: Slot, r: Row): Entry {
    match slot
    case ByUUID => Entry(r.id, r.user.vlessUUID, "")
    case ByTrojan => Entry(r.id, r.user.trojanPassword, "")
    case BySS => Entry(r.id, r.user.ssPassword, "")
    case ByHy2 => Entry(r.id, r.user.hy2Password, "")
    case ByTT => Entry(r.id, r.user.ttUser, r.user.ttPassword)
  }

  /** Blank credentials are skipped; UUIDs are not looked at. */
  predicate HasCredential(slot: Slot, u: User) {
    match slot
    case ByUUID => true
    case ByTrojan => !Blank(u.trojanPassword)
    case BySS => !Blank(u.ssPassword)
    case ByHy2 => !Blank(u.hy2Password)
    case ByTT => !Blank(u.ttUser) && !Blank(u.ttPassword)
  }

  predicate Qualifies(slot: Slot, u: User, now: Time) {
    u.EntitledAt(now) && HasCredential(slot, u)
  }

  /** Entries of the qualifying users of one group, in row order. */
  function UserCandidates(users: seq<Row>, slot: Slot, now: Time): seq<Entry> {
    if users == [] then []
    else
      var r := users[|users| - 1];
      UserCandidates(users[..|users| - 1], slot, now) + if Qualifies(slot, r.user, now) then [EntryFor(slot, r)] else []
  }

  /** Entries of all qualifying users of the groups that permit the slot, in traversal order. */
  function Candidates(families: seq<Family>, rows: seq<GroupRows>, slot: Slot, now: Time): seq<Entry> {
    if rows == [] then []
    else
      var g := rows[|rows| - 1];
      Candidates(families, rows[..|rows| - 1], slot, now)
      + if Permits(families, g.protocols, slot) then UserCandidates(g.users, slot, now) else []
  }

  function Keys(es: seq<Entry>): set<string> {
    set e | e in es :: e.key
  }

  /** The entries whose key did not occur earlier. */
  function FirstPerKey(es: seq<Entry>): seq<Entry> {
    if es == [] then []
    else
      var e := es[|es| - 1];
      FirstPerKey(es[..|es| - 1]) + if e.key in Keys(es[..|es| - 1]) then [] else [e]
  }

  function ListFor(families: seq<Family>, rows: seq<GroupRows>, slot: Slot, now: Time): seq<Entry> {
    FirstPerKey(Candidates(families, rows, slot, now))
  }

  function ListsFor(families: seq<Family>, rows: seq<GroupRows>, now: Time): Lists {
    Lists(ListFor(families, rows, ByUUID, now), ListFor(families, rows, ByTrojan, now),
          ListFor(families, rows, BySS, now),
          ListFor(families, rows, ByHy2, now), ListFor(families, rows, ByTT, now))
  }

  lemma KeysOfConcat(xs: seq<Entry>, ys: seq<Entry>)
    ensures Keys(xs + ys) == Keys(xs) + Keys(ys)
  {
  }

  lemma AppendOne(es: seq<Entry>, e: Entry)
    ensures FirstPerKey(es + [e]) == FirstPerKey(es) + if e.key in Keys(es) then [] else [e]
    ensures Keys(es + [e]) == Keys(es) + {e.key}
  {
    assert (es + [e])[..|es|] == es;
    KeysOfConcat(es, [e]);
  }

  lemma NextCandidate(earlier: seq<Entry>, users: seq<Row>, slot: Slot, now: Time, i: nat)
    requires i < |users|
    ensures earlier + UserCandidates(users[..i + 1], slot, now)
            == earlier + UserCandidates(users[..i], slot, now)
               + if Qualifies(slot, users[i].user, now) then [EntryFor(slot, users[i])] else []
  {
    assert users[..i + 1][..i] == users[..i];
  }

  /** One inner loop of applyStoredNode: append a group's users to the list of a slot. */
  method AppendUsers(users: seq<Row>, slot: Slot, now: Time, list: seq<Entry>, seen: set<string>,
                     ghost earlier: seq<Entry>)
    returns (list': seq<Entry>, seen': set<string>)
    requires list == FirstPerKey(earlier) && seen == Keys(earlier)
    ensures list' == FirstPerKey(earlier + UserCandidates(users, slot, now))
    ensures seen' == Keys(earlier + UserCandidates(users, slot, now))
  {
    list', seen' := list, seen;
    ghost var soFar := earlier;
    for i := 0 to |users|
      invariant soFar == earlier + UserCandidates(users[..i], slot, now)
      invariant list' == FirstPerKey(soFar) && seen' == Keys(soFar)
    {
      NextCandidate(earlier, users, slot, now, i);
      var qualifies := Qualifies(slot, users[i].user, now);
      if qualifies {
        var e := EntryFor(slot, users[i]);
        AppendOne(soFar, e);
        if e.key !in seen' {
          seen' := seen' + {e.key};
          list' := list' + [e];
        }
        soFar := soFar + [e];
      }
    }
    assert users[..|users|] == users;
  }

  /** The outer loop over one slot's list and seen-map. */
  method AppendGroup(families: seq<Family>, g: GroupRows, slot: Slot, now: Time, list: seq<Entry>, seen: set<string>,
                     ghost before: seq<GroupRows>)
    returns (list': seq<Entry>, seen': set<string>)
    requires list == ListFor(families, before, slot, now) && seen == Keys(Candidates(families, before, slot, now))
    ensures list' == ListFor(families, before + [g], slot, now)
    ensures seen' == Keys(Candidates(families, before + [g], slot, now))
  {
    ghost var earlier := Candidates(families, before, slot, now);
    assert (before + [g])[..|before|] == before;
    if Permits(families, g.protocols, slot) {
      list', seen' := AppendUsers(g.users, slot, now, list, seen, earlier);
    } else {
      list', seen' := list, seen;
      assert earlier + [] == earlier;
    }
  }

  method BuildLists(families: seq<Family>, rows: seq<GroupRows>, now: Time) returns (lists: Lists)
    ensures lists == ListsFor(families, rows, now)
  {
    var clients, trojan, ss, hy2, tt := [], [], [], [], [];
    var seenVless, seenTrojan, seenSS, seenHy2, seenTT: set<string> := {}, {}, {}, {}, {};
    for i := 0 to |rows|
      invariant Lists(clients, trojan, ss, hy2, tt) == ListsFor(families, rows[..i], now)
      invariant seenVless == Keys(Candidates(families, rows[..i], ByUUID, now))
      invariant seenTrojan == Keys(Candidates(families, rows[..i], ByTrojan, now))
      invariant seenSS == Keys(Candidates(families, rows[..i], BySS, now))
      invariant seenHy2 == Keys(Candidates(families, rows[..i], ByHy2, now))
      invariant seenTT == Keys(Candidates(families, rows[..i], ByTT, now))
    {
      ghost var before := rows[..i];
      var g := rows[i];
      assert rows[..i + 1] == before + [g];
      clients, seenVless := AppendGroup(families, g, ByUUID, now, clients, seenVless, before);
      trojan, seenTrojan := AppendGroup(families, g, ByTrojan, now, trojan, seenTrojan, before);
      ss, seenSS := AppendGroup(families, g, BySS, now, ss, seenSS, before);
      hy2, seenHy2 := AppendGroup(families, g, ByHy2, now, hy2, seenHy2, before);
      tt, seenTT := AppendGroup(families, g, ByTT, now, tt, seenTT, before);
    }
    assert rows[..|rows|] == rows;
    lists := Lists(clients, trojan, ss, hy2, tt);
  }

  // What the lists contain, said without the loops.

  /** Row j of group i earns an entry in the slot. */
  ghost predicate Earns(families: seq<Family>, rows: seq<GroupRows>, slot: Slot, now: Time, i: int, j: int) {
    0 <= i < |rows| && 0 <= j < |rows[i].users|
    && Permits(families, rows[i].protocols, slot) && Qualifies(slot, rows[i].users[j].user, now)
  }

  lemma {:induction false} UserCandidatesAre(users: seq<Row>, slot: Slot, now: Time, e: Entry)
    ensures e in UserCandidates(users, slot, now)
            <==> exists j :: 0 <= j < |users| && Qualifies(slot, users[j].user, now) && e == EntryFor(slot, users[j])
  {
    if users != [] {
      var before, r := users[..|users| - 1], users[|users| - 1];
      UserCandidatesAre(before, slot, now, e);
      if e in UserCandidates(before, slot, now) {
        var j :| 0 <= j < |before| && Qualifies(slot, before[j].user, now) && e == EntryFor(slot, before[j]);
        assert users[j] == before[j];
      }
      if j :| 0 <= j < |users| && Qualifies(slot, users[j].user, now) && e == EntryFor(slot, users[j]) {
        if j < |before| {
          assert before[j] == users[j];
        }
      }
    }
  }

  lemma {:induction false} CandidateIsEarned(families: seq<Family>, rows: seq<GroupRows>, slot: Slot, now: Time,
                                             e: Entry)
    returns (i: nat, j: nat)
    requires e in Candidates(families, rows, slot, now)
    ensures Earns(families, rows, slot, now, i, j) && e == EntryFor(slot, rows[i].users[j])
  {
    var before, g := rows[..|rows| - 1], rows[|rows| - 1];
    if e in Candidates(families, before, slot, now) {
      i, j := CandidateIsEarned(families, before, slot, now, e);
      assert rows[i] == before[i];
    } else {
      UserCandidatesAre(g.users, slot, now, e);
      i := |rows| - 1;
      j :| 0 <= j < |g.users| && Qualifies(slot, g.users[j].user, now) && e == EntryFor(slot, g.users[j]);
    }
  }

  lemma {:induction false} EarnedIsCandidate(families: seq<Family>, rows: seq<GroupRows>, slot: Slot, now: Time,
                                             i: nat, j: nat)
    requires Earns(families, rows, slot, now, i, j)
    ensures EntryFor(slot, rows[i].users[j]) in Candidates(families, rows, slot, now)
    decreases |rows|
  {
    var before, g := rows[..|rows| - 1], rows[|rows| - 1];
    if i < |before| {
      assert rows[i] == before[i];
      EarnedIsCandidate(families, before, slot, now, i, j);
    } else {
      UserCandidatesAre(g.users, slot, now, EntryFor(slot, g.users[j]));
    }
  }

  ghost predicate NoDuplicateKeys(es: seq<Entry>) {
    forall i, j :: 0 <= i < j < |es| ==> es[i].key != es[j].key
  }

  ghost predicate FirstWithKey(es: seq<Entry>, e: Entry) {
    exists p :: 0 <= p < |es| && es[p] == e && forall q :: 0 <= q < p ==> es[q].key != e.key
  }

  lemma FirstWithKeyOfAppend(before: seq<Entry>, last: Entry, e: Entry)
    ensures FirstWithKey(before + [last], e) <==> FirstWithKey(before, e) || (e == last && last.key !in Keys(before))
  {
    var es := before + [last];
    if p :| 0 <= p < |before| && before[p] == e && forall q :: 0 <= q < p ==> before[q].key != e.key {
      assert es[p] == e && forall q :: 0 <= q < p ==> es[q] == before[q];
    }
    if p :| 0 <= p < |es| && es[p] == e && forall q :: 0 <= q < p ==> es[q].key != e.key {
      assert forall q :: 0 <= q < |before| ==> es[q] == before[q];
      if p < |before| {
        assert before[p] == e;
      }
    }
    if e == last && last.key !in Keys(before) {
      assert es[|before|] == e && forall q :: 0 <= q < |before| ==> es[q] in before;
    }
  }

  lemma NoDuplicateAppend(list: seq<Entry>, e: Entry)
    requires NoDuplicateKeys(list) && e.key !in Keys(list)
    ensures NoDuplicateKeys(list + [e])
  {
    forall i, j | 0 <= i < j < |list + [e]| ensures (list + [e])[i].key != (list + [e])[j].key {
      if j == |list| {
        assert list[i] in list;
      }
    }
  }

  lemma {:induction false} FirstPerKeyKeepsKeys(es: seq<Entry>)
    ensures NoDuplicateKeys(FirstPerKey(es)) && Keys(FirstPerKey(es)) == Keys(es)
  {
    if es != [] {
      var before, last := es[..|es| - 1], es[|es| - 1];
      FirstPerKeyKeepsKeys(before);
      assert es == before + [last];
      AppendOne(before, last);
      KeysOfConcat(FirstPerKey(before), [last]);
      if last.key !in Keys(before) {
        NoDuplicateAppend(FirstPerKey(before), last);
      }
    }
  }

  lemma {:induction false} FirstPerKeyKeepsFirsts(es: seq<Entry>, e: Entry)
    ensures e in FirstPerKey(es) <==> FirstWithKey(es, e)
  {
    if es != [] {
      var before, last := es[..|es| - 1], es[|es| - 1];
      FirstPerKeyKeepsFirsts(before, e);
      assert es == before + [last];
      FirstWithKeyOfAppend(before, last, e);
    }
  }

  /** The desired lists are exact: no key twice; the keys are those of the entitled users of
      attached groups permitting the family (with a credential, except for UUIDs); and the entry
      of a key is the first such user's in traversal order. */
  lemma DesiredListIsExact(families: seq<Family>, rows: seq<GroupRows>, slot: Slot, now: Time)
    ensures var list := ListFor(families, rows, slot, now);
            NoDuplicateKeys(list)
            && (forall k :: k in Keys(list)
                  <==> exists i, j ::
                         Earns(families, rows, slot, now, i, j) && EntryFor(slot, rows[i].users[j]).key == k)
            && (forall e :: e in list <==> FirstWithKey(Candidates(families, rows, slot, now), e))
  {
    var all := Candidates(families, rows, slot, now);
    FirstPerKeyKeepsKeys(all);
    forall e {
      FirstPerKeyKeepsFirsts(all, e);
    }
    forall k ensures k in Keys(all)
        <==> exists i, j :: Earns(families, rows, slot, now, i, j) && EntryFor(slot, rows[i].users[j]).key == k
    {
      if k in Keys(all) {
        var e :| e in all && e.key == k;
        var i, j := CandidateIsEarned(families, rows, slot, now, e);
      }
      if i, j :| Earns(families, rows, slot, now, i, j) && EntryFor(slot, rows[i].users[j]).key == k {
        EarnedIsCandidate(families, rows, slot, now, i, j);
      }
    }
  }

  /** Every entry of a list is an entitled user's, under the user's own id and credential. */
  lemma EntryIsItsUser(families: seq<Family>, rows: seq<GroupRows>, slot: Slot, now: Time, e: Entry)
    returns (i: nat, j: nat)
    requires e in ListFor(families, rows, slot, now)
    ensures Earns(families, rows, slot, now, i, j) && rows[i].users[j].user.EntitledAt(now)
    ensures e.id == rows[i].users[j].id
    ensures var u := rows[i].users[j].user;
            match slot
            case ByUUID => e.key == u.vlessUUID
            case ByTrojan => e.key == u.trojanPassword && !Blank(e.key)
            case BySS => e.key == u.ssPassword && !Blank(e.key)
            case ByHy2 => e.key == u.hy2Password && !Blank(e.key)
            case ByTT => e.key == u.ttUser && e.secret == u.ttPassword && !Blank(e.key) && !Blank(e.secret)
  {
    DesiredListIsExact(families, rows, slot, now);
    i, j := CandidateIsEarned(families, rows, slot, now, e);
  }

  lemma EarnerIsListed(families: seq<Family>, rows: seq<GroupRows>, slot: Slot, now: Time, i: nat, j: nat)
    requires i < |rows| && j < |rows[i].users|
    ensures Permits(families, rows[i].protocols, slot) && Qualifies(slot, rows[i].users[j].user, now) ==>
              EntryFor(slot, rows[i].users[j]).key in Keys(ListFor(families, rows, slot, now))
  {
    if Earns(families, rows, slot, now, i, j) {
      DesiredListIsExact(families, rows, slot, now);
    }
  }

  /** And every entitled user of a group that permits a chosen family has its credential listed there,
      blank ones aside; a UUID is listed as it is. */
  lemma EntitledUserIsListed(families: seq<Family>, rows: seq<GroupRows>, now: Time, i: nat, j: nat)
    requires i < |rows| && j < |rows[i].users| && rows[i].users[j].user.EntitledAt(now)
    ensures var u, g := rows[i].users[j].user, rows[i].protocols;
            ((exists f :: f in families && f in g && (f == VLESS || f == VMess)) ==>
               u.vlessUUID in Keys(ListFor(families, rows, ByUUID, now)))
            && (Trojan in families && Trojan in g && !Blank(u.trojanPassword) ==>
                  u.trojanPassword in Keys(ListFor(families, rows, ByTrojan, now)))
            && (SS in families && SS in g && !Blank(u.ssPassword) ==>
                  u.ssPassword in Keys(ListFor(families, rows, BySS, now)))
            && (Hy2 in families && Hy2 in g && !Blank(u.hy2Password) ==>
                  u.hy2Password in Keys(ListFor(families, rows, ByHy2, now)))
            && (TT in families && TT in g && !Blank(u.ttUser) && !Blank(u.ttPassword) ==>
                  u.ttUser in Keys(ListFor(families, rows, ByTT, now)))
  {
    EarnerIsListed(families, rows, ByUUID, now, i, j);
    EarnerIsListed(families, rows, ByTrojan, now, i, j);
    EarnerIsListed(families, rows, BySS, now, i, j);
    EarnerIsListed(families, rows, ByHy2, now, i, j);
    EarnerIsListed(families, rows, ByTT, now, i, j);
  }

  // The document.

  /** Global REALITY key material, from the settings table. */
  datatype RealityKeys = RealityKeys(privateKey: string, publicKey: string, shortId: string, dest: string, sni: string)

  datatype XrayDoc = XrayDoc(
    port: int, hostname: string, reality: RealityKeys, clients: seq<Entry>, trojan: seq<Entry>, ss: seq<Entry>,
    inbounds: seq<Listen>)
  datatype Hy2Doc = Hy2Doc(port: int, hostname: string, users: seq<Entry>)
  datatype TTDoc = TTDoc(port: int, hostname: string, advertiseHost: string, name: string, users: seq<Entry>)

  datatype Doc = Doc(xray: Option<XrayDoc>, hy2: Option<Hy2Doc>, tt: Option<TTDoc>)
  {
    /** The users of a slot the node will let in. */
    function At(slot: Slot): seq<Entry> {
      match slot
      case ByUUID => if xray.Some? then xray.value.clients else []
      case ByTrojan => if xray.Some? then xray.value.trojan else []
      case BySS => if xray.Some? then xray.value.ss else []
      case ByHy2 => if hy2.Some? then hy2.value.users else []
      case ByTT => if tt.Some? then tt.value.users else []
    }

    function Ids(slot: Slot): set<UserId> {
      set e | e in At(slot) :: e.id
    }
  }

  datatype ApplyError = NotEnrolled | NoGroup | HostnameRequired | NoFamilies

  predicate NeedsHost(n: Node) {
    Hy2 in n.families || TT in n.families || NeedsTLSCert(n.ports) || VMess in n.families || Trojan in n.families
  }

  /** What stops an apply before anything is sent. */
  function ApplyBlock(n: Node): Option<ApplyError> {
    if Blank(n.ipv4) || Blank(n.agentToken) then Some(NotEnrolled)
    else if n.groups == {} then Some(NoGroup)
    else if NeedsHost(n) && Blank(n.hostname) then Some(HostnameRequired)
    else if !ServesXray(n) && Hy2 !in n.families && TT !in n.families then Some(NoFamilies)
    else None
  }

  /** What an apply needs before the agent is asked. */
  lemma NothingBlocksIff(n: Node)
    ensures ApplyBlock(n).None?
            <==> !Blank(n.ipv4) && !Blank(n.agentToken) && n.groups != {}
                 && ((exists f :: f in n.families && (f == Hy2 || f == TT || f == VMess || f == Trojan)) ==>
                       !Blank(n.hostname))
                 && ((exists l :: l in ResolveXray(n.ports)
                                  && (l.security == TLS || l.protocol == ProtoTrojan || l.protocol == ProtoVMess)) ==>
                       !Blank(n.hostname))
                 && exists f :: f in n.families && (f == Hy2 || f == TT || (!f.Other? && ResolveXray(n.ports) != []))
  {
  }

  predicate ServesXray(n: Node) {
    WantsXray(n.families) && ResolveXray(n.ports) != []
  }

  function DocFor(n: Node, lists: Lists, keys: RealityKeys): Doc {
    var listens := ResolveXray(n.ports);
    Doc(
      if ServesXray(n) then
        Some(XrayDoc(listens[0].port, n.hostname, keys, lists.clients, lists.trojan, lists.ss, listens))
      else None,
      if Hy2 in n.families then
        Some(Hy2Doc(if n.ports.hy2UDP <= 0 then 443 else n.ports.hy2UDP, n.hostname, lists.hy2))
      else None,
      if TT in n.families then
        Some(TTDoc(if n.ports.tt <= 0 then 8443 else n.ports.tt, n.hostname,
                   if Blank(n.hostname) then n.ipv4 else TrimSpace(n.hostname), n.name, lists.tt))
      else None)
  }

  /** The document applyStoredNode sends, or why it sends none. */
  function Compile(n: Node, rows: seq<GroupRows>, keys: RealityKeys, now: Time): Result<Doc, ApplyError> {
    match ApplyBlock(n)
    case Some(e) => Err(e)
    case None => Ok(DocFor(n, ListsFor(n.families, rows, now), keys))
  }

  method CompileDoc(n: Node, rows: seq<GroupRows>, keys: RealityKeys, now: Time) returns (r: Result<Doc, ApplyError>)
    ensures r == Compile(n, rows, keys, now)
  {
    if Blank(n.ipv4) || Blank(n.agentToken) {
      return Err(NotEnrolled);
    }
    if n.groups == {} {
      return Err(NoGroup);
    }
    var wantHy2, wantTT := Hy2 in n.families, TT in n.families;
    if NeedsHost(n) && Blank(n.hostname) {
      return Err(HostnameRequired);
    }
    var lists := BuildLists(n.families, rows, now);
    var doc := Doc(None, None, None);
    var inbounds := ResolveXray(n.ports);
    if WantsXray(n.families) && |inbounds| > 0 {
      doc := doc.(xray := Some(XrayDoc(
        inbounds[0].port, n.hostname, keys, lists.clients, lists.trojan, lists.ss, inbounds)));
    }
    if wantHy2 {
      var port := if n.ports.hy2UDP <= 0 then 443 else n.ports.hy2UDP;
      doc := doc.(hy2 := Some(Hy2Doc(port, n.hostname, lists.hy2)));
    }
    if wantTT {
      var port := if n.ports.tt <= 0 then 8443 else n.ports.tt;
      var advertise := TrimSpace(n.hostname);
      if advertise == "" {
        advertise := n.ipv4;
      }
      doc := doc.(tt := Some(TTDoc(port, n.hostname, advertise, n.name, lists.tt)));
    }
    if doc.xray.None? && doc.hy2.None? && doc.tt.None? {
      return Err(NoFamilies);
    }
    r := Ok(doc);
  }

  /** The document field by field: whose host name, ports, keys and name it has. */
  lemma DocumentSays(n: Node, rows: seq<GroupRows>, keys: RealityKeys, now: Time)
    requires Compile(n, rows, keys, now).Ok?
    ensures var doc := Compile(n, rows, keys, now).value;
            (doc.xray.Some? ==>
               var v := doc.xray.value;
               v.hostname == n.hostname && v.reality == keys && v.inbounds == ResolveXray(n.ports) != []
               && v.port == v.inbounds[0].port && v.clients == ListFor(n.families, rows, ByUUID, now)
               && v.trojan == ListFor(n.families, rows, ByTrojan, now) && v.ss == ListFor(n.families, rows, BySS, now))
            && (doc.hy2.Some? ==>
                  doc.hy2.value.hostname == n.hostname && doc.hy2.value.users == ListFor(n.families, rows, ByHy2, now)
                  && doc.hy2.value.port == if n.ports.hy2UDP > 0 then n.ports.hy2UDP else 443)
            && (doc.tt.Some? ==>
                  doc.tt.value.hostname == n.hostname && doc.tt.value.name == n.name
                  && doc.tt.value.users == ListFor(n.families, rows, ByTT, now)
                  && doc.tt.value.port == if n.ports.tt > 0 then n.ports.tt else 8443)
  {
  }

  /** What the error of a refused apply says. */
  lemma RefusalExplains(n: Node, rows: seq<GroupRows>, keys: RealityKeys, now: Time)
    requires Compile(n, rows, keys, now).Err?
    ensures match Compile(n, rows, keys, now).error
            case NotEnrolled => Blank(n.ipv4) || Blank(n.agentToken)
            case NoGroup => !Blank(n.ipv4) && !Blank(n.agentToken) && n.groups == {}
            case HostnameRequired => n.groups != {} && NeedsHost(n) && Blank(n.hostname)
            case NoFamilies => n.groups != {} && !ServesXray(n) && forall f :: f in n.families ==> f != Hy2 && f != TT
  {
  }

  lemma LegalPorts(n: Node)
    requires Legal(Spec(n.families, n.ports))
    ensures Hy2 in n.families ==> n.ports.hy2UDP > 0
    ensures TT in n.families ==> n.ports.tt > 0
    ensures Hy2 in n.families && TT in n.families ==> n.ports.hy2UDP != n.ports.tt
  {
  }

  /** On a legal stack no port in a document is a fallback: Hysteria2 and TrustTunnel are served on
      the stack's own ports, under the node's host name, exactly when the stack has them. */
  lemma LegalPortsAreServed(n: Node, rows: seq<GroupRows>, keys: RealityKeys, now: Time)
    requires Legal(Spec(n.families, n.ports)) && Compile(n, rows, keys, now).Ok?
    ensures var doc := Compile(n, rows, keys, now).value;
            (doc.hy2.Some? <==> Hy2 in n.families) && (doc.tt.Some? <==> TT in n.families)
            && (doc.hy2.Some? ==>
                  doc.hy2.value.port == n.ports.hy2UDP > 0 && doc.hy2.value.hostname == n.hostname && !Blank(n.hostname)
                  && doc.hy2.value.users == ListFor(n.families, rows, ByHy2, now))
            && (doc.tt.Some? ==>
                  doc.tt.value.port == n.ports.tt > 0 && doc.tt.value.advertiseHost == TrimSpace(n.hostname) != ""
                  && doc.tt.value.users == ListFor(n.families, rows, ByTT, now))
            && (doc.hy2.Some? && doc.tt.Some? ==> doc.hy2.value.port != doc.tt.value.port)
  {
    LegalPorts(n);
    assert Hy2 in n.families || TT in n.families ==> !Blank(n.hostname);
  }
}
