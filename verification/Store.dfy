/** internal/store/store.go: rows as values, transactions as atomic updates. */
module Storage {
  import opened Entitlement
  import opened Period

  type UserId = nat
  type GroupId = nat
  type NodeId = nat

  /** A name the stack does not know. */
  type OtherName = s: string | s !in ["vless", "vmess", "trojan", "ss", "hy2", "tt"] witness ""

  /** Entries of families and protocols columns. */
  datatype Family = VLESS | VMess | Trojan | SS | Hy2 | TT | Other(name: OtherName)

  datatype User = User(
    group: GroupId, vlessUUID: string, hy2Password: string, ttUser: string, ttPassword: string,
    trojanPassword: string, ssPassword: string, upload: int, download: int, total: int,
    expire: Option<Time>, status: string, quotaReset: Kind, periodStart: Option<Time>)
  {
    predicate EntitledAt(now: Time) {
      Entitled(status, expire, upload, download, total, now)
    }
  }

  datatype Group = Group(protocols: seq<Family>)

  /** A listen as the ports column stores it, keywords unread. */
  datatype RawListen = RawListen(
    protocol: string, security: string, network: string, port: int, cipher: string,
    serviceName: string, flow: string, path: string, host: string, tag: string)

  datatype Ports = Ports(vlessTCP: int, xray: seq<RawListen>, vless: seq<RawListen>, hy2UDP: int, tt: int)

  /** A node row with its node_groups rows. */
  datatype Node = Node(
    name: string, ipv4: string, hostname: string, agentToken: string, families: seq<Family>, ports: Ports,
    groups: set<GroupId>)

  datatype Source = FromXray | FromHy2
  datatype CursorKey = CursorKey(node: NodeId, user: UserId, source: Source)
  datatype Cursor = Cursor(uplink: int, downlink: int)

  datatype Db = Db(
    users: map<UserId, User>, groups: map<GroupId, Group>, nodes: map<NodeId, Node>,
    cursors: map<CursorKey, Cursor>)
  {
    function NodesOf(g: GroupId): set<NodeId> {
      set n | n in nodes && g in nodes[n].groups
    }

    function CursorAt(k: CursorKey): Cursor {
      if k in cursors then cursors[k] else Cursor(0, 0)
    }
  }

  /** The credit rule of ApplyTraffic, and Delta of internal/xrayrun/stats.go. */
  function Delta(prev: int, cur: int): int {
    if cur - prev < 0 then cur else cur - prev
  }

  /** The user row a reading leaves behind. */
  function Credit(u: User, c: Cursor, uplink: int, downlink: int): User {
    u.(upload := u.upload + Delta(c.uplink, uplink), download := u.download + Delta(c.downlink, downlink))
  }

  /** The database a reading of a stored user leaves behind; an unknown user leaves no cursor. */
  function Credited(db: Db, k: CursorKey, uplink: int, downlink: int): Db {
    if k.user in db.users then
      db.(users := db.users[k.user := Credit(db.users[k.user], db.CursorAt(k), uplink, downlink)],
          cursors := db.cursors[k := Cursor(uplink, downlink)])
    else db
  }

  /** The period of u ended in a way that clears its counters. */
  predicate ZeroDue(u: User, now: Time) {
    PeriodDue(u.quotaReset, u.periodStart, now) && u.periodStart.Some? && u.periodStart.value != ZERO_TIME
  }

  /** One user row after the quota step of a sweep. */
  function QuotaSwept(u: User, now: Time): User {
    if !PeriodDue(u.quotaReset, u.periodStart, now) then u
    else
      var moved := u.(periodStart := Some(PeriodStart(now, u.quotaReset)));
      if ZeroDue(u, now) then moved.(upload := 0, download := 0) else moved
  }

  function AllQuotaSwept(db: Db, now: Time): Db {
    db.(users := map u | u in db.users :: QuotaSwept(db.users[u], now))
  }

  class Store {
    var users: map<UserId, User>
    var groups: map<GroupId, Group>
    var nodes: map<NodeId, Node>
    var cursors: map<CursorKey, Cursor>

    constructor (db: Db)
      ensures View() == db
    {
      users, groups, nodes, cursors := db.users, db.groups, db.nodes, db.cursors;
    }

    function View(): Db
      reads this
    {
      Db(users, groups, nodes, cursors)
    }

    method ApplyTraffic(k: CursorKey, uplink: int, downlink: int) returns (found: bool, addedUp: int, addedDown: int)
      modifies this`users, this`cursors
      ensures found == (k.user in old(users))
      ensures View() == Credited(old(View()), k, uplink, downlink)
      ensures found ==> users[k.user].upload == old(users)[k.user].upload + addedUp
                        && users[k.user].download == old(users)[k.user].download + addedDown
      ensures !found ==> addedUp == addedDown == 0 && View() == old(View())
      ensures found ==> addedUp == Delta(old(View()).CursorAt(k).uplink, uplink)
                        && addedDown == Delta(old(View()).CursorAt(k).downlink, downlink)
    {
      if k.user !in users {
        return false, 0, 0;
      }
      var prev := if k in cursors then cursors[k] else Cursor(0, 0);
      addedUp := uplink - prev.uplink;
      if addedUp < 0 {
        addedUp := uplink;
      }
      addedDown := downlink - prev.downlink;
      if addedDown < 0 {
        addedDown := downlink;
      }
      cursors := cursors[k := Cursor(uplink, downlink)];
      var u := users[k.user];
      if addedUp != 0 || addedDown != 0 {
        users := users[k.user := u.(upload := u.upload + addedUp, download := u.download + addedDown)];
      }
      found := true;
      assert users == old(users)[k.user := Credit(u, prev, uplink, downlink)];
    }

    method ResetQuotaPeriod(id: UserId, start: Time, zeroCounters: bool) returns (found: bool)
      modifies this`users
      ensures found == (id in old(users))
      ensures users == if found then
                old(users)[id := old(users)[id].(
                  periodStart := Some(start),
                  upload := if zeroCounters then 0 else old(users)[id].upload,
                  download := if zeroCounters then 0 else old(users)[id].download)]
              else old(users)
    {
      if id !in users {
        return false;
      }
      var u := users[id];
      if zeroCounters {
        users := users[id := u.(periodStart := Some(start), upload := 0, download := 0)];
      } else {
        users := users[id := u.(periodStart := Some(start))];
      }
      found := true;
    }
  }
}
