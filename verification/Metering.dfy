/** What the traffic cursors promise over whole runs: store.ApplyTraffic against the traffic that
    really flowed. */
module Metering {
  import opened Entitlement
  import opened Period
  import opened Storage

  /** What happens to one counter: bytes flow, the proxy restarts at zero, the plane reads it. */
  datatype Event = Flow(bytes: nat) | Restart | Poll

  /** Counter and cursor as the proxy and the plane hold them, with the true traffic beside. */
  datatype Meter = Meter(
    counter: nat, cursor: nat, credited: nat,
    truth: nat,        // bytes that really flowed
    polled: nat,       // truth at the last poll
    lostBefore: int,   // bytes since the last poll that a restart already wiped
    restarted: bool)   // a restart since the last poll

  function Start(counter: nat): Meter {
    Meter(counter, counter, 0, 0, 0, 0, false)
  }

  function Step(m: Meter, e: Event): Meter {
    match e
    case Flow(b) => m.(counter := m.counter + b, truth := m.truth + b)
    case Restart => m.(counter := 0, lostBefore := m.truth - m.polled, restarted := true)
    case Poll => m.(cursor := m.counter, credited := m.credited + Delta(m.cursor, m.counter),
                    polled := m.truth, lostBefore := 0, restarted := false)
  }

  function Run(m: Meter, events: seq<Event>): Meter {
    if events == [] then m else Step(Run(m, events[..|events| - 1]), events[|events| - 1])
  }

  /** Bytes the next poll would miss. */
  function Missed(m: Meter): int {
    if !m.restarted then 0
    else m.lostBefore + if m.counter >= m.cursor then m.cursor else 0
  }

  /** Bytes missed by the polls of a run, summed poll by poll. */
  function Lost(m: Meter, events: seq<Event>): int {
    if events == [] then 0
    else
      var before := events[..|events| - 1];
      Lost(m, before) + if events[|events| - 1].Poll? then Missed(Run(m, before)) else 0
  }

  ghost predicate Consistent(m: Meter) {
    m.polled <= m.truth && m.lostBefore >= 0
    && (m.restarted ==> m.lostBefore + m.counter == m.truth - m.polled)
    && (!m.restarted ==> m.counter - m.cursor == m.truth - m.polled)
  }

  lemma {:induction false} RunIsConsistent(c: nat, events: seq<Event>)
    ensures Consistent(Run(Start(c), events))
  {
    if events != [] {
      RunIsConsistent(c, events[..|events| - 1]);
    }
  }

  /** One interval between two polls: exact without a restart, and with one it loses the traffic
      before the last restart plus, when the reading has caught up with it, the old cursor. */
  lemma PollLoss(c: nat, events: seq<Event>)
    ensures var m := Run(Start(c), events);
            Delta(m.cursor, m.counter) + Missed(m) == m.truth - m.polled
  {
    RunIsConsistent(c, events);
  }

  /** Over any run the bytes credited and the bytes lost are the bytes that flowed up to the last
      poll, so the plane never charges for more than was used. */
  lemma {:induction false} CreditedPlusLostIsTruth(c: nat, events: seq<Event>)
    ensures var m := Run(Start(c), events);
            m.credited + Lost(Start(c), events) == m.polled && Lost(Start(c), events) >= 0
            && m.credited <= m.polled <= m.truth
  {
    RunIsConsistent(c, events);
    if events != [] {
      var before := events[..|events| - 1];
      CreditedPlusLostIsTruth(c, before);
      RunIsConsistent(c, before);
    }
  }

  /** No restart, no loss. */
  lemma {:induction false} ExactWithoutRestart(c: nat, events: seq<Event>)
    requires Restart !in events
    ensures Lost(Start(c), events) == 0 && !Run(Start(c), events).restarted
    ensures Run(Start(c), events).credited == Run(Start(c), events).polled
  {
    if events != [] {
      assert events == events[..|events| - 1] + [events[|events| - 1]];
      ExactWithoutRestart(c, events[..|events| - 1]);
    }
    CreditedPlusLostIsTruth(c, events);
  }

  /** A poll of the meter is the stored transaction: the row gains what the meter credits, the
      cursor takes the reading, and no other cursor moves. */
  lemma PollIsTransaction(db: Db, k: CursorKey, up: Meter, down: Meter)
    requires k.user in db.users && db.CursorAt(k) == Cursor(up.cursor, down.cursor)
    ensures var after := Credited(db, k, up.counter, down.counter);
            var up', down' := Step(up, Poll), Step(down, Poll);
            after.users[k.user].upload == db.users[k.user].upload + up'.credited - up.credited
            && after.users[k.user].download == db.users[k.user].download + down'.credited - down.credited
            && after.CursorAt(k) == Cursor(up'.cursor, down'.cursor)
            && forall j :: j != k ==> after.CursorAt(j) == db.CursorAt(j)
  {
  }

  // All the counters of a fleet at once.

  /** Traffic, proxy restarts and polls of any counter: one per node, user and source. */
  datatype Move =
    | Uplink(key: CursorKey, bytes: nat)
    | Downlink(key: CursorKey, bytes: nat)
    | Restarted(key: CursorKey)
    | Read(key: CursorKey)

  datatype Fleet = Fleet(db: Db, up: map<CursorKey, Meter>, down: map<CursorKey, Meter>)

  function Moved(f: Fleet, e: Move): Fleet {
    var k := e.key;
    if k !in f.up || k !in f.down then f
    else
      match e
      case Uplink(_, b) => f.(up := f.up[k := Step(f.up[k], Flow(b))])
      case Downlink(_, b) => f.(down := f.down[k := Step(f.down[k], Flow(b))])
      case Restarted(_) => f.(up := f.up[k := Step(f.up[k], Restart)], down := f.down[k := Step(f.down[k], Restart)])
      case Read(_) =>
        Fleet(Credited(f.db, k, f.up[k].counter, f.down[k].counter),
              f.up[k := Step(f.up[k], Poll)], f.down[k := Step(f.down[k], Poll)])
  }

  function MovedAll(f: Fleet, moves: seq<Move>): Fleet {
    if moves == [] then f else Moved(MovedAll(f, moves[..|moves| - 1]), moves[|moves| - 1])
  }

  /** Bytes credited to a user over the listed counters, and bytes that really flowed there. */
  function CreditedTo(meters: map<CursorKey, Meter>, keys: seq<CursorKey>, u: UserId): nat
    requires forall k :: k in keys ==> k in meters
  {
    if keys == [] then 0
    else CreditedTo(meters, keys[1..], u) + if keys[0].user == u then meters[keys[0]].credited else 0
  }

  function UsedBy(meters: map<CursorKey, Meter>, keys: seq<CursorKey>, u: UserId): nat
    requires forall k :: k in keys ==> k in meters
  {
    if keys == [] then 0
    else UsedBy(meters, keys[1..], u) + if keys[0].user == u then meters[keys[0]].truth else 0
  }

  ghost predicate Sound(m: Meter) {
    Consistent(m) && m.credited <= m.polled
  }

  lemma StepIsSound(m: Meter, e: Event)
    requires Sound(m)
    ensures Sound(Step(m, e))
  {
  }

  ghost predicate DistinctKeys(keys: seq<CursorKey>) {
    forall i, j :: 0 <= i < j < |keys| ==> keys[i] != keys[j]
  }

  /** keys are all the counters, every one of a stored user, and the cursors are the meters'. */
  ghost predicate Linked(f: Fleet, keys: seq<CursorKey>) {
    DistinctKeys(keys)
    && (forall k :: k in keys <==> k in f.up) && (forall k :: k in keys <==> k in f.down)
    && forall k :: k in keys ==>
         k.user in f.db.users && Sound(f.up[k]) && Sound(f.down[k])
         && f.db.CursorAt(k) == Cursor(f.up[k].cursor, f.down[k].cursor)
  }

  lemma {:induction false} OneMeterChanges(meters: map<CursorKey, Meter>, keys: seq<CursorKey>, k: CursorKey, m: Meter,
                                           u: UserId)
    requires DistinctKeys(keys) && forall j :: j in keys ==> j in meters
    ensures CreditedTo(meters[k := m], keys, u)
            == CreditedTo(meters, keys, u) + if k in keys && k.user == u then m.credited - meters[k].credited else 0
  {
    if keys != [] {
      OneMeterChanges(meters, keys[1..], k, m, u);
      assert k in keys <==> k == keys[0] || k in keys[1..];
      assert keys[0] !in keys[1..];
    }
  }

  lemma ReadKeepsLinked(f: Fleet, keys: seq<CursorKey>, k: CursorKey)
    requires Linked(f, keys) && k in keys
    ensures Linked(Moved(f, Read(k)), keys)
  {
    PollIsTransaction(f.db, k, f.up[k], f.down[k]);
    StepIsSound(f.up[k], Poll);
    StepIsSound(f.down[k], Poll);
  }

  lemma MoveKeepsLinked(f: Fleet, keys: seq<CursorKey>, e: Move)
    requires Linked(f, keys)
    ensures Linked(Moved(f, e), keys) && Moved(f, e).db.users.Keys == f.db.users.Keys
  {
    if e.key in keys {
      if e.Read? {
        ReadKeepsLinked(f, keys, e.key);
      } else {
        var x := if e.Restarted? then Restart else Flow(e.bytes);
        StepIsSound(f.up[e.key], x);
        StepIsSound(f.down[e.key], x);
      }
    }
  }

  lemma ReadCredits(f: Fleet, keys: seq<CursorKey>, k: CursorKey, u: UserId)
    requires Linked(f, keys) && k in keys && u in f.db.users
    ensures var g := Moved(f, Read(k));
            g.db.users[u].upload - f.db.users[u].upload
            == (if k.user == u then g.up[k].credited - f.up[k].credited else 0)
            && g.db.users[u].download - f.db.users[u].download
               == if k.user == u then g.down[k].credited - f.down[k].credited else 0
  {
    PollIsTransaction(f.db, k, f.up[k], f.down[k]);
  }

  lemma MoveCredits(f: Fleet, keys: seq<CursorKey>, e: Move, u: UserId)
    requires Linked(f, keys) && Linked(Moved(f, e), keys) && u in f.db.users && u in Moved(f, e).db.users
    ensures var g := Moved(f, e);
            g.db.users[u].upload - f.db.users[u].upload == CreditedTo(g.up, keys, u) - CreditedTo(f.up, keys, u)
            && g.db.users[u].download - f.db.users[u].download
               == CreditedTo(g.down, keys, u) - CreditedTo(f.down, keys, u)
  {
    var g, k := Moved(f, e), e.key;
    if k in keys {
      OneMeterChanges(f.up, keys, k, g.up[k], u);
      OneMeterChanges(f.down, keys, k, g.down[k], u);
      assert g.up == f.up[k := g.up[k]] && g.down == f.down[k := g.down[k]];
      if e.Read? {
        ReadCredits(f, keys, k, u);
      }
    }
  }

  lemma {:induction false} CreditedIsUsed(meters: map<CursorKey, Meter>, keys: seq<CursorKey>, u: UserId)
    requires forall k :: k in keys ==> k in meters && Sound(meters[k])
    ensures CreditedTo(meters, keys, u) <= UsedBy(meters, keys, u)
  {
    if keys != [] {
      CreditedIsUsed(meters, keys[1..], u);
    }
  }

  /** Over any interleaving of traffic, restarts and polls on any number of nodes and sources, what a
      user's row gains is the sum of what its counters were credited, and never more than the
      traffic that really flowed. */
  lemma {:induction false} ChargesNeverExceedUse(f: Fleet, keys: seq<CursorKey>, moves: seq<Move>, u: UserId)
    requires Linked(f, keys) && u in f.db.users
    requires forall k :: k in keys ==> f.up[k].credited == 0 && f.down[k].credited == 0
    ensures var g := MovedAll(f, moves);
            Linked(g, keys) && u in g.db.users
            && g.db.users[u].upload - f.db.users[u].upload == CreditedTo(g.up, keys, u) <= UsedBy(g.up, keys, u)
            && g.db.users[u].download - f.db.users[u].download == CreditedTo(g.down, keys, u) <= UsedBy(g.down, keys, u)
  {
    if moves == [] {
      NothingCredited(f.up, keys, u);
      NothingCredited(f.down, keys, u);
    } else {
      var before := moves[..|moves| - 1];
      ChargesNeverExceedUse(f, keys, before, u);
      MoveKeepsLinked(MovedAll(f, before), keys, moves[|moves| - 1]);
      MoveCredits(MovedAll(f, before), keys, moves[|moves| - 1], u);
    }
    CreditedIsUsed(MovedAll(f, moves).up, keys, u);
    CreditedIsUsed(MovedAll(f, moves).down, keys, u);
  }

  lemma {:induction false} NothingCredited(meters: map<CursorKey, Meter>, keys: seq<CursorKey>, u: UserId)
    requires forall k :: k in keys ==> k in meters && meters[k].credited == 0
    ensures CreditedTo(meters, keys, u) == 0
  {
    if keys != [] {
      NothingCredited(meters, keys[1..], u);
    }
  }

  /** A user's quota over polls of any node and source, interleaved with sweeps. */
  datatype QuotaEvent = Reading(key: CursorKey, uplink: int, downlink: int) | Sweep(now: Time)

  datatype Account = Account(user: User, cursors: map<CursorKey, Cursor>)

  function Cur(cursors: map<CursorKey, Cursor>, k: CursorKey): Cursor {
    if k in cursors then cursors[k] else Cursor(0, 0)
  }

  function QuotaStep(a: Account, e: QuotaEvent): Account {
    match e
    case Reading(k, up, down) =>
      Account(Credit(a.user, Cur(a.cursors, k), up, down), a.cursors[k := Cursor(up, down)])
    case Sweep(now) => a.(user := QuotaSwept(a.user, now))
  }

  function QuotaRun(a: Account, events: seq<QuotaEvent>): Account {
    if events == [] then a else QuotaStep(QuotaRun(a, events[..|events| - 1]), events[|events| - 1])
  }

  /** The account run is what the stored rows do: a reading of this user is Credited, a sweep is
      AllQuotaSwept. */
  lemma AccountIsStoredRow(db: Db, id: UserId, e: QuotaEvent)
    requires id in db.users && (e.Reading? ==> e.key.user == id)
    ensures var after := if e.Reading? then Credited(db, e.key, e.uplink, e.downlink) else AllQuotaSwept(db, e.now);
            id in after.users
            && QuotaStep(Account(db.users[id], db.cursors), e) == Account(after.users[id], after.cursors)
  {
  }

  /** Bytes the readings alone are worth, starting from given cursors: sweeps play no part. */
  function UpCredits(cursors: map<CursorKey, Cursor>, events: seq<QuotaEvent>): int
    decreases |events|
  {
    if events == [] then 0
    else if events[0].Sweep? then UpCredits(cursors, events[1..])
    else
      var k := events[0].key;
      Delta(Cur(cursors, k).uplink, events[0].uplink)
      + UpCredits(cursors[k := Cursor(events[0].uplink, events[0].downlink)], events[1..])
  }

  function DownCredits(cursors: map<CursorKey, Cursor>, events: seq<QuotaEvent>): int
    decreases |events|
  {
    if events == [] then 0
    else if events[0].Sweep? then DownCredits(cursors, events[1..])
    else
      var k := events[0].key;
      Delta(Cur(cursors, k).downlink, events[0].downlink)
      + DownCredits(cursors[k := Cursor(events[0].uplink, events[0].downlink)], events[1..])
  }

  lemma {:induction false} RunSplits(a: Account, xs: seq<QuotaEvent>, ys: seq<QuotaEvent>)
    ensures QuotaRun(a, xs + ys) == QuotaRun(QuotaRun(a, xs), ys)
    decreases |ys|
  {
    if ys == [] {
      assert xs + ys == xs;
    } else {
      var init := ys[..|ys| - 1];
      assert (xs + ys)[..|xs + ys| - 1] == xs + init;
      RunSplits(a, xs, init);
    }
  }

  lemma RunSplitsAt(a: Account, events: seq<QuotaEvent>, n: nat)
    requires n <= |events|
    ensures QuotaRun(a, events) == QuotaRun(QuotaRun(a, events[..n]), events[n..])
  {
    RunSplits(a, events[..n], events[n..]);
    assert events == events[..n] + events[n..];
  }

  /** A zeroing happens at event i of the run. */
  predicate ZeroedAt(a: Account, events: seq<QuotaEvent>, i: nat)
    requires i < |events|
  {
    events[i].Sweep? && ZeroDue(QuotaRun(a, events[..i]).user, events[i].now)
  }

  predicate NoZeroing(a: Account, events: seq<QuotaEvent>, from: nat) {
    forall i :: from <= i < |events| ==> !ZeroedAt(a, events, i)
  }

  /** Between zeroings the counters grow by exactly what the readings are worth, and the cursors
      those readings are measured against do not depend on the sweeps in between. */
  lemma {:induction false} CreditsAccumulate(a: Account, events: seq<QuotaEvent>)
    requires NoZeroing(a, events, 0)
    ensures var u := QuotaRun(a, events).user;
            u.upload == a.user.upload + UpCredits(a.cursors, events)
            && u.download == a.user.download + DownCredits(a.cursors, events)
    decreases |events|
  {
    if events != [] {
      var next := QuotaStep(a, events[0]);
      var rest := events[1..];
      assert events[..1] == [events[0]] && QuotaRun(a, []) == a;
      assert QuotaRun(a, events[..1]) == next;
      assert events == events[..1] + rest;
      RunSplits(a, events[..1], rest);
      assert !ZeroedAt(a, events, 0) by {
        assert events[..0] == [];
      }
      forall i | 0 <= i < |rest| ensures !ZeroedAt(next, rest, i) {
        assert events[..i + 1] == events[..1] + rest[..i];
        RunSplits(a, events[..1], rest[..i]);
        assert !ZeroedAt(a, events, i + 1);
      }
      CreditsAccumulate(next, rest);
    }
  }

  lemma ZeroedIsZero(a: Account, events: seq<QuotaEvent>, k: nat)
    requires k < |events| && ZeroedAt(a, events, k)
    ensures var mid := QuotaRun(a, events[..k + 1]);
            mid.user.upload == 0 && mid.user.download == 0 && mid.cursors == QuotaRun(a, events[..k]).cursors
  {
    assert events[..k + 1][..k] == events[..k];
  }

  lemma NoZeroingLater(a: Account, events: seq<QuotaEvent>, k: nat)
    requires k < |events| && NoZeroing(a, events, k + 1)
    ensures NoZeroing(QuotaRun(a, events[..k + 1]), events[k + 1..], 0)
  {
    var upTo, rest := events[..k + 1], events[k + 1..];
    forall i | 0 <= i < |rest| ensures !ZeroedAt(QuotaRun(a, upTo), rest, i) {
      assert events[..k + 1 + i] == upTo + rest[..i];
      RunSplits(a, upTo, rest[..i]);
      assert !ZeroedAt(a, events, k + 1 + i);
    }
  }

  /** Quota conservation. After the last zeroing, at event k, upload and download are the credits
      of the later readings alone, measured from the cursors that the readings before k left. */
  lemma CountersAreCreditsSinceZeroing(a: Account, events: seq<QuotaEvent>, k: nat)
    requires k < |events| && ZeroedAt(a, events, k)
    requires NoZeroing(a, events, k + 1)
    ensures var u := QuotaRun(a, events).user;
            var from := QuotaRun(a, events[..k]).cursors;
            u.upload == UpCredits(from, events[k + 1..]) && u.download == DownCredits(from, events[k + 1..])
  {
    ZeroedIsZero(a, events, k);
    NoZeroingLater(a, events, k);
    CreditsAccumulate(QuotaRun(a, events[..k + 1]), events[k + 1..]);
    RunSplitsAt(a, events, k + 1);
  }

  function Readings(events: seq<QuotaEvent>): seq<QuotaEvent> {
    if events == [] then []
    else (if events[0].Reading? then [events[0]] else []) + Readings(events[1..])
  }

  /** Dropping every sweep from a run changes no cursor and no credit: nothing is credited again
      after a reset. */
  lemma {:induction false} SweepsLeaveCreditsAlone(a: Account, b: Account, events: seq<QuotaEvent>)
    requires a.cursors == b.cursors
    ensures QuotaRun(a, events).cursors == QuotaRun(b, Readings(events)).cursors
    ensures UpCredits(a.cursors, events) == UpCredits(a.cursors, Readings(events))
    ensures DownCredits(a.cursors, events) == DownCredits(a.cursors, Readings(events))
    decreases |events|
  {
    if events != [] {
      var e, rest := events[0], events[1..];
      assert events == [e] + rest;
      assert QuotaRun(a, [e]) == QuotaStep(a, e) && QuotaRun(b, [e]) == QuotaStep(b, e) by {
        assert [e][..0] == [] && QuotaRun(a, []) == a && QuotaRun(b, []) == b;
      }
      RunSplits(a, [e], rest);
      if e.Reading? {
        RunSplits(b, [e], Readings(rest));
        assert Readings(events)[1..] == Readings(rest);
        SweepsLeaveCreditsAlone(QuotaStep(a, e), QuotaStep(b, e), rest);
      } else {
        assert Readings(events) == Readings(rest);
        SweepsLeaveCreditsAlone(QuotaStep(a, e), b, rest);
      }
    }
  }

  predicate ClockNeverGoesBack(events: seq<QuotaEvent>) {
    forall i, j :: 0 <= i < j < |events| && events[i].Sweep? && events[j].Sweep? ==> events[i].now <= events[j].now
  }

  function Zeroings(a: Account, events: seq<QuotaEvent>): nat {
    if events == [] then 0
    else
      var before := events[..|events| - 1];
      Zeroings(a, before) + if ZeroedAt(a, events, |events| - 1) then 1 else 0
  }

  /** The period starts the sweeps of a run saw, one per sweep. */
  function StartsSeen(kind: Kind, events: seq<QuotaEvent>): seq<Time> {
    if events == [] then []
    else
      var e := events[|events| - 1];
      StartsSeen(kind, events[..|events| - 1]) + if e.Sweep? then [PeriodStart(e.now, kind)] else []
  }

  /** Those later than the stored start, each once. */
  function NewStarts(seen: seq<Time>, stored: Time): set<Time> {
    set s | s in seen && s > stored
  }

  ghost predicate NoneAfter(seen: seq<Time>, bound: Time) {
    forall s :: s in seen ==> s <= bound
  }

  lemma {:induction false} SeenStartsAreEarlier(kind: Kind, events: seq<QuotaEvent>, now: Time)
    requires kind != Lifetime
    requires forall i :: 0 <= i < |events| && events[i].Sweep? ==> events[i].now <= now
    ensures NoneAfter(StartsSeen(kind, events), PeriodStart(now, kind))
  {
    if events != [] {
      var before, e := events[..|events| - 1], events[|events| - 1];
      SeenStartsAreEarlier(kind, before, now);
      if e.Sweep? {
        PeriodStartIsIdempotentAndMonotone(e.now, now, kind);
        AddEarlier(StartsSeen(kind, before), PeriodStart(e.now, kind), PeriodStart(now, kind));
      }
    }
  }

  lemma AddEarlier(seen: seq<Time>, start: Time, bound: Time)
    requires NoneAfter(seen, bound) && start <= bound
    ensures NoneAfter(seen + [start], bound)
  {
  }

  /** The stored start of u is the latest seen, or still the original one. */
  ghost predicate StartIsLatest(kind: Kind, stored: Time, seen: seq<Time>, u: User) {
    u.quotaReset == kind && u.periodStart.Some? && u.periodStart.value >= stored
    && NoneAfter(seen, u.periodStart.value)
    && (u.periodStart.value > stored ==> u.periodStart.value in seen)
  }

  lemma SweepMovesStart(u: User, now: Time, start: Time)
    requires u.quotaReset != Lifetime && u.periodStart.Some? && u.periodStart.value > ZERO_TIME
    requires start == PeriodStart(now, u.quotaReset)
    ensures ZeroDue(u, now) <==> start > u.periodStart.value
    ensures QuotaSwept(u, now).quotaReset == u.quotaReset
    ensures QuotaSwept(u, now).periodStart == if start > u.periodStart.value then Some(start) else u.periodStart
  {
  }

  lemma AddStart(seen: seq<Time>, stored: Time, start: Time)
    ensures |NewStarts(seen + [start], stored)|
            == |NewStarts(seen, stored)| + if start > stored && start !in seen then 1 else 0
  {
    var was := NewStarts(seen, stored);
    assert NewStarts(seen + [start], stored) == was + if start > stored && start !in seen then {start} else {};
  }

  /** One sweep, from u to r: a zeroing exactly when it sees a start nobody saw before. */
  lemma SweepCounts(u: User, r: User, due: bool, stored: Time, seen: seq<Time>, start: Time)
    requires StartIsLatest(u.quotaReset, stored, seen, u) && NoneAfter(seen, start) && r.quotaReset == u.quotaReset
    requires due <==> start > u.periodStart.value
    requires r.periodStart == if due then Some(start) else u.periodStart
    ensures StartIsLatest(u.quotaReset, stored, seen + [start], r)
    ensures |NewStarts(seen + [start], stored)| == |NewStarts(seen, stored)| + if due then 1 else 0
  {
    AddStart(seen, stored, start);
    assert due <==> start > stored && start !in seen;
  }

  /** The zeroings so far are the distinct starts seen beyond the stored one. */
  ghost predicate Counted(a: Account, kind: Kind, stored: Time, events: seq<QuotaEvent>) {
    Zeroings(a, events) == |NewStarts(StartsSeen(kind, events), stored)|
    && StartIsLatest(kind, stored, StartsSeen(kind, events), QuotaRun(a, events).user)
  }

  lemma CountStep(a: Account, kind: Kind, stored: Time, events: seq<QuotaEvent>)
    requires events != [] && kind != Lifetime && stored > ZERO_TIME && ClockNeverGoesBack(events)
    requires Counted(a, kind, stored, events[..|events| - 1])
    ensures Counted(a, kind, stored, events)
  {
    var before, e := events[..|events| - 1], events[|events| - 1];
    if e.Sweep? {
      SeenStartsAreEarlier(kind, before, e.now);
      var u, start := QuotaRun(a, before).user, PeriodStart(e.now, kind);
      SweepMovesStart(u, e.now, start);
      SweepCounts(u, QuotaSwept(u, e.now), ZeroDue(u, e.now), stored, StartsSeen(kind, before), start);
    } else {
      assert StartsSeen(kind, before) + [] == StartsSeen(kind, before);
    }
  }

  /** The counters are zeroed once for every distinct later period the sweeps saw, no more. */
  lemma {:induction false} OneZeroingPerPeriod(a: Account, events: seq<QuotaEvent>)
    requires a.user.quotaReset != Lifetime && a.user.periodStart.Some? && a.user.periodStart.value > ZERO_TIME
    requires ClockNeverGoesBack(events)
    ensures Counted(a, a.user.quotaReset, a.user.periodStart.value, events)
  {
    if events == [] {
      assert NewStarts([], a.user.periodStart.value) == {};
    } else {
      OneZeroingPerPeriod(a, events[..|events| - 1]);
      CountStep(a, a.user.quotaReset, a.user.periodStart.value, events);
    }
  }

  lemma {:induction false} ReadingsKeepStart(a: Account, events: seq<QuotaEvent>)
    requires forall i :: 0 <= i < |events| ==> events[i].Reading?
    ensures QuotaRun(a, events).user.periodStart == a.user.periodStart
            && QuotaRun(a, events).user.quotaReset == a.user.quotaReset
    ensures Zeroings(a, events) == 0 && StartsSeen(a.user.quotaReset, events) == []
  {
    if events != [] {
      ReadingsKeepStart(a, events[..|events| - 1]);
    }
  }

  lemma AdoptionCounts(a: Account, events: seq<QuotaEvent>, k: nat)
    requires a.user.quotaReset != Lifetime && (a.user.periodStart.None? || a.user.periodStart.value == ZERO_TIME)
    requires k == |events| - 1 && events[k].Sweep? && forall i :: 0 <= i < k ==> events[i].Reading?
    ensures Counted(a, a.user.quotaReset, PeriodStart(events[k].now, a.user.quotaReset), events)
  {
    var before := events[..k];
    ReadingsKeepStart(a, before);
    AdoptionKeepsCounters(QuotaRun(a, before).user, events[k].now);
    var start := PeriodStart(events[k].now, a.user.quotaReset);
    assert StartsSeen(a.user.quotaReset, events) == [start];
    assert NewStarts([start], start) == {};
  }

  /** The same for a user whose period start is still unset: the first sweep, at event k, adopts a
      start without zeroing, and the zeroings are the distinct starts seen beyond that one. */
  lemma {:induction false} OneZeroingPerPeriodFromAdoption(a: Account, events: seq<QuotaEvent>, k: nat)
    requires a.user.quotaReset != Lifetime && (a.user.periodStart.None? || a.user.periodStart.value == ZERO_TIME)
    requires k < |events| && events[k].Sweep? && (forall i :: 0 <= i < k ==> events[i].Reading?)
    requires PeriodStart(events[k].now, a.user.quotaReset) > ZERO_TIME && ClockNeverGoesBack(events)
    ensures Counted(a, a.user.quotaReset, PeriodStart(events[k].now, a.user.quotaReset), events)
    decreases |events|
  {
    if k == |events| - 1 {
      AdoptionCounts(a, events, k);
    } else {
      OneZeroingPerPeriodFromAdoption(a, events[..|events| - 1], k);
      CountStep(a, a.user.quotaReset, PeriodStart(events[k].now, a.user.quotaReset), events);
    }
  }

  /** The first sweep after a quota period is switched on adopts the current period and keeps
      the counters. */
  lemma AdoptionKeepsCounters(u: User, now: Time)
    requires u.quotaReset != Lifetime && (u.periodStart.None? || u.periodStart.value == ZERO_TIME)
    ensures QuotaSwept(u, now) == u.(periodStart := Some(PeriodStart(now, u.quotaReset)))
  {
  }
}
