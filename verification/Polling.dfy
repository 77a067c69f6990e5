/** internal/api/traffic.go CollectTraffic: which readings a poll credits, and that polling unchanged
    counters again credits nothing. */
module Polling {
  import opened Entitlement
  import opened Storage
  import opened Plane

  /** One row of an agent's stats; id is None when the email is no user id. */
  datatype StatRow = StatRow(id: Option<UserId>, uplink: int, downlink: int)

  /** The stats of one node that answered. */
  datatype Answer = Answer(node: NodeId, xray: seq<StatRow>, hy2: seq<StatRow>)

  function RowReadings(node: NodeId, source: Source, rows: seq<StatRow>): seq<Reading> {
    if rows == [] then []
    else
      var r := rows[|rows| - 1];
      RowReadings(node, source, rows[..|rows| - 1])
      + if r.id.Some? then [Reading(CursorKey(node, r.id.value, source), r.uplink, r.downlink)] else []
  }

  /** The readings of a poll in the order they are credited. */
  function AnswerReadings(answers: seq<Answer>): seq<Reading> {
    if answers == [] then []
    else
      var a := answers[|answers| - 1];
      AnswerReadings(answers[..|answers| - 1])
      + RowReadings(a.node, FromXray, a.xray) + RowReadings(a.node, FromHy2, a.hy2)
  }

  // The readings, said without the loops.

  /** Where a row stands in the answers: in the Xray or in the Hysteria2 list of one of them. */
  datatype Place = Place(answer: nat, hy2: bool, row: nat)

  function ListAt(answers: seq<Answer>, answer: nat, hy2: bool): seq<StatRow>
    requires answer < |answers|
  {
    if hy2 then answers[answer].hy2 else answers[answer].xray
  }

  /** A row whose email is a user id. */
  predicate IsRow(answers: seq<Answer>, x: Place) {
    x.answer < |answers| && x.row < |ListAt(answers, x.answer, x.hy2)|
    && ListAt(answers, x.answer, x.hy2)[x.row].id.Some?
  }

  /** Answer by answer, Xray rows before Hysteria2 rows. */
  predicate Before(x: Place, y: Place) {
    x.answer < y.answer || (x.answer == y.answer && ((!x.hy2 && y.hy2) || (x.hy2 == y.hy2 && x.row < y.row)))
  }

  /** The reading is the row's: its node, user and list, and its two counters. */
  predicate Reads(answers: seq<Answer>, x: Place, r: Reading)
    requires IsRow(answers, x)
  {
    var row := ListAt(answers, x.answer, x.hy2)[x.row];
    r.key.node == answers[x.answer].node && r.key.user == row.id.value
    && (r.key.source == FromHy2 <==> x.hy2) && r.uplink == row.uplink && r.downlink == row.downlink
  }

  /** The readings are those of the rows at these places. */
  ghost predicate ReadAt(answers: seq<Answer>, places: seq<Place>, readings: seq<Reading>) {
    |places| == |readings|
    && forall k :: 0 <= k < |places| ==> IsRow(answers, places[k]) && Reads(answers, places[k], readings[k])
  }

  ghost predicate InOrder(places: seq<Place>) {
    forall j, k :: 0 <= j < k < |places| ==> Before(places[j], places[k])
  }

  /** The readings of all identified rows before limit, in order. */
  ghost predicate ReadUpTo(answers: seq<Answer>, limit: Place, places: seq<Place>, readings: seq<Reading>) {
    ReadAt(answers, places, readings) && InOrder(places) && (forall x :: x in places ==> Before(x, limit))
    && forall x :: IsRow(answers, x) && Before(x, limit) ==> x in places
  }

  /** One reading for each identified row of the answers, in order, and no other. */
  ghost predicate IsPollOf(answers: seq<Answer>, readings: seq<Reading>) {
    exists places :: ReadUpTo(answers, Place(|answers|, false, 0), places, readings)
  }

  /** The identified rows of a list, by index. */
  lemma {:induction false} RowsRead(node: NodeId, source: Source, rows: seq<StatRow>) returns (ks: seq<nat>)
    ensures |ks| == |RowReadings(node, source, rows)|
    ensures forall t :: 0 <= t < |ks| ==>
              ks[t] < |rows| && rows[ks[t]].id.Some?
              && RowReadings(node, source, rows)[t]
                 == Reading(CursorKey(node, rows[ks[t]].id.value, source), rows[ks[t]].uplink, rows[ks[t]].downlink)
    ensures forall s, t :: 0 <= s < t < |ks| ==> ks[s] < ks[t]
    ensures forall i :: 0 <= i < |rows| && rows[i].id.Some? ==> i in ks
  {
    if rows == [] {
      ks := [];
    } else {
      var last := |rows| - 1;
      ks := RowsRead(node, source, rows[..last]);
      if rows[last].id.Some? {
        ks := ks + [last];
      }
    }
  }

  function PlacesOf(answer: nat, hy2: bool, ks: seq<nat>): seq<Place> {
    seq(|ks|, t requires 0 <= t < |ks| => Place(answer, hy2, ks[t]))
  }

  /** The readings of all identified rows from one place up to another. */
  ghost predicate ReadFrom(answers: seq<Answer>, from: Place, limit: Place, places: seq<Place>,
                           readings: seq<Reading>) {
    ReadAt(answers, places, readings) && InOrder(places)
    && (forall x :: x in places ==> !Before(x, from) && Before(x, limit))
    && forall x :: IsRow(answers, x) && !Before(x, from) && Before(x, limit) ==> x in places
  }

  function After(m: nat, hy2: bool): Place {
    if hy2 then Place(m + 1, false, 0) else Place(m, true, 0)
  }

  lemma ReadBoth(answers: seq<Answer>, places: seq<Place>, readings: seq<Reading>, more: seq<Place>,
                 further: seq<Reading>)
    requires ReadAt(answers, places, readings) && ReadAt(answers, more, further)
    ensures ReadAt(answers, places + more, readings + further)
  {
  }

  lemma OrderedOn(places: seq<Place>, more: seq<Place>, from: Place)
    requires InOrder(places) && InOrder(more)
    requires (forall x :: x in places ==> Before(x, from)) && forall x :: x in more ==> !Before(x, from)
    ensures InOrder(places + more)
  {
    var all := places + more;
    forall j, k | 0 <= j < k < |all| ensures Before(all[j], all[k]) {
      if j < |places| <= k {
        assert all[j] in places && all[k] in more;
      }
    }
  }

  lemma ReadOn(answers: seq<Answer>, from: Place, limit: Place, places: seq<Place>, readings: seq<Reading>,
               more: seq<Place>, further: seq<Reading>)
    requires ReadUpTo(answers, from, places, readings) && ReadFrom(answers, from, limit, more, further)
    requires Before(from, limit)
    ensures ReadUpTo(answers, limit, places + more, readings + further)
  {
    ReadBoth(answers, places, readings, more, further);
    OrderedOn(places, more, from);
  }

  lemma PlacesAre(m: nat, hy2: bool, ks: seq<nat>)
    requires forall s, t :: 0 <= s < t < |ks| ==> ks[s] < ks[t]
    ensures InOrder(PlacesOf(m, hy2, ks))
    ensures forall x: Place :: x in PlacesOf(m, hy2, ks) <==> x.answer == m && x.hy2 == hy2 && x.row in ks
  {
    forall x: Place | x.answer == m && x.hy2 == hy2 && x.row in ks ensures x in PlacesOf(m, hy2, ks) {
      var t :| 0 <= t < |ks| && ks[t] == x.row;
      assert PlacesOf(m, hy2, ks)[t] == x;
    }
  }

  lemma ListIsRead(answers: seq<Answer>, m: nat, hy2: bool) returns (places: seq<Place>)
    requires m < |answers|
    ensures ReadFrom(answers, Place(m, hy2, 0), After(m, hy2), places,
                     RowReadings(answers[m].node, if hy2 then FromHy2 else FromXray, ListAt(answers, m, hy2)))
  {
    var ks := RowsRead(answers[m].node, if hy2 then FromHy2 else FromXray, ListAt(answers, m, hy2));
    places := PlacesOf(m, hy2, ks);
    PlacesAre(m, hy2, ks);
    forall x | IsRow(answers, x) && !Before(x, Place(m, hy2, 0)) && Before(x, After(m, hy2)) ensures x in places {
      assert x.row in ks;
    }
  }

  lemma {:induction false} ReadingsUpTo(answers: seq<Answer>, m: nat) returns (places: seq<Place>)
    requires m <= |answers|
    ensures ReadUpTo(answers, Place(m, false, 0), places, AnswerReadings(answers[..m]))
  {
    if m == 0 {
      places := [];
    } else {
      places := ReadingsUpTo(answers, m - 1);
      var before, a := AnswerReadings(answers[..m - 1]), answers[m - 1];
      var xs := ListIsRead(answers, m - 1, false);
      var hs := ListIsRead(answers, m - 1, true);
      var xray := RowReadings(a.node, FromXray, a.xray);
      ReadOn(answers, Place(m - 1, false, 0), Place(m - 1, true, 0), places, before, xs, xray);
      ReadOn(answers, Place(m - 1, true, 0), Place(m, false, 0), places + xs, before + xray, hs,
             RowReadings(a.node, FromHy2, a.hy2));
      assert answers[..m][..m - 1] == answers[..m - 1];
      places := places + xs + hs;
    }
  }

  lemma AnswersAreRead(answers: seq<Answer>)
    ensures IsPollOf(answers, AnswerReadings(answers))
  {
    var places := ReadingsUpTo(answers, |answers|);
    assert answers[..|answers|] == answers;
  }

  // Polling again.

  /** No node answers twice, and no list names a user twice. */
  ghost predicate DistinctAnswers(answers: seq<Answer>) {
    (forall i, j :: 0 <= i < j < |answers| ==> answers[i].node != answers[j].node)
    && forall x, y :: IsRow(answers, x) && IsRow(answers, y) && x.answer == y.answer && x.hy2 == y.hy2 && x.row != y.row
                      ==> ListAt(answers, x.answer, x.hy2)[x.row].id != ListAt(answers, y.answer, y.hy2)[y.row].id
  }

  ghost predicate DistinctKeys(readings: seq<Reading>) {
    forall j, k :: 0 <= j < k < |readings| ==> readings[j].key != readings[k].key
  }

  lemma PollKeysAreDistinct(answers: seq<Answer>, readings: seq<Reading>)
    requires DistinctAnswers(answers) && IsPollOf(answers, readings)
    ensures DistinctKeys(readings)
  {
    var places :| ReadUpTo(answers, Place(|answers|, false, 0), places, readings);
    forall j, k | 0 <= j < k < |readings| ensures readings[j].key != readings[k].key {
      assert Before(places[j], places[k]);
      assert Reads(answers, places[j], readings[j]) && Reads(answers, places[k], readings[k]);
    }
  }

  /** Every reading of a stored user is the value of its cursor. */
  ghost predicate UpToDate(db: Db, readings: seq<Reading>) {
    forall k :: 0 <= k < |readings| && readings[k].key.user in db.users ==>
      readings[k].key in db.cursors && db.cursors[readings[k].key] == Cursor(readings[k].uplink, readings[k].downlink)
  }

  lemma {:induction false} CollectIsUpToDate(db: Db, readings: seq<Reading>)
    requires DistinctKeys(readings)
    ensures UpToDate(CollectedDb(db, readings), readings) && CollectedDb(db, readings).users.Keys == db.users.Keys
  {
    if readings != [] {
      CollectIsUpToDate(db, readings[..|readings| - 1]);
    }
  }

  lemma {:induction false} NothingToCollect(db: Db, readings: seq<Reading>, now: Time)
    requires UpToDate(db, readings)
    ensures CollectedDb(db, readings) == db && Crossings(db, readings, now) == {}
  {
    if readings != [] {
      var before, r := readings[..|readings| - 1], readings[|readings| - 1];
      NothingToCollect(db, before, now);
      if r.key.user in db.users {
        assert Credit(db.users[r.key.user], db.CursorAt(r.key), r.uplink, r.downlink) == db.users[r.key.user];
      }
      assert Credited(db, r.key, r.uplink, r.downlink) == db;
    }
  }

  lemma PlaceIsRead(answers: seq<Answer>, places: seq<Place>, readings: seq<Reading>, x: Place, r: Reading)
    requires ReadUpTo(answers, Place(|answers|, false, 0), places, readings)
    requires IsRow(answers, x) && Reads(answers, x, r)
    ensures r in readings
  {
    assert Before(x, Place(|answers|, false, 0));
    var i :| 0 <= i < |places| && places[i] == x;
    assert Reads(answers, places[i], readings[i]);
    assert readings[i].key == r.key;
    assert readings[i] == r;
  }

  lemma SameRowsRead(answers: seq<Answer>, readings: seq<Reading>, again: seq<Reading>)
    requires IsPollOf(answers, readings) && IsPollOf(answers, again)
    ensures forall k :: 0 <= k < |again| ==> again[k] in readings
  {
    var places :| ReadUpTo(answers, Place(|answers|, false, 0), places, readings);
    var more :| ReadUpTo(answers, Place(|answers|, false, 0), more, again);
    forall k | 0 <= k < |again| ensures again[k] in readings {
      PlaceIsRead(answers, places, readings, more[k], again[k]);
    }
  }

  /** Polling the same counters again charges nobody, moves no cursor and pushes nothing. */
  lemma PollingAgainChangesNothing(p: Plane, answers: seq<Answer>, readings: seq<Reading>,
                                   acked: set<(GroupId, NodeId)>, q: Plane, later: Time, again: seq<Reading>,
                                   more: set<(GroupId, NodeId)>, r: Plane)
    requires DistinctAnswers(answers) && IsPollOf(answers, readings) && IsPollOf(answers, again)
    requires Step(p, Collect(readings, acked), q) && Step(q.(now := later), Collect(again, more), r)
    ensures r == q.(now := later) && more == {}
  {
    PollKeysAreDistinct(answers, readings);
    CollectIsUpToDate(p.db, readings);
    SameRowsRead(answers, readings, again);
    assert UpToDate(q.db, again);
    NothingToCollect(q.db, again, later);
    NothingPushed(q.(now := later), more, r);
  }

  lemma NothingPushed(p: Plane, acked: set<(GroupId, NodeId)>, q: Plane)
    requires Pushed(p, {}, acked, q)
    ensures q == p && acked == {}
  {
    assert forall a :: a !in acked;
    assert Cleared(p.db, {}, acked) == {};
    assert q.docs == p.docs;
  }
}
