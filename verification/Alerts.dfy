/** internal/api/alerts.go: which alerts a push posts, and how often over many pushes. */
module Alerts {
  import opened Entitlement

  const SECOND: int := 1_000_000_000
  const MINUTE: int := 60 * SECOND
  const RESEND: int := 360 * MINUTE
  const RETRY: int := 5 * MINUTE

  datatype Sent = Sent(at: Time, ok: bool)
  datatype Attempt = Attempt(key: string, at: Time, ok: bool)

  /** The remembered keys and every post ever attempted. */
  datatype Book = Book(sent: map<string, Sent>, log: seq<Attempt>)

  function Wait(s: Sent): int {
    if s.ok then RESEND else RETRY
  }

  predicate Wants(sent: map<string, Sent>, key: string, now: Time) {
    key in sent ==> now - sent[key].at >= Wait(sent[key])
  }

  /** One alert of a push; ok is how the post would end. */
  function Offer(b: Book, key: string, ok: bool, now: Time): Book {
    if Wants(b.sent, key, now) then Book(b.sent[key := Sent(now, ok)], b.log + [Attempt(key, now, ok)]) else b
  }

  function OfferAll(b: Book, keys: seq<string>, oks: seq<bool>, now: Time): Book
    requires |keys| == |oks|
  {
    if keys == [] then b
    else Offer(OfferAll(b, keys[..|keys| - 1], oks[..|oks| - 1], now), keys[|keys| - 1], oks[|oks| - 1], now)
  }

  function Pruned(sent: map<string, Sent>, live: set<string>): map<string, Sent> {
    map k | k in sent && k in live :: sent[k]
  }

  /** The keys listed in a push. */
  function Live(keys: seq<string>): set<string> {
    set k | k in keys
  }

  function PushResult(b: Book, keys: seq<string>, oks: seq<bool>, now: Time): Book
    requires |keys| == |oks|
  {
    var after := OfferAll(b, keys, oks, now);
    after.(sent := Pruned(after.sent, Live(keys)))
  }

  /** The posts that went through. */
  function Delivered(log: seq<Attempt>): nat {
    if log == [] then 0 else Delivered(log[..|log| - 1]) + if log[|log| - 1].ok then 1 else 0
  }

  datatype Push = Push(keys: seq<string>, oks: seq<bool>, now: Time)

  /** The alerts collected at one tick of the loop. */
  datatype Tick = Tick(keys: seq<string>, now: Time)

  /** The pushes of these ticks, each with an answer to every alert. */
  ghost predicate Answers(ticks: seq<Tick>, pushes: seq<Push>) {
    AllAnswered(pushes) && |pushes| == |ticks|
    && forall i :: 0 <= i < |ticks| ==> pushes[i].keys == ticks[i].keys && pushes[i].now == ticks[i].now
  }

  predicate AllAnswered(pushes: seq<Push>) {
    forall i :: 0 <= i < |pushes| ==> |pushes[i].keys| == |pushes[i].oks|
  }

  predicate WellFormed(pushes: seq<Push>) {
    AllAnswered(pushes)
    && forall i, j :: 0 <= i < j < |pushes| ==> pushes[i].now <= pushes[j].now
  }

  /** The book after a stretch of pushes that started with these keys remembered. */
  function Run(start: map<string, Sent>, pushes: seq<Push>): Book
    requires AllAnswered(pushes)
  {
    if pushes == [] then Book(start, [])
    else
      var p := pushes[|pushes| - 1];
      PushResult(Run(start, pushes[..|pushes| - 1]), p.keys, p.oks, p.now)
  }

  /** The key is live at every tick, and the clock does not go back. */
  ghost predicate LiveAtEvery(ticks: seq<Tick>, key: string) {
    (forall i :: 0 <= i < |ticks| ==> key in ticks[i].keys)
    && forall i, j :: 0 <= i < j < |ticks| ==> ticks[i].now <= ticks[j].now
  }

  /** The book with an earlier log in front. */
  function After(log: seq<Attempt>, b: Book): Book {
    b.(log := log + b.log)
  }

  class AlertServer {
    var alertSent: map<string, Sent>
    /** Every post attempted so far. */
    ghost var posted: seq<Attempt>

    constructor ()
      ensures alertSent == map[] && posted == []
    {
      alertSent := map[];
      posted := [];
    }

    method WantAlert(key: string, now: Time) returns (want: bool)
      ensures want == Wants(alertSent, key, now)
    {
      if key !in alertSent {
        return true;
      }
      var wait := RETRY;
      if alertSent[key].ok {
        wait := RESEND;
      }
      want := now - alertSent[key].at >= wait;
    }

    method PruneAlerts(live: set<string>)
      modifies this`alertSent
      ensures alertSent == Pruned(old(alertSent), live)
    {
      var todo := alertSent.Keys;
      ghost var was := alertSent;
      while todo != {}
        invariant todo <= was.Keys
        invariant alertSent == map k | k in was && (k in todo || k in live) :: was[k]
        decreases todo
      {
        var k :| k in todo;
        todo := todo - {k};
        if k !in live {
          alertSent := alertSent - {k};
        }
      }
    }

    method NoteAlertSent(key: string, ok: bool, now: Time)
      modifies this
      ensures alertSent == old(alertSent)[key := Sent(now, ok)] && posted == old(posted) + [Attempt(key, now, ok)]
    {
      alertSent := alertSent[key := Sent(now, ok)];
      posted := posted + [Attempt(key, now, ok)];
    }

    /** One alert of a push. The webhook answers as it likes: ok is its answer. */
    method PushAlert(key: string, now: Time) returns (delivered: bool, ghost ok: bool)
      modifies this
      ensures Book(alertSent, posted) == Offer(old(Book(alertSent, posted)), key, ok, now)
      ensures Delivered(posted) == old(Delivered(posted)) + if delivered then 1 else 0
    {
      delivered, ok := false, false;
      var want := WantAlert(key, now);
      if want {
        var answer: bool := *;
        NoteAlertSent(key, answer, now);
        delivered, ok := answer, answer;
      }
    }

    /** One push over the collected alerts; oks are the webhook's answers. */
    method PushAlerts(keys: seq<string>, now: Time) returns (sent: nat, ghost oks: seq<bool>)
      modifies this
      ensures |oks| == |keys|
      ensures Book(alertSent, posted) == PushResult(old(Book(alertSent, posted)), keys, oks, now)
      ensures Delivered(posted) == old(Delivered(posted)) + sent
    {
      ghost var start := Book(alertSent, posted);
      sent, oks := 0, [];
      var live: set<string> := {};
      for i := 0 to |keys|
        invariant |oks| == i && Delivered(posted) == Delivered(start.log) + sent
        invariant live == Live(keys[..i])
        invariant Book(alertSent, posted) == OfferAll(start, keys[..i], oks, now)
      {
        var key := keys[i];
        live := live + {key};
        var delivered: bool;
        ghost var ok: bool;
        delivered, ok := PushAlert(key, now);
        sent := sent + if delivered then 1 else 0;
        OneMoreKey(start, keys, i, oks, ok, now);
        oks := oks + [ok];
      }
      assert keys[..|keys|] == keys;
      PruneAlerts(live);
    }

    /** The pushes of a process, one a tick: what is remembered and posted is a run, and so the posts
        of a key live at every tick are spaced. */
    method AlertLoop(ticks: seq<Tick>) returns (ghost pushes: seq<Push>)
      modifies this
      ensures Answers(ticks, pushes)
      ensures alertSent == Run(old(alertSent), pushes).sent
      ensures posted == old(posted) + Run(old(alertSent), pushes).log
      ensures forall key :: LiveAtEvery(ticks, key) ==> Spaced(posted[|old(posted)|..], key)
    {
      ghost var sent, log := alertSent, posted;
      pushes := [];
      for i := 0 to |ticks|
        invariant Answers(ticks[..i], pushes)
        invariant Book(alertSent, posted) == After(log, Run(sent, pushes))
      {
        var tick := ticks[i];
        var _, oks := PushAlerts(tick.keys, tick.now);
        ghost var push := Push(tick.keys, oks, tick.now);
        PushAfter(sent, log, pushes, push);
        AnswersMore(ticks, pushes, push);
        pushes := pushes + [push];
      }
      assert ticks[..|ticks|] == ticks;
      LiveTicksAreSpaced(sent, ticks, pushes, log);
    }
  }

  lemma OneMoreKey(b: Book, keys: seq<string>, i: nat, oks: seq<bool>, ok: bool, now: Time)
    requires i < |keys| && |oks| == i
    ensures Live(keys[..i + 1]) == Live(keys[..i]) + {keys[i]}
    ensures OfferAll(b, keys[..i + 1], oks + [ok], now) == Offer(OfferAll(b, keys[..i], oks, now), keys[i], ok, now)
  {
    assert keys[..i + 1][..i] == keys[..i] && (oks + [ok])[..i] == oks;
    assert keys[..i + 1] == keys[..i] + [keys[i]];
  }

  lemma AnswersMore(ticks: seq<Tick>, pushes: seq<Push>, p: Push)
    requires |pushes| < |ticks| && Answers(ticks[..|pushes|], pushes) && |p.keys| == |p.oks|
    requires p.keys == ticks[|pushes|].keys && p.now == ticks[|pushes|].now
    ensures Answers(ticks[..|pushes| + 1], pushes + [p])
  {
  }

  /** One push more, from a book with an earlier log in front, is the run's with that log in front. */
  lemma PushAfter(start: map<string, Sent>, log: seq<Attempt>, pushes: seq<Push>, p: Push)
    requires AllAnswered(pushes) && |p.keys| == |p.oks|
    ensures AllAnswered(pushes + [p])
    ensures PushResult(After(log, Run(start, pushes)), p.keys, p.oks, p.now) == After(log, Run(start, pushes + [p]))
  {
    RunMore(start, pushes, p);
    OfferAllAfter(log, Run(start, pushes), p.keys, p.oks, p.now);
  }

  lemma {:induction false} OfferAllAfter(log: seq<Attempt>, b: Book, keys: seq<string>, oks: seq<bool>, now: Time)
    requires |keys| == |oks|
    ensures OfferAll(After(log, b), keys, oks, now) == After(log, OfferAll(b, keys, oks, now))
  {
    if keys != [] {
      OfferAllAfter(log, b, keys[..|keys| - 1], oks[..|oks| - 1], now);
    }
  }

  // Whole runs.

  /** Two posts of a key, the first to end with ok: how far apart they must be. */
  ghost predicate Spaced(log: seq<Attempt>, key: string) {
    forall x, y :: 0 <= x < y < |log| && log[x].key == key && log[y].key == key ==>
      log[y].at - log[x].at >= 5 * 60 * SECOND && (log[x].ok ==> log[y].at - log[x].at >= 6 * 3600 * SECOND)
  }

  /** What is remembered of a key is its last post, and no post is in the future. */
  ghost predicate Remembered(b: Book, key: string, now: Time) {
    (forall x :: 0 <= x < |b.log| && b.log[x].key == key ==>
       key in b.sent && b.log[x].at <= b.sent[key].at <= now
       && (b.log[x].at == b.sent[key].at ==> b.log[x].ok == b.sent[key].ok)
       && (b.log[x].ok ==> b.log[x].at == b.sent[key].at || b.sent[key].at - b.log[x].at >= RESEND)
       && (b.log[x].at == b.sent[key].at || b.sent[key].at - b.log[x].at >= RETRY))
  }

  lemma OfferSpaces(b: Book, k: string, ok: bool, now: Time, key: string)
    requires Spaced(b.log, key) && Remembered(b, key, now)
    ensures Spaced(Offer(b, k, ok, now).log, key) && Remembered(Offer(b, k, ok, now), key, now)
  {
  }

  lemma {:induction false} OfferAllSpaces(b: Book, keys: seq<string>, oks: seq<bool>, now: Time, key: string)
    requires |keys| == |oks| && Spaced(b.log, key) && Remembered(b, key, now)
    ensures var r := OfferAll(b, keys, oks, now); Spaced(r.log, key) && Remembered(r, key, now)
  {
    if keys != [] {
      OfferAllSpaces(b, keys[..|keys| - 1], oks[..|oks| - 1], now, key);
      OfferSpaces(OfferAll(b, keys[..|keys| - 1], oks[..|oks| - 1], now), keys[|keys| - 1], oks[|oks| - 1], now, key);
    }
  }

  lemma {:induction false} RunSpaces(start: map<string, Sent>, pushes: seq<Push>, key: string, now: Time)
    requires WellFormed(pushes) && forall i :: 0 <= i < |pushes| ==> key in pushes[i].keys && pushes[i].now <= now
    ensures Spaced(Run(start, pushes).log, key) && Remembered(Run(start, pushes), key, now)
  {
    if pushes != [] {
      var before, p := pushes[..|pushes| - 1], pushes[|pushes| - 1];
      assert forall i :: 0 <= i < |before| ==> before[i] == pushes[i];
      RunSpaces(start, before, key, p.now);
      OfferAllSpaces(Run(start, before), p.keys, p.oks, p.now, key);
      assert key in Live(p.keys);
    }
  }

  /** Over any stretch of pushes with a clock that never goes back, whatever was remembered at its
      start, a key live in every push is attempted at most every 5 minutes, and not within 6 hours of
      a successful post. */
  lemma {:induction false} AlertGaps(start: map<string, Sent>, pushes: seq<Push>, key: string)
    requires WellFormed(pushes) && forall i :: 0 <= i < |pushes| ==> key in pushes[i].keys
    ensures Spaced(Run(start, pushes).log, key)
  {
    if pushes != [] {
      var last := pushes[|pushes| - 1].now;
      assert forall i :: 0 <= i < |pushes| ==> pushes[i].now <= last;
      RunSpaces(start, pushes, key, last);
    }
  }

  lemma LiveTicksAreSpaced(start: map<string, Sent>, ticks: seq<Tick>, pushes: seq<Push>, log: seq<Attempt>)
    requires Answers(ticks, pushes)
    ensures var posted := log + Run(start, pushes).log;
            forall key :: LiveAtEvery(ticks, key) ==> Spaced(posted[|log|..], key)
  {
    var posted := log + Run(start, pushes).log;
    assert posted[|log|..] == Run(start, pushes).log;
    forall key | LiveAtEvery(ticks, key) ensures Spaced(Run(start, pushes).log, key) {
      AlertGaps(start, pushes, key);
    }
  }

  /** Each post of this push is of a listed key, which is remembered at its time, and no two are of one key. */
  ghost predicate PostedOnce(b: Book, keys: seq<string>, now: Time) {
    (forall x, y :: 0 <= x < y < |b.log| ==> b.log[x].key != b.log[y].key)
    && forall x :: 0 <= x < |b.log| ==>
         b.log[x].at == now && b.log[x].key in keys && b.log[x].key in b.sent && b.sent[b.log[x].key].at == now
  }

  lemma OfferOnce(b: Book, keys: seq<string>, k: string, ok: bool, now: Time)
    requires PostedOnce(b, keys, now)
    ensures PostedOnce(Offer(b, k, ok, now), keys + [k], now)
  {
    if Wants(b.sent, k, now) {
      assert forall x :: 0 <= x < |b.log| ==> b.log[x].key != k;
    }
  }

  /** No key is posted twice in one push, even when it is listed twice. */
  lemma {:induction false} OncePerPush(sent: map<string, Sent>, keys: seq<string>, oks: seq<bool>, now: Time)
    requires |keys| == |oks|
    ensures PostedOnce(OfferAll(Book(sent, []), keys, oks, now), keys, now)
  {
    if keys != [] {
      var before := keys[..|keys| - 1];
      OncePerPush(sent, before, oks[..|oks| - 1], now);
      OfferOnce(OfferAll(Book(sent, []), before, oks[..|oks| - 1], now), before, keys[|keys| - 1], oks[|oks| - 1], now);
      assert keys == before + [keys[|keys| - 1]];
    }
  }

  lemma {:induction false} OfferedIsRemembered(b: Book, keys: seq<string>, oks: seq<bool>, now: Time, k: string)
    requires |keys| == |oks| && (k in keys || k in b.sent)
    ensures k in OfferAll(b, keys, oks, now).sent
  {
    if keys != [] {
      var before := keys[..|keys| - 1];
      assert keys == before + [keys[|keys| - 1]];
      if k in before || k in b.sent {
        OfferedIsRemembered(b, before, oks[..|oks| - 1], now, k);
      }
    }
  }

  /** After a full push exactly the keys live in it are remembered, whatever was before. */
  lemma PushRemembersExactlyLive(b: Book, keys: seq<string>, oks: seq<bool>, now: Time)
    requires |keys| == |oks|
    ensures forall k :: k in PushResult(b, keys, oks, now).sent <==> k in keys
  {
    forall k | k in keys ensures k in OfferAll(b, keys, oks, now).sent {
      OfferedIsRemembered(b, keys, oks, now, k);
    }
  }

  // Exactly when a key is posted again.

  /** Key is posted on the way from b to r. */
  ghost predicate Posts(b: Book, r: Book, key: string) {
    exists x :: |b.log| <= x < |r.log| && r.log[x].key == key
  }

  ghost predicate SameMemory(sent: map<string, Sent>, after: map<string, Sent>, key: string) {
    (key in sent <==> key in after) && (key in sent ==> after[key] == sent[key])
  }

  lemma OfferPostsIff(b: Book, k: string, ok: bool, now: Time, key: string)
    ensures b.log <= Offer(b, k, ok, now).log
    ensures Posts(b, Offer(b, k, ok, now), key) <==> k == key && Wants(b.sent, key, now)
    ensures !Posts(b, Offer(b, k, ok, now), key) ==> SameMemory(b.sent, Offer(b, k, ok, now).sent, key)
  {
    if k == key && Wants(b.sent, key, now) {
      assert Offer(b, k, ok, now).log[|b.log|].key == key;
    }
  }

  lemma PostsInSteps(b: Book, m: Book, r: Book, key: string)
    requires b.log <= m.log <= r.log
    ensures Posts(b, r, key) <==> Posts(b, m, key) || Posts(m, r, key)
  {
    if x :| |b.log| <= x < |m.log| && m.log[x].key == key {
      assert r.log[x] == m.log[x];
    }
  }

  /** A push posts a key exactly when it lists the key and wants it at its start. */
  lemma {:induction false} OfferAllPostsIff(b: Book, keys: seq<string>, oks: seq<bool>, now: Time, key: string)
    requires |keys| == |oks|
    ensures var r := OfferAll(b, keys, oks, now);
            b.log <= r.log && (Posts(b, r, key) <==> key in keys && Wants(b.sent, key, now))
            && (!Posts(b, r, key) ==> SameMemory(b.sent, r.sent, key))
  {
    if keys != [] {
      var before, k := keys[..|keys| - 1], keys[|keys| - 1];
      var m := OfferAll(b, before, oks[..|oks| - 1], now);
      OfferAllPostsIff(b, before, oks[..|oks| - 1], now, key);
      OfferPostsIff(m, k, oks[|oks| - 1], now, key);
      PostsInSteps(b, m, OfferAll(b, keys, oks, now), key);
      assert keys == before + [k];
    }
  }

  lemma PushPostsIff(b: Book, p: Push, key: string)
    requires |p.keys| == |p.oks|
    ensures var r := PushResult(b, p.keys, p.oks, p.now);
            b.log <= r.log && (Posts(b, r, key) <==> key in p.keys && Wants(b.sent, key, p.now))
            && (!Posts(b, r, key) && key in p.keys ==> SameMemory(b.sent, r.sent, key))
            && (key !in p.keys ==> key !in r.sent)
  {
    OfferAllPostsIff(b, p.keys, p.oks, p.now, key);
  }

  /** Some push does not list the key. */
  predicate Missed(pushes: seq<Push>, key: string) {
    exists i :: 0 <= i < |pushes| && key !in pushes[i].keys
  }

  /** While a key is not posted, it is remembered as it was until a push misses it. */
  lemma {:induction false} UnpostedIsRemembered(start: map<string, Sent>, pushes: seq<Push>, key: string)
    requires AllAnswered(pushes) && key in start && !Posts(Book(start, []), Run(start, pushes), key)
    ensures if Missed(pushes, key) then key !in Run(start, pushes).sent
            else SameMemory(start, Run(start, pushes).sent, key)
  {
    if pushes != [] {
      var before, p := pushes[..|pushes| - 1], pushes[|pushes| - 1];
      var b := Run(start, before);
      PushPostsIff(b, p, key);
      PostsInSteps(Book(start, []), b, Run(start, pushes), key);
      UnpostedIsRemembered(start, before, key);
      assert pushes == before + [p];
      MissedInSteps(before, p, key);
    }
  }

  lemma MissedInSteps(pushes: seq<Push>, p: Push, key: string)
    ensures Missed(pushes + [p], key) <==> Missed(pushes, key) || key !in p.keys
  {
    var all := pushes + [p];
    if i :| 0 <= i < |pushes| && key !in pushes[i].keys {
      assert all[i] == pushes[i];
    }
    if key !in p.keys {
      assert all[|pushes|] == p;
    }
  }

  /** The exact condition for the next post. Once a key is remembered, and until it is posted again,
      the next push posts it if and only if it lists the key and some push in between missed it, or
      the wait is over. */
  lemma NextPostIff(start: map<string, Sent>, pushes: seq<Push>, next: Push, key: string)
    requires AllAnswered(pushes) && |next.keys| == |next.oks|
    requires key in start && !Posts(Book(start, []), Run(start, pushes), key)
    ensures Posts(Run(start, pushes), PushResult(Run(start, pushes), next.keys, next.oks, next.now), key)
            <==> key in next.keys && (Missed(pushes, key) || next.now - start[key].at >= Wait(start[key]))
  {
    UnpostedIsRemembered(start, pushes, key);
    PushPostsIff(Run(start, pushes), next, key);
  }

  /** So a post comes before its wait is over if and only if a push in between missed the key. */
  lemma GapBrokenIff(start: map<string, Sent>, pushes: seq<Push>, next: Push, key: string)
    requires AllAnswered(pushes) && |next.keys| == |next.oks|
    requires key in start && !Posts(Book(start, []), Run(start, pushes), key) && key in next.keys
    requires next.now - start[key].at < Wait(start[key])
    ensures Posts(Run(start, pushes), PushResult(Run(start, pushes), next.keys, next.oks, next.now), key)
            <==> Missed(pushes, key)
  {
    NextPostIff(start, pushes, next, key);
  }

  /** Being live throughout is needed: a key that is missing from one push is forgotten, and is
      posted again at once when it returns. */
  lemma ForgottenKeyPostsAgain(key: string, now: Time)
    ensures var run := Run(map[], [Push([key], [true], now), Push([], [], now), Push([key], [true], now)]);
            run.log == [Attempt(key, now, true), Attempt(key, now, true)]
  {
    var p, q := Push([key], [true], now), Push([], [], now);
    RunOne(p);
    RunMore(map[], [p], q);
    RunMore(map[], [p, q], p);
    var after1 := Book(map[key := Sent(now, true)], [Attempt(key, now, true)]);
    OfferOnly(Book(map[], []), key, true, now);
    assert Pruned(after1.sent, {key}) == after1.sent;
    assert Run(map[], [p]) == after1;
    assert Pruned(after1.sent, {}) == map[];
    assert Run(map[], [p, q]) == Book(map[], after1.log);
    OfferOnly(Book(map[], after1.log), key, true, now);
    assert [p, q, p] == [p, q] + [p];
  }

  lemma OfferOnly(b: Book, key: string, ok: bool, now: Time)
    ensures OfferAll(b, [key], [ok], now) == Offer(b, key, ok, now)
  {
    assert [key][..0] == [] && [ok][..0] == [];
    assert OfferAll(b, [], [], now) == b;
  }

  lemma RunOne(p: Push)
    requires |p.keys| == |p.oks|
    ensures Run(map[], [p]) == PushResult(Book(map[], []), p.keys, p.oks, p.now)
  {
    assert [p][..0] == [];
    assert Run(map[], []) == Book(map[], []);
  }

  lemma RunMore(start: map<string, Sent>, pushes: seq<Push>, p: Push)
    requires AllAnswered(pushes)
    requires |p.keys| == |p.oks|
    ensures AllAnswered(pushes + [p])
    ensures Run(start, pushes + [p]) == PushResult(Run(start, pushes), p.keys, p.oks, p.now)
  {
    assert (pushes + [p])[..|pushes|] == pushes;
  }
}
