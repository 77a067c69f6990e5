/** The login limiter of internal/api/server.go, for one client address. */
module Login {
  import opened Entitlement

  const WINDOW: int := 900_000_000_000
  const LIMIT := 10

  /** Failures after the cutoff, in order. */
  function InWindow(fails: seq<Time>, now: Time): seq<Time> {
    if fails == [] then []
    else
      var t := fails[|fails| - 1];
      InWindow(fails[..|fails| - 1], now) + if t > now - WINDOW then [t] else []
  }

  /** The slice loginFails holds for an address: a backing array and a length. */
  class FailWindow {
    var buf: array<Time>
    var len: nat

    ghost predicate Valid()
      reads this
    {
      len <= buf.Length
    }

    function Fails(): seq<Time>
      requires Valid()
      reads this, buf
    {
      buf[..len]
    }

    constructor ()
      ensures Valid() && Fails() == [] && fresh(buf)
    {
      buf := new Time[0];
      len := 0;
    }

    /** loginAllowed: compacts the slice in place, over its own front, then counts. */
    method Allowed(now: Time) returns (ok: bool)
      requires Valid()
      modifies this`len, buf
      ensures Valid() && buf == old(buf) && Fails() == InWindow(old(Fails()), now)
      ensures ok <==> |Fails()| < LIMIT
    {
      var cutoff := now - WINDOW;
      ghost var was := Fails();
      var kept := 0;
      var n := len;
      for i := 0 to n
        invariant kept <= i
        invariant len == n == |was| && Valid()
        invariant forall k :: i <= k < n ==> buf[k] == was[k]
        invariant buf[..kept] == InWindow(was[..i], now)
      {
        assert was[..i + 1][..i] == was[..i];
        assert buf[i] == was[i];
        if buf[i] > cutoff {
          buf[kept] := buf[i];
          kept := kept + 1;
        }
      }
      assert was[..len] == was;
      len := kept;
      ok := len < LIMIT;
    }

    /** loginFailed: append, in place while there is room. */
    method Failed(now: Time)
      requires Valid()
      modifies this, buf
      ensures Valid() && Fails() == old(Fails()) + [now]
      ensures buf == old(buf) || fresh(buf)
    {
      if len == buf.Length {
        var bigger := new Time[2 * len + 1];
        for i := 0 to buf.Length
          invariant buf == old(buf) && len == old(len) == buf.Length
          invariant buf[..] == old(buf[..])
          invariant bigger[..i] == buf[..i]
        {
          bigger[i] := buf[i];
        }
        buf := bigger;
      }
      buf[len] := now;
      len := len + 1;
    }

    /** loginOK. */
    method Succeeded()
      requires Valid()
      modifies this`len
      ensures Valid() && Fails() == []
    {
      len := 0;
    }

    /** One wrong password: checked at one time, recorded at another. */
    method TryWrong(checked: Time, recorded: Time) returns (refused: bool)
      requires Valid()
      modifies this, buf
      ensures Valid() && (buf == old(buf) || fresh(buf))
      ensures var after := Try(State(old(Fails()), []), Attempt(checked, recorded));
              Fails() == after.fails && after.log == if refused then [] else [recorded]
    {
      var ok := Allowed(checked);
      if ok {
        Failed(recorded);
      }
      refused := !ok;
    }
  }

  // Sequential wrong attempts from one address.

  datatype Attempt = Attempt(checked: Time, recorded: Time)

  /** The limiter's slice, and every failure ever recorded. */
  datatype State = State(fails: seq<Time>, log: seq<Time>)

  function Try(s: State, a: Attempt): State {
    var kept := InWindow(s.fails, a.checked);
    if |kept| < LIMIT then State(kept + [a.recorded], s.log + [a.recorded]) else s.(fails := kept)
  }

  function Run(attempts: seq<Attempt>): State {
    if attempts == [] then State([], []) else Try(Run(attempts[..|attempts| - 1]), attempts[|attempts| - 1])
  }

  predicate Sequential(attempts: seq<Attempt>) {
    (forall i :: 0 <= i < |attempts| ==> attempts[i].checked <= attempts[i].recorded)
    && forall i, j :: 0 <= i < j < |attempts| ==> attempts[i].recorded <= attempts[j].checked
  }

  ghost predicate Ascending(ts: seq<Time>) {
    forall i, j :: 0 <= i < j < |ts| ==> ts[i] <= ts[j]
  }

  /** Where the window of an ascending list starts: everything from there on is newer than the cutoff. */
  ghost predicate Cut(ts: seq<Time>, k: nat, now: Time) {
    k <= |ts| && (forall i :: 0 <= i < k ==> ts[i] <= now - WINDOW)
    && forall i :: k <= i < |ts| ==> ts[i] > now - WINDOW
  }

  lemma {:induction false} WindowIsSuffix(ts: seq<Time>, k: nat, now: Time)
    requires Cut(ts, k, now)
    ensures InWindow(ts, now) == ts[k..]
  {
    if ts != [] {
      var init := ts[..|ts| - 1];
      if k < |ts| {
        WindowIsSuffix(init, k, now);
        assert ts[k..] == init[k..] + [ts[|ts| - 1]];
      } else {
        WindowIsSuffix(init, |init|, now);
      }
    }
  }

  lemma {:induction false} CutOf(ts: seq<Time>, now: Time) returns (k: nat)
    requires Ascending(ts)
    ensures Cut(ts, k, now)
  {
    k := 0;
    while k < |ts| && ts[k] <= now - WINDOW
      invariant k <= |ts| && forall i :: 0 <= i < k ==> ts[i] <= now - WINDOW
    {
      k := k + 1;
    }
  }

  /** The slice is the recent end of the log, and what it dropped is older than the window. */
  ghost predicate Recent(s: State, now: Time) {
    Ascending(s.log) && (forall i :: 0 <= i < |s.log| ==> s.log[i] <= now)
    && exists k :: SliceFrom(s, k, now)
  }

  ghost predicate SliceFrom(s: State, k: int, now: Time) {
    0 <= k <= |s.log| && s.fails == s.log[k..] && forall i :: 0 <= i < k ==> s.log[i] <= now - WINDOW
  }

  lemma CutOfSlice(log: seq<Time>, d: nat, k: nat, now: Time)
    requires d <= |log| && (forall i :: 0 <= i < d ==> log[i] <= now - WINDOW) && Cut(log, k, now)
    ensures d <= k && Cut(log[d..], k - d, now) && log[d..][k - d..] == log[k..]
  {
    assert k < |log| ==> log[k] > now - WINDOW;
  }

  lemma WindowOfSlice(log: seq<Time>, d: nat, k: nat, now: Time)
    requires d <= |log| && (forall i :: 0 <= i < d ==> log[i] <= now - WINDOW) && Cut(log, k, now)
    ensures InWindow(log[d..], now) == InWindow(log, now) == log[k..]
  {
    WindowIsSuffix(log, k, now);
    CutOfSlice(log, d, k, now);
    WindowIsSuffix(log[d..], k - d, now);
  }

  lemma SliceWindowIsLogWindow(s: State, now: Time, k: nat)
    requires Recent(s, now) && Cut(s.log, k, now)
    ensures InWindow(s.fails, now) == InWindow(s.log, now) == s.log[k..]
  {
    var d :| SliceFrom(s, d, now);
    WindowOfSlice(s.log, d, k, now);
  }

  lemma AppendKeepsAscending(log: seq<Time>, t: Time, now: Time)
    requires Ascending(log) && (forall i :: 0 <= i < |log| ==> log[i] <= t) && t <= now
    ensures Ascending(log + [t]) && forall i :: 0 <= i < |log + [t]| ==> (log + [t])[i] <= now
  {
  }

  lemma TryIsRecent(s: State, a: Attempt, now: Time)
    requires Recent(s, a.checked) && a.checked <= a.recorded <= now
    ensures Recent(Try(s, a), now)
  {
    var k := CutOf(s.log, a.checked);
    SliceWindowIsLogWindow(s, a.checked, k);
    var kept := s.log[k..];
    if |kept| < LIMIT {
      var log := s.log + [a.recorded];
      AppendKeepsAscending(s.log, a.recorded, now);
      assert log[k..] == kept + [a.recorded];
      assert SliceFrom(State(kept + [a.recorded], log), k, now);
    } else {
      assert SliceFrom(State(kept, s.log), k, now);
    }
  }

  lemma {:induction false} RunIsRecent(attempts: seq<Attempt>, now: Time)
    requires Sequential(attempts) && forall i :: 0 <= i < |attempts| ==> attempts[i].recorded <= now
    ensures Recent(Run(attempts), now)
  {
    if attempts == [] {
      assert SliceFrom(Run(attempts), 0, now);
    } else {
      var before, a := attempts[..|attempts| - 1], attempts[|attempts| - 1];
      RunIsRecent(before, a.checked);
      TryIsRecent(Run(before), a, now);
    }
  }

  /** Whether an attempt is let through depends on the failures recorded in the last 15 minutes and
      on nothing else, so refused attempts never extend a block. */
  lemma DecisionIsByRecordedFailures(attempts: seq<Attempt>, next: Attempt)
    requires Sequential(attempts + [next])
    ensures Run(attempts + [next]).log
            == Run(attempts).log + if |InWindow(Run(attempts).log, next.checked)| < LIMIT then [next.recorded] else []
  {
    var all := attempts + [next];
    assert all[..|all| - 1] == attempts;
    forall i | 0 <= i < |attempts| ensures attempts[i].recorded <= next.checked {
      assert all[i].recorded <= all[|attempts|].checked;
    }
    SequentialPrefix(attempts, next);
    RunIsRecent(attempts, next.checked);
    var k := CutOf(Run(attempts).log, next.checked);
    SliceWindowIsLogWindow(Run(attempts), next.checked, k);
  }

  /** So an attempt is refused exactly when ten failures were recorded and the tenth last of them is less
      than 15 minutes old. */
  lemma RefusedIffTenRecent(attempts: seq<Attempt>, next: Attempt)
    requires Sequential(attempts + [next])
    ensures var log := Run(attempts).log;
            Run(attempts + [next]).log == log
            <==> |log| >= 10 && next.checked - log[|log| - 10] < 15 * 60 * 1_000_000_000
  {
    var log := Run(attempts).log;
    DecisionIsByRecordedFailures(attempts, next);
    LogIsAscending(attempts, next);
    var k := CutOf(log, next.checked);
    WindowIsSuffix(log, k, next.checked);
    assert |log + [next.recorded]| != |log|;
    assert log + [] == log;
  }

  lemma LogIsAscending(attempts: seq<Attempt>, next: Attempt)
    requires Sequential(attempts + [next])
    ensures Ascending(Run(attempts).log)
  {
    var all := attempts + [next];
    forall i | 0 <= i < |attempts| ensures attempts[i].recorded <= next.checked {
      assert all[i].recorded <= all[|attempts|].checked;
    }
    SequentialPrefix(attempts, next);
    RunIsRecent(attempts, next.checked);
  }

  lemma SequentialPrefix(attempts: seq<Attempt>, next: Attempt)
    requires Sequential(attempts + [next])
    ensures Sequential(attempts)
  {
    var all := attempts + [next];
    assert forall i :: 0 <= i < |attempts| ==> all[i] == attempts[i];
  }

  /** Any eleven consecutive recorded failures span at least 15 minutes. */
  lemma {:induction false} ElevenFailuresSpanTheWindow(attempts: seq<Attempt>, x: nat)
    requires Sequential(attempts) && x + 10 < |Run(attempts).log|
    ensures Run(attempts).log[x + 10] - Run(attempts).log[x] >= 15 * 60 * 1_000_000_000
    decreases |attempts|
  {
    var before, a := attempts[..|attempts| - 1], attempts[|attempts| - 1];
    var s := Run(before);
    if x + LIMIT < |s.log| {
      ElevenFailuresSpanTheWindow(before, x);
    } else {
      RunIsRecent(before, a.checked);
      var k := CutOf(s.log, a.checked);
      SliceWindowIsLogWindow(s, a.checked, k);
      assert x < k;
    }
  }
}
