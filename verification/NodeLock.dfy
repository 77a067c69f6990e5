/** nodeApplyMu in internal/api/server.go: concurrent applies of one node, and admin writes between
    their reads. A group's users are known by the number of writes made to them. */
module NodeLock {
  import opened Storage

  type Thread = nat
  type Versions = map<GroupId, nat>

  /** Where an applyStoredNode call stands. got are the versions read so far. */
  datatype Phase =
    | Idle
    | Holding(n: NodeId)                                          // lock taken
    | Reading(n: NodeId, left: set<GroupId>, got: Versions)       // group ids read, users of left not yet
    | Done(n: NodeId)                                             // PUT answered

  datatype State = State(
    written: GroupId -> nat,
    attached: NodeId -> set<GroupId>,
    holder: map<NodeId, Thread>,
    phase: Thread -> Phase,
    docs: map<NodeId, Versions>)    // versions inside each accepted document

  datatype Event =
    | Write(g: GroupId)
    | Attach(n: NodeId, groups: set<GroupId>)
    | Lock(t: Thread, n: NodeId)
    | ReadGroups(t: Thread)
    | ReadUsers(t: Thread, g: GroupId)
    | Put(t: Thread, ok: bool)
    | Unlock(t: Thread)               // on return, early or not

  function Set<A(==), B>(f: A -> B, a: A, b: B): A -> B {
    x => if x == a then b else f(x)
  }

  ghost predicate Step(s: State, e: Event, r: State) {
    match e
    case Write(g) => r == s.(written := Set<GroupId, nat>(s.written, g, s.written(g) + 1))
    case Attach(n, groups) => r == s.(attached := Set<NodeId, set<GroupId>>(s.attached, n, groups))
    case Lock(t, n) =>
      s.phase(t).Idle? && n !in s.holder
      && r == s.(holder := s.holder[n := t], phase := Set<Thread, Phase>(s.phase, t, Holding(n)))
    case ReadGroups(t) =>
      s.phase(t).Holding?
      && r == s.(phase := Set<Thread, Phase>(s.phase, t, Reading(s.phase(t).n, s.attached(s.phase(t).n), map[])))
    case ReadUsers(t, g) =>
      s.phase(t).Reading? && g in s.phase(t).left
      && r == s.(phase := Set<Thread, Phase>(
                   s.phase, t, Reading(s.phase(t).n, s.phase(t).left - {g}, s.phase(t).got[g := s.written(g)])))
    case Put(t, ok) =>
      s.phase(t).Reading? && s.phase(t).left == {}
      && r == s.(phase := Set<Thread, Phase>(s.phase, t, Done(s.phase(t).n)),
                 docs := if ok then s.docs[s.phase(t).n := s.phase(t).got] else s.docs)
    case Unlock(t) =>
      !s.phase(t).Idle? && s.phase(t).n in s.holder
      && r == s.(phase := Set<Thread, Phase>(s.phase, t, Idle), holder := s.holder - {s.phase(t).n})
  }

  ghost predicate IsRun(states: seq<State>, events: seq<Event>) {
    |states| == |events| + 1
    && (forall i :: 0 <= i < |events| ==> Step(states[i], events[i], states[i + 1]))
    && states[0].holder == map[] && states[0].docs == map[] && forall t :: states[0].phase(t) == Idle
  }

  // Invariants.

  ghost predicate LockHeld(s: State) {
    (forall t :: !s.phase(t).Idle? ==> s.phase(t).n in s.holder && s.holder[s.phase(t).n] == t)
    && (forall n :: n in s.holder ==> !s.phase(s.holder[n]).Idle? && s.phase(s.holder[n]).n == n)
  }

  /** Nothing on node n, nor on its way there, is older than version v of group g. */
  ghost predicate AtLeast(s: State, n: NodeId, g: GroupId, v: nat) {
    s.written(g) >= v
    && (n in s.docs && g in s.docs[n] ==> s.docs[n][g] >= v)
    && (forall t :: s.phase(t).Reading? && s.phase(t).n == n && g in s.phase(t).got ==> s.phase(t).got[g] >= v)
  }

  ghost predicate DocsBehindTables(s: State) {
    forall n, g :: n in s.docs && g in s.docs[n] ==> s.docs[n][g] <= s.written(g)
  }

  ghost predicate DocsBehindReads(s: State) {
    forall t, g :: s.phase(t).Reading? && g in s.phase(t).got ==>
      s.phase(t).got[g] <= s.written(g)
      && (s.phase(t).n in s.docs && g in s.docs[s.phase(t).n] ==> s.docs[s.phase(t).n][g] <= s.phase(t).got[g])
  }

  /** The document on a node is no newer than the tables, and no newer than the reads under its
      lock. */
  ghost predicate Ordered(s: State) {
    LockHeld(s) && DocsBehindTables(s) && DocsBehindReads(s)
  }

  lemma StepKeepsLock(s: State, e: Event, r: State)
    requires LockHeld(s) && Step(s, e, r)
    ensures LockHeld(r)
  {
  }

  lemma StepKeepsDocs(s: State, e: Event, r: State)
    requires Ordered(s) && Step(s, e, r)
    ensures DocsBehindTables(r)
  {
  }

  lemma StepKeepsReads(s: State, e: Event, r: State)
    requires Ordered(s) && Step(s, e, r)
    ensures DocsBehindReads(r)
  {
  }

  lemma StepOrdered(s: State, e: Event, r: State)
    requires Ordered(s) && Step(s, e, r)
    ensures Ordered(r)
  {
    StepKeepsLock(s, e, r);
    StepKeepsDocs(s, e, r);
    StepKeepsReads(s, e, r);
  }

  lemma {:induction false} RunOrdered(states: seq<State>, events: seq<Event>, k: nat)
    requires IsRun(states, events) && k <= |events|
    ensures Ordered(states[k])
  {
    if k > 0 {
      RunOrdered(states, events, k - 1);
      StepOrdered(states[k - 1], events[k - 1], states[k]);
    }
  }

  lemma StepStaysAtLeast(s: State, e: Event, r: State, n: NodeId, g: GroupId, v: nat)
    requires Step(s, e, r) && AtLeast(s, n, g, v)
    ensures AtLeast(r, n, g, v)
  {
  }

  lemma {:induction false} StaysAtLeast(states: seq<State>, events: seq<Event>, i: nat, k: nat, n: NodeId, g: GroupId,
                                        v: nat)
    requires IsRun(states, events) && i <= k <= |events|
    requires AtLeast(states[i], n, g, v)
    ensures AtLeast(states[k], n, g, v)
    decreases k
  {
    if i < k {
      StaysAtLeast(states, events, i, k - 1, n, g, v);
      StepStaysAtLeast(states[k - 1], events[k - 1], states[k], n, g, v);
    }
  }

  /** No stale overwrite: under any interleaving, the version of a group inside a node's document
      never goes back, not even across documents that left the group out. */
  lemma DocumentsNeverGoBack(states: seq<State>, events: seq<Event>, i: nat, k: nat, n: NodeId, g: GroupId)
    requires IsRun(states, events) && i <= k <= |events|
    requires n in states[i].docs && g in states[i].docs[n] && n in states[k].docs && g in states[k].docs[n]
    ensures states[i].docs[n][g] <= states[k].docs[n][g]
  {
    RunOrdered(states, events, i);
    var v := states[i].docs[n][g];
    assert AtLeast(states[i], n, g, v);
    StaysAtLeast(states, events, i, k, n, g, v);
  }

  /** Thread t is inside the section it entered by taking the lock of n, and has read g no older
      than v. */
  ghost predicate Inside(s: State, t: Thread, n: NodeId, g: GroupId, v: nat) {
    !s.phase(t).Idle? && s.phase(t).n == n && s.written(g) >= v
    && (s.phase(t).Reading? && g in s.phase(t).got ==> s.phase(t).got[g] >= v)
  }

  lemma StepStaysInside(s: State, e: Event, r: State, t: Thread, n: NodeId, g: GroupId, v: nat)
    requires Step(s, e, r) && e != Unlock(t) && Inside(s, t, n, g, v)
    ensures Inside(r, t, n, g, v)
  {
  }

  lemma {:induction false} StaysInside(states: seq<State>, events: seq<Event>, i: nat, k: nat, t: Thread, n: NodeId,
                                       g: GroupId)
    requires IsRun(states, events) && i < k <= |events| && events[i] == Lock(t, n)
    requires forall m :: i < m < k ==> events[m] != Unlock(t)
    ensures Inside(states[k], t, n, g, states[i].written(g))
    decreases k
  {
    if i < k - 1 {
      StaysInside(states, events, i, k - 1, t, n, g);
      StepStaysInside(states[k - 1], events[k - 1], states[k], t, n, g, states[i].written(g));
    } else {
      assert Step(states[i], events[i], states[k]);
    }
  }

  /** A write made before an apply took the lock is in that apply's document once accepted, and in
      every document the node accepts from then on that includes the group. */
  lemma AcceptedApplyReflectsEarlierWrites(states: seq<State>, events: seq<Event>, i: nat, j: nat, k: nat,
                                           t: Thread, n: NodeId, g: GroupId)
    requires IsRun(states, events) && i < j < k <= |events|
    requires events[i] == Lock(t, n) && events[j] == Put(t, true)
    requires forall m :: i < m < j ==> events[m] != Unlock(t)
    requires n in states[k].docs && g in states[k].docs[n]
    ensures states[k].docs[n][g] >= states[i].written(g)
  {
    StaysInside(states, events, i, j, t, n, g);
    RunOrdered(states, events, j);
    assert Step(states[j], events[j], states[j + 1]);
    assert AtLeast(states[j + 1], n, g, states[i].written(g));
    StaysAtLeast(states, events, j + 1, k, n, g, states[i].written(g));
  }
}
