/** When a sweep has nothing to send. */
module Quiescence {
  import opened Entitlement
  import opened Period
  import opened Storage
  import opened Plane
  import opened Kicks

  /** Quiescence. After a sweep that left nothing pending, a later sweep with no event between selects
      no group exactly when no user's entitlement changed and no counter is due for zeroing. */
  lemma QuietIffNothingChanged(p: Plane, acked: set<(GroupId, NodeId)>, q: Plane, later: Time)
    requires Step(p, Sweep(acked), q) && q.pending == {} && q.now <= later
    ensures SweepGroups(q.(now := later)) == {}
            <==> forall id :: id in q.db.users ==>
                   !ZeroDue(q.db.users[id], later)
                   && QuotaSwept(q.db.users[id], later).EntitledAt(later) == q.db.users[id].EntitledAt(q.now)
  {
    var t := q.(now := later);
    assert q.sampled == Sampling(q.db, q.now);
    if SweepGroups(t) == {} {
      forall id | id in q.db.users
        ensures !ZeroDue(q.db.users[id], later)
                && QuotaSwept(q.db.users[id], later).EntitledAt(later) == q.db.users[id].EntitledAt(q.now)
      {
        assert q.db.users[id].group !in SweepGroups(t);
      }
    }
  }

  /** With no group selected a sweep applies to no node: no apply is accepted, none is owed, and every
      document is as it was. */
  lemma QuietSweepSendsNothing(p: Plane, acked: set<(GroupId, NodeId)>, q: Plane)
    requires SweepGroups(p) == {} && Step(p, Sweep(acked), q)
    ensures acked == {} && q.docs == p.docs && q.pending == {}
  {
    assert forall a :: a in acked ==> a.0 in SweepGroups(p);
  }

  lemma SweptStart(u: User, now: Time)
    requires u.quotaReset != Lifetime && PeriodStart(now, u.quotaReset) > ZERO_TIME
    requires u.periodStart.Some? ==> u.periodStart.value <= PeriodStart(now, u.quotaReset)
    ensures QuotaSwept(u, now).periodStart == Some(PeriodStart(now, u.quotaReset))
    ensures QuotaSwept(u, now).quotaReset == u.quotaReset
  {
  }

  /** After a sweep, a user's counters are due for zeroing exactly when the clock enters a later
      period, also for a user whose start was current already. */
  lemma SweptUserIsDueIff(u: User, now: Time, later: Time)
    requires u.quotaReset != Lifetime && now <= later && PeriodStart(now, u.quotaReset) > ZERO_TIME
    requires u.periodStart.Some? ==> u.periodStart.value <= PeriodStart(now, u.quotaReset)
    ensures ZeroDue(QuotaSwept(u, now), later) <==> exists b :: Boundary(u.quotaReset, b) && now < b <= later
  {
    SweptStart(u, now);
    DueIffLaterPeriod(now, later, u.quotaReset);
  }

  ghost predicate CrossesBoundary(kind: Kind, now: Time, later: Time) {
    exists b :: Boundary(kind, b) && now < b <= later
  }

  lemma SweptStartIsNotBehind(u: User, now: Time)
    requires u.quotaReset != Lifetime
    ensures var v := QuotaSwept(u, now);
            v.quotaReset == u.quotaReset && v.periodStart.Some? && v.periodStart.value >= PeriodStart(now, u.quotaReset)
  {
  }

  lemma NotBehindIsNotDue(v: User, later: Time)
    requires v.periodStart.Some? && v.periodStart.value >= PeriodStart(later, v.quotaReset)
    ensures !ZeroDue(v, later)
  {
  }

  /** With no boundary crossed, no swept user is due, whatever start the row held. */
  lemma NotDueWithinPeriod(u: User, now: Time, later: Time)
    requires now <= later && !CrossesBoundary(u.quotaReset, now, later)
    ensures !ZeroDue(QuotaSwept(u, now), later)
  {
    if u.quotaReset != Lifetime {
      SweptStartIsNotBehind(u, now);
      SamePeriod(u.quotaReset, now, later);
      NotBehindIsNotDue(QuotaSwept(u, now), later);
    }
  }

  lemma SamePeriod(kind: Kind, now: Time, later: Time)
    requires kind != Lifetime && now <= later && !CrossesBoundary(kind, now, later)
    ensures PeriodStart(later, kind) == PeriodStart(now, kind)
  {
    PeriodStartIsGreatestBoundary(now, kind);
    PeriodStartIsGreatestBoundary(later, kind);
  }

  /** No boundary of any user's kind is crossed by then, and nobody's entitlement changes. */
  ghost predicate NothingHappens(q: Plane, later: Time) {
    forall id :: id in q.db.users ==>
      !CrossesBoundary(q.db.users[id].quotaReset, q.now, later)
      && q.db.users[id].EntitledAt(later) == q.db.users[id].EntitledAt(q.now)
  }

  lemma SweptUserRests(u: User, now: Time, later: Time)
    requires now <= later && !CrossesBoundary(u.quotaReset, now, later)
    ensures var v := QuotaSwept(u, now);
            v.quotaReset == u.quotaReset && !ZeroDue(v, later)
            && QuotaSwept(v, later).EntitledAt(later) == v.EntitledAt(later)
  {
    NotDueWithinPeriod(u, now, later);
    QuotaStepEntitles(QuotaSwept(u, now), later);
  }

  lemma RestingSelectsNothing(p: Plane, acked: set<(GroupId, NodeId)>, q: Plane, later: Time)
    requires Step(p, Sweep(acked), q) && q.pending == {} && q.now <= later && NothingHappens(q, later)
    ensures SweepGroups(q.(now := later)) == {}
  {
    forall id | id in q.db.users
      ensures !ZeroDue(q.db.users[id], later)
              && QuotaSwept(q.db.users[id], later).EntitledAt(later) == q.db.users[id].EntitledAt(q.now)
    {
      QuotaStepEntitles(p.db.users[id], p.now);
      SweptKeepsKind(p.db.users[id], p.now);
      SweptUserRests(p.db.users[id], p.now, later);
    }
    QuietIffNothingChanged(p, acked, q, later);
  }

  /** Quiescence, end to end: after a sweep that left nothing pending, as long as nothing happens but
      the clock, the next sweep selects no group, so it sends no PUT and leaves every document as it
      was. */
  lemma RestingPlaneSendsNothing(p: Plane, acked: set<(GroupId, NodeId)>, q: Plane, later: Time,
                                 more: set<(GroupId, NodeId)>, r: Plane)
    requires Step(p, Sweep(acked), q) && q.pending == {} && q.now <= later && NothingHappens(q, later)
    requires Step(q.(now := later), Sweep(more), r)
    ensures SweepGroups(q.(now := later)) == {}
    ensures more == {} && r.docs == q.docs && r.pending == {}
  {
    RestingSelectsNothing(p, acked, q, later);
    QuietSweepSendsNothing(q.(now := later), more, r);
  }

  /** Stored starts are not in the future, and the clock is past the period of Go's zero time. */
  predicate StartsAreSane(p: Plane) {
    forall id :: id in p.db.users ==> StartIsSane(p.db.users[id], p.now)
  }

  predicate StartIsSane(u: User, now: Time) {
    u.quotaReset != Lifetime ==>
      PeriodStart(now, u.quotaReset) > ZERO_TIME
      && (u.periodStart.Some? ==> u.periodStart.value <= PeriodStart(now, u.quotaReset))
  }

  lemma NothingSelectedMeansRest(p: Plane, acked: set<(GroupId, NodeId)>, q: Plane, later: Time)
    requires Step(p, Sweep(acked), q) && q.pending == {} && q.now <= later && StartsAreSane(p)
    requires SweepGroups(q.(now := later)) == {}
    ensures NothingHappens(q, later)
  {
    QuietIffNothingChanged(p, acked, q, later);
    forall id | id in q.db.users
      ensures !CrossesBoundary(q.db.users[id].quotaReset, q.now, later)
              && q.db.users[id].EntitledAt(later) == q.db.users[id].EntitledAt(q.now)
    {
      assert StartIsSane(p.db.users[id], p.now);
      UndueUserRests(p.db.users[id], p.now, later);
    }
  }

  /** And only then: on sane starts, the next sweep selects no group if and only if nothing happened. */
  lemma RestsIffNothingHappens(p: Plane, acked: set<(GroupId, NodeId)>, q: Plane, later: Time)
    requires Step(p, Sweep(acked), q) && q.pending == {} && q.now <= later && StartsAreSane(p)
    ensures SweepGroups(q.(now := later)) == {} <==> NothingHappens(q, later)
  {
    if SweepGroups(q.(now := later)) == {} {
      NothingSelectedMeansRest(p, acked, q, later);
    } else if NothingHappens(q, later) {
      RestingSelectsNothing(p, acked, q, later);
    }
  }

  lemma UndueUserRests(u: User, now: Time, later: Time)
    requires now <= later && !ZeroDue(QuotaSwept(u, now), later)
    requires StartIsSane(u, now)
    ensures var v := QuotaSwept(u, now);
            !CrossesBoundary(v.quotaReset, now, later) && QuotaSwept(v, later).EntitledAt(later) == v.EntitledAt(later)
  {
    SweptKeepsKind(u, now);
    QuotaStepEntitles(QuotaSwept(u, now), later);
    if u.quotaReset != Lifetime {
      SweptUserIsDueIff(u, now, later);
    }
  }

  lemma SweptKeepsKind(u: User, now: Time)
    ensures QuotaSwept(u, now).quotaReset == u.quotaReset
  {
  }
}
