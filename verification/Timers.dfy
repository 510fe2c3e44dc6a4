/** How often a standing problem is alerted again, and when a steady target falls silent. */
module Timers {
  import opened Common
  import opened Models
  import opened Strings
  import opened State
  import opened Evaluator
  import opened History
  import opened Reports

  /** Throughout the run the problem stays active and no problem is newly confirmed. */
  ghost predicate Standing(rules: Rules, start: TargetState, h: Past, key: string) {
    h == []
    || (&& Standing(rules, start, Before(h), key)
        && key in NewActive(rules, Run(rules, start, Before(h)), Last(h).obs)
        && !ForceFull(rules, Run(rules, start, Before(h)), Last(h).obs))
  }

  /** The clock never runs backwards from `since` on. */
  ghost predicate ClockNeverBack(since: Time, h: Past) {
    h == [] || (ClockNeverBack(since, Before(h)) && EndTime(since, Before(h)) <= Last(h).now)
  }

  function EndTime(since: Time, h: Past): Time {
    if h == [] then since else Last(h).now
  }

  /** The number of cycles of the run that alert the problem. */
  ghost function Emissions(rules: Rules, start: TargetState, h: Past, key: string): nat {
    if h == [] then 0
    else
      Emissions(rules, start, Before(h), key)
      + if key in Alerted(rules, Run(rules, start, Before(h)), Last(h).obs, Last(h).now) then 1 else 0
  }

  function Total(count: nat, interval: Time): Time {
    if count == 0 then 0.0 else Total(count - 1, interval) + interval
  }

  /** `count` intervals fit into `span`. */
  predicate Fits(count: nat, interval: Time, span: Time) {
    count as real * interval <= span
  }

  lemma {:induction false} TotalIsProduct(count: nat, interval: Time)
    ensures Total(count, interval) == count as real * interval
  {
    if count == 0 {
    } else {
      TotalIsProduct(count - 1, interval);
      assert count as real * interval == (count - 1) as real * interval + interval;
    }
  }

  lemma {:induction false} StandingRun(rules: Rules, start: TargetState, h: Past, key: string)
    requires rules.renotifyAfter.Some? && rules.renotifyAfter.value > 0.0
    requires key in start.activeAlerts && key in start.notifiedAt
    requires Standing(rules, start, h, key) && ClockNeverBack(start.notifiedAt[key], h)
    ensures var end := Run(rules, start, h);
            && key in end.activeAlerts && key in end.notifiedAt
            && Total(Emissions(rules, start, h, key), rules.renotifyAfter.value)
               <= end.notifiedAt[key] - start.notifiedAt[key]
            && end.notifiedAt[key] <= EndTime(start.notifiedAt[key], h)
  {
    hide NewActive, ForceFull, Alerted, NextState;
    if h == [] {
    } else {
      StandingRun(rules, start, Before(h), key);
      StandingStep(rules, Run(rules, start, Before(h)), Last(h).obs, Last(h).now, key);
    }
  }

  /** c re-alerts of a standing problem take at least c renotify intervals. */
  lemma RenotifyRate(rules: Rules, start: TargetState, h: Past, key: string)
    requires rules.renotifyAfter.Some? && rules.renotifyAfter.value > 0.0
    requires key in start.activeAlerts && key in start.notifiedAt
    requires Standing(rules, start, h, key) && ClockNeverBack(start.notifiedAt[key], h)
    ensures Fits(Emissions(rules, start, h, key), rules.renotifyAfter.value,
                 EndTime(start.notifiedAt[key], h) - start.notifiedAt[key])
  {
    StandingRun(rules, start, h, key);
    var c, interval := Emissions(rules, start, h, key), rules.renotifyAfter.value;
    TotalBound(c, interval, EndTime(start.notifiedAt[key], h) - start.notifiedAt[key]);
  }

  lemma TotalBound(count: nat, interval: Time, bound: Time)
    requires Total(count, interval) <= bound
    ensures Fits(count, interval, bound)
  {
    TotalIsProduct(count, interval);
  }

  lemma StandingStep(rules: Rules, p: TargetState, o: Observation, now: Time, key: string)
    requires rules.renotifyAfter.Some? && key in p.activeAlerts && key in p.notifiedAt
    requires key in NewActive(rules, p, o) && !ForceFull(rules, p, o)
    ensures var s := NextState(rules, p, o, now);
            && key in s.activeAlerts && key in s.notifiedAt
            && (key in Alerted(rules, p, o, now) ==>
                  s.notifiedAt[key] == now && now - p.notifiedAt[key] >= rules.renotifyAfter.value)
            && (key !in Alerted(rules, p, o, now) ==> s.notifiedAt[key] == p.notifiedAt[key])
  {
  }

  /** After every cycle that may alert it, an active problem was alerted less than one interval ago. */
  lemma NeverOverdue(rules: Rules, p: TargetState, o: Observation, now: Time, key: string)
    requires rules.renotifyAfter.Some? && rules.renotifyAfter.value > 0.0
    requires !o.muted && key in NewActive(rules, p, o)
    ensures now - NextState(rules, p, o, now).notifiedAt[key] < rules.renotifyAfter.value
  {
  }

  /**
   * Two-sided spacing of successive alerts of one problem in any run: the stamp kept for it is the
   * time of its last alert, the next alert comes less than the interval plus the cycle gap later,
   * and no earlier than the interval unless a promotion re-shows everything.
   */
  lemma AlertSpacing(rules: Rules, h: Past, key: string, gap: Time)
    requires rules.renotifyAfter.Some? && rules.renotifyAfter.value > 0.0
    requires |h| >= 2 && !Last(Before(h)).obs.muted && Last(h).now - Last(Before(h)).now <= gap
    requires key in Run(rules, NEW_STATE, Before(h)).activeAlerts
    ensures var s := Run(rules, NEW_STATE, Before(h));
            && key in s.notifiedAt && s.notifiedAt[key] == LastAlert(rules, Before(h), key)
            && Last(h).now - s.notifiedAt[key] < rules.renotifyAfter.value + gap
            && (key in Alerted(rules, s, Last(h).obs, Last(h).now) && !ForceFull(rules, s, Last(h).obs) ==>
                  Last(h).now - s.notifiedAt[key] >= rules.renotifyAfter.value)
  {
    var b := Before(h);
    var p := Run(rules, NEW_STATE, Before(b));
    HistoryRefinement(rules, b);
    NextKeys(rules, p, Last(b).obs, Last(b).now);
    assert key in NewActive(rules, p, Last(b).obs) by {
      assert key in Run(rules, NEW_STATE, b).Active();
    }
    NeverOverdue(rules, p, Last(b).obs, Last(b).now, key);
  }

  /** Observing the same thing n times. */
  ghost predicate Constant(h: Past, o: Observation) {
    forall i :: 0 <= i < |h| ==> h[i].obs == o
  }

  lemma {:induction false} ConstantProgress(rules: Rules, start: TargetState, o: Observation, h: Past)
    requires h != [] && Constant(h, o)
    requires forall k :: k in start.pending ==> start.pending[k] >= 0
    ensures var s := Run(rules, start, h);
            && s.Active() == s.notifiedAt.Keys <= o.problems.Keys
            && (forall k :: k in o.problems && k !in s.activeAlerts ==>
                  k in s.pending && |h| <= s.pending[k] < rules.failureThreshold)
            && s.status == Some(o.status) && s.lastSeen == None
            && (o.reachable && Truthy(o.fingerprint) ==> s.fingerprint == o.fingerprint)
  {
    var before := Before(h);
    assert Last(h).obs == o;
    if before == [] {
    } else {
      ConstantProgress(rules, start, o, before);
    }
  }

  /**
   * With renotify off, a target whose observation stops changing is settled after at most
   * `failureThreshold` cycles: from then on nothing is reported and the state is a fixed point.
   */
  lemma Stabilises(rules: Rules, start: TargetState, o: Observation, h: Past, now: Time)
    requires rules.renotifyAfter.None?
    requires Constant(h, o) && |h| >= Threshold(rules)
    requires forall k :: k in start.pending ==> start.pending[k] >= 0
    ensures NextState(rules, Run(rules, start, h), o, now) == Run(rules, start, h)
    ensures Emitted(rules, Run(rules, start, h), o, now) == []
  {
    ConstantProgress(rules, start, o, h);
    var s := Run(rules, start, h);
    var q := Run(rules, start, Before(h));
    assert Last(h).obs == o;
    NextKeys(rules, q, o, Last(h).now);
    assert s.pending == map[];
    SortSetStrictlySorted(NewActive(rules, q, o));
    SettledStays(rules, s, o, now);
  }

  /** A state that already matches the observation is left alone. */
  lemma SettledStays(rules: Rules, s: TargetState, o: Observation, now: Time)
    requires rules.renotifyAfter.None?
    requires s.Active() == s.notifiedAt.Keys == o.problems.Keys && StrictlySorted(s.activeAlerts)
    requires s.pending == map[] && s.status == Some(o.status) && s.lastSeen == None
    requires o.reachable && Truthy(o.fingerprint) ==> s.fingerprint == o.fingerprint
    ensures NextState(rules, s, o, now) == s
    ensures Emitted(rules, s, o, now) == []
  {
    var none: set<string> := {};
    assert forall k :: k in s.activeAlerts <==> k in s.Active();
    assert NewActive(rules, s, o) == s.Active();
    assert Alerted(rules, s, o, now) == none;
    assert Cleared(rules, s, o) == none;
    SortSetUnique(s.Active(), s.activeAlerts);
    SortSetUnique(none, []);
    assert NextNotified(rules, s, o, now) == s.notifiedAt;
    assert NewPending(rules, s, o) == map[];
  }

  lemma {:induction false} ConstantStreak(h: Past, o: Observation, key: string)
    requires Constant(h, o) && key in o.problems
    ensures Streak(h, key) == |h|
  {
    if h == [] {
    } else {
      assert Last(h).obs == o;
      ConstantStreak(Before(h), o, key);
    }
  }

  /** The bound is exact: a target first seen with a problem is not settled any sooner. */
  lemma StabilisesNoSooner(rules: Rules, o: Observation, h: Past, key: string, now: Time)
    requires Constant(h, o) && |h| < Threshold(rules) && key in o.problems
    ensures NextState(rules, Run(rules, NEW_STATE, h), o, now) != Run(rules, NEW_STATE, h)
  {
    var next := h + [Step(o, now)];
    assert Before(next) == h;
    ConstantStreak(h, o, key);
    ConstantStreak(next, o, key);
    HistoryRefinement(rules, h);
    HistoryRefinement(rules, next);
    ActiveMembers(rules, h, key);
    ActiveMembers(rules, next, key);
  }
}
