/**
 * What listing a kind in a target's `expect` does: which expected problems are tracked after all,
 * which recoveries no alert preceded, and when a kind taken off the list alerts again.
 */
module Expectations {
  import opened Common
  import opened Models
  import opened Strings
  import opened State
  import opened Evaluator
  import opened History
  import opened Reports

  // ---- Expected problems are not tracked, with one exception ----

  /** The check shows a problem of this kind. */
  predicate Shows(r: CheckResult, kind: EventKind) {
    if r.reachable then exists e :: e in DetectProblems(r) && e.kind == kind else kind.Unreachable?
  }

  /** A shown problem is observed unless its kind is expected, which does not help `unreachable`. */
  lemma ObservedExactly(r: CheckResult, kind: EventKind)
    ensures AlertKey(r.target.name, kind) in Observe(r).problems
            <==> Shows(r, kind) && (kind.Unreachable? || kind.Value() !in r.target.expected)
  {
    hide DetectFirst, IndexByKey, AlertKey;
    var o, key := Observe(r), AlertKey(r.target.name, kind);
    ObserveProper(r);
    DetectProblemsDistinct(r);
    hide Observe, Proper, DetectProblems, UnreachableKey;
    if r.reachable {
      if key in o.problems {
        var e :| e in DetectProblems(r) && e.kind.Value() !in r.target.expected && e.Key() == key;
        AlertKeyInjective(e.target, e.kind, r.target.name, kind);
      }
    } else {
      OnlyDown(r);
      if key == UnreachableKey(r.target.name) {
        AlertKeyInjective(r.target.name, kind, r.target.name, EventKind.Unreachable);
      }
    }
  }

  lemma OnlyDown(r: CheckResult)
    requires !r.reachable
    ensures Observe(r).problems.Keys == {UnreachableKey(r.target.name)}
    ensures UnreachableKey(r.target.name) == AlertKey(r.target.name, EventKind.Unreachable)
  {
  }

  /** An expected kind is stored, as active or pending, exactly when it is `unreachable` and the target is down. */
  lemma ExpectedIsTracked(rules: Rules, p: TargetState, r: CheckResult, now: Time, kind: EventKind)
    requires kind.Value() in r.target.expected
    ensures var s := NextState(rules, p, Observe(r), now);
            AlertKey(r.target.name, kind) in s.Active() + s.pending.Keys <==> !r.reachable && kind.Unreachable?
  {
    hide DetectProblems, Observe, AlertKey, NextState;
    NextKeys(rules, p, Observe(r), now);
    ObservedExactly(r, kind);
    DetectProblemsDistinct(r);
  }

  /**
   * An active problem is announced as cleared exactly when the target is reached and the problem is
   * gone or expected: to put a kind on the list while its problem lasts is announced as a recovery.
   */
  lemma ClearedExactly(rules: Rules, p: TargetState, r: CheckResult, kind: EventKind)
    requires AlertKey(r.target.name, kind) in p.activeAlerts
    ensures AlertKey(r.target.name, kind) in Cleared(rules, p, Observe(r))
            <==> r.reachable && (Shows(r, kind) ==> kind.Value() in r.target.expected)
  {
    hide DetectProblems, Observe, AlertKey;
    ObservedExactly(r, kind);
    ObserveProper(r);
    DetectProblemsDistinct(r);
  }

  // ---- Every recovery follows an alert, with the same exception ----

  /** Some cycle of the streak the problem is in has alerted it. */
  ghost predicate AlertedInStreak(rules: Rules, h: Past, key: string) {
    h != [] && Streak(h, key) > 0 && (key in Alerts(rules, h) || AlertedInStreak(rules, Before(h), key))
  }

  /** A check of this target can show this. */
  ghost predicate Sighted(t: Target, o: Observation) {
    exists r: CheckResult :: r.target == t && o == Observe(r)
  }

  /** Every sighting of the history is one of this target. */
  ghost predicate Watched(t: Target, h: Past) {
    forall i :: 0 <= i < |h| ==> Sighted(t, h[i].obs)
  }

  lemma MutedExactly(t: Target, o: Observation, key: string)
    requires Sighted(t, o) && key in o.problems
    ensures o.muted <==> key == UnreachableKey(t.name) && ExpectsUnreachable(t)
  {
    hide IndexByKey, DetectProblems, UnreachableKey, ExpectsUnreachable;
    var r: CheckResult :| r.target == t && o == Observe(r);
    ObserveProper(r);
  }

  /** A problem that is never muted while it is observed was alerted if it is confirmed. */
  lemma {:induction false} ConfirmedWasAlerted(rules: Rules, h: Past, key: string)
    requires key in Confirmed(rules, h)
    requires forall i :: 0 <= i < |h| && key in h[i].obs.problems ==> !h[i].obs.muted
    ensures AlertedInStreak(rules, h, key)
  {
    assert !Last(h).obs.muted;
    if Streak(h, key) == Threshold(rules) {
      assert Fresh(rules, h);
    } else {
      ActiveMembers(rules, Before(h), key);
      ConfirmedWasAlerted(rules, Before(h), key);
    }
  }

  /** A problem that is always muted while it is observed is never alerted. */
  lemma {:induction false} MutedWasNotAlerted(rules: Rules, h: Past, key: string)
    requires forall i :: 0 <= i < |h| && key in h[i].obs.problems ==> h[i].obs.muted
    ensures !AlertedInStreak(rules, h, key)
  {
    if h != [] && Streak(h, key) > 0 {
      assert Last(h).obs.muted;
      MutedWasNotAlerted(rules, Before(h), key);
    }
  }

  /**
   * Whatever a target went through, a problem announced as cleared was alerted during the streak
   * that has just ended, unless the problem is that the target was down and it expects to be: then,
   * and only then, no cycle of the streak alerted it.
   */
  lemma RecoveryFollowsAlert(rules: Rules, t: Target, h: Past, key: string)
    requires h != [] && Watched(t, h)
    requires key in Cleared(rules, Run(rules, NEW_STATE, Before(h)), Last(h).obs)
    ensures AlertedInStreak(rules, Before(h), key) <==> !(key == UnreachableKey(t.name) && ExpectsUnreachable(t))
  {
    hide AlertedInStreak, UnreachableKey, ExpectsUnreachable;
    HistoryRefinement(rules, Before(h));
    ClearRefinement(rules, h);
    forall i | 0 <= i < |Before(h)| && key in Before(h)[i].obs.problems
      ensures Before(h)[i].obs.muted <==> key == UnreachableKey(t.name) && ExpectsUnreachable(t)
    {
      MutedExactly(t, h[i].obs, key);
    }
    if key == UnreachableKey(t.name) && ExpectsUnreachable(t) {
      MutedWasNotAlerted(rules, Before(h), key);
    } else {
      ConfirmedWasAlerted(rules, Before(h), key);
    }
  }

  /**
   * The exception is real: a target that expects to be unreachable is silently tracked as such, and
   * announces a recovery no alert preceded when it comes back.
   */
  lemma ExpectedUnreachableRecovers(down: CheckResult, back: CheckResult, now: Time)
    requires down.target == back.target && ExpectsUnreachable(down.target)
    requires !down.reachable && back.reachable && DetectProblems(back) == []
    ensures var rules, key := Rules(None, 1), UnreachableKey(down.target.name);
            var h := [Step(Observe(down), now), Step(Observe(back), now)];
            && Reported(rules, NEW_STATE, h[..1]) == []
            && Run(rules, NEW_STATE, h[..1]).activeAlerts == [key]
            && Reported(rules, NEW_STATE, h) == [ResolvedEvent(down.target.name, key)]
  {
    hide DetectFirst, UnreachableKey;
    var rules, key := Rules(None, 1), UnreachableKey(down.target.name);
    var o, o' := Observe(down), Observe(back);
    var h := [Step(o, now), Step(o', now)];
    var none: set<string> := {};
    SortSetUnique(none, []);
    SortSetUnique({key}, [key]);
    assert h[..1][..0] == [] && Before(h) == h[..1] && Before(h[..1]) == [];
    var s := NextState(rules, NEW_STATE, o, now);
    assert Run(rules, NEW_STATE, h[..1]) == s;
    assert NewActive(rules, NEW_STATE, o) == {key};
    assert Alerted(rules, NEW_STATE, o, now) == none && Cleared(rules, NEW_STATE, o) == none;
    assert o'.problems == map[];
    assert NewActive(rules, s, o') == none && Alerted(rules, s, o', now) == none;
    assert Cleared(rules, s, o') == {key};
    assert ResolvedEvents(o.name, [key]) == [ResolvedEvent(o.name, key)] by {
      assert [key][..0] == [];
    }
    assert s.fingerprint == None;
  }

  // ---- Taking a kind off the list ----

  /** An active problem's interval since its stamp is over. */
  predicate Overdue(rules: Rules, s: TargetState, now: Time, key: string) {
    rules.renotifyAfter.Some? && key in s.notifiedAt && now - s.notifiedAt[key] >= rules.renotifyAfter.value
  }

  lemma UnmutedIfNotExpected(r: CheckResult, kind: EventKind)
    requires kind.Value() !in r.target.expected && Shows(r, kind)
    ensures !Observe(r).muted
  {
    hide DetectProblems, IndexByKey;
  }

  lemma StandingAlerted(rules: Rules, s: TargetState, o: Observation, now: Time, key: string)
    requires o.problems.Keys == {key} && !o.muted && key in s.activeAlerts
    ensures key in Alerted(rules, s, o, now) <==> Overdue(rules, s, now, key)
  {
    assert NewActive(rules, s, o) == {key};
  }

  lemma FirstAlerted(rules: Rules, s: TargetState, o: Observation, now: Time, key: string)
    requires key in o.problems && !o.muted && key !in s.activeAlerts
    ensures key in Alerted(rules, s, o, now) <==> PendingCount(s, key) + 1 >= rules.failureThreshold
  {
  }

  /**
   * When a kind that was expected one cycle, and present, is not expected any more the next, it
   * alerts at once exactly if one sighting is enough to confirm it; except for `unreachable`, which
   * was tracked all along: that alerts if it is confirmed only now, or if its interval is over.
   */
  lemma NoLongerExpected(rules: Rules, p: TargetState, r: CheckResult, before: Time,
                         r': CheckResult, now: Time, kind: EventKind)
    requires kind.Value() in r.target.expected && Shows(r, kind)
    requires r'.target.name == r.target.name && kind.Value() !in r'.target.expected && Shows(r', kind)
    ensures var s, key := NextState(rules, p, Observe(r), before), AlertKey(r.target.name, kind);
            key in Alerted(rules, s, Observe(r'), now) <==>
              if !kind.Unreachable? then rules.failureThreshold <= 1
              else if key in s.activeAlerts then Overdue(rules, s, now, key)
              else PendingCount(s, key) + 1 >= rules.failureThreshold
  {
    hide DetectProblems, Observe, AlertKey, NextState;
    var s, key, o' := NextState(rules, p, Observe(r), before), AlertKey(r.target.name, kind), Observe(r');
    NextKeys(rules, p, Observe(r), before);
    ExpectedIsTracked(rules, p, r, before, kind);
    ObservedExactly(r', kind);
    UnmutedIfNotExpected(r', kind);
    if key in s.activeAlerts {
      assert key in s.Active();
      DetectProblemsDistinct(r');
      OnlyDown(r');
      StandingAlerted(rules, s, o', now, key);
    } else {
      FirstAlerted(rules, s, o', now, key);
    }
  }

  /** Every sighting of the history finds the target down. */
  ghost predicate StaysDown(key: string, h: Past) {
    forall i :: 0 <= i < |h| ==> !h[i].obs.reachable && h[i].obs.downKey == key && h[i].obs.problems.Keys == {key}
  }

  /**
   * So without renotify an outage that began while it was expected is not alerted for as long as
   * it lasts, whatever `expect` says by then.
   */
  lemma {:induction false} OutageStaysSilent(rules: Rules, p: TargetState, h: Past, key: string)
    requires rules.renotifyAfter.None? && key in p.activeAlerts && StaysDown(key, h)
    ensures key in Run(rules, p, h).activeAlerts
    ensures h != [] ==> Reported(rules, p, h) == []
  {
    hide Emitted, NextState;
    if h == [] {
    } else {
      OutageStaysSilent(rules, p, Before(h), key);
      assert Last(h).obs.downKey == key;
      UnreachableSpec(rules, Run(rules, p, Before(h)), Last(h).obs, Last(h).now);
    }
  }
}
