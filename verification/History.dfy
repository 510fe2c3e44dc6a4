/**
 * The evaluator folded over a whole history of observations, and a stateless description of the
 * same run: streaks of consecutive sightings instead of counters, past emissions instead of stamps.
 */
module History {
  import opened Common
  import opened Models
  import opened Strings
  import opened State
  import opened Evaluator

  /** One sighting of one target that was evaluated and taken over. */
  datatype Step = Step(obs: Observation, now: Time)

  type Past = seq<Step>

  function Last(h: Past): Step
    requires h != []
  {
    h[|h| - 1]
  }

  function Before(h: Past): Past
    requires h != []
  {
    h[..|h| - 1]
  }

  // ---- The run: the evaluator applied step by step ----

  ghost function Run(rules: Rules, start: TargetState, h: Past): TargetState {
    if h == [] then start
    else NextState(rules, Run(rules, start, Before(h)), Last(h).obs, Last(h).now)
  }

  /** What the last cycle of a run reports. */
  ghost function Reported(rules: Rules, start: TargetState, h: Past): seq<Event>
    requires h != []
  {
    Emitted(rules, Run(rules, start, Before(h)), Last(h).obs, Last(h).now)
  }

  // ---- The stateless description ----

  /** For how many cycles in a row, up to now, the problem has been observed. */
  ghost function Streak(h: Past, key: string): nat {
    if h == [] || key !in Last(h).obs.problems then 0 else Streak(Before(h), key) + 1
  }

  /** The streak at which a problem is promoted to an alert. */
  function Threshold(rules: Rules): nat {
    Max(1, rules.failureThreshold)
  }

  ghost function Confirmed(rules: Rules, h: Past): set<string> {
    if h == [] then {} else set k | k in Last(h).obs.problems && Streak(h, k) >= Threshold(rules)
  }

  ghost function Waiting(rules: Rules, h: Past): map<string, int> {
    if h == [] then map[]
    else map k | k in Last(h).obs.problems && Streak(h, k) < Threshold(rules) :: Streak(h, k)
  }

  /** Some problem is promoted in the last cycle. */
  ghost predicate Fresh(rules: Rules, h: Past)
    requires h != []
  {
    exists k :: k in Last(h).obs.problems && Streak(h, k) == Threshold(rules)
  }

  /** The problems the last cycle must alert: on a promotion all of them, otherwise the overdue ones. */
  ghost function Alerts(rules: Rules, h: Past): set<string>
    requires h != []
    decreases h, 0
  {
    set k | k in Confirmed(rules, h) && !Last(h).obs.muted &&
            (Fresh(rules, h) || (rules.renotifyAfter.Some?
                                 && Last(h).now - LastAlert(rules, Before(h), k) >= rules.renotifyAfter.value))
  }

  /** When the problem was last alerted or, if muted at the time, promoted. */
  ghost function LastAlert(rules: Rules, h: Past, key: string): Time
    decreases h, 1
  {
    if h == [] then 0.0
    else if key in Alerts(rules, h) || Streak(h, key) == Threshold(rules) then Last(h).now
    else LastAlert(rules, Before(h), key)
  }

  ghost function LastAlerts(rules: Rules, h: Past): map<string, Time> {
    map k | k in Confirmed(rules, h) :: LastAlert(rules, h, k)
  }

  /** The problems the last cycle must announce as cleared: confirmed before and no longer observed. */
  ghost function Recoveries(rules: Rules, h: Past): set<string>
    requires h != []
  {
    set k | k in Confirmed(rules, Before(h)) && Last(h).obs.reachable && Streak(h, k) == 0
  }

  /** The last non-empty fingerprint seen on a cycle that reached the target. */
  ghost function LastFingerprint(h: Past): Option<string> {
    if h == [] then None
    else if Last(h).obs.reachable && Truthy(Last(h).obs.fingerprint) then Last(h).obs.fingerprint
    else LastFingerprint(Before(h))
  }

  ghost function Described(rules: Rules, h: Past): TargetState {
    if h == [] then NEW_STATE
    else TargetState(
      LastFingerprint(h), Some(Last(h).obs.status), SortSet(Confirmed(rules, h)), LastAlerts(rules, h),
      Waiting(rules, h), None)
  }

  ghost function DescribedEvents(rules: Rules, h: Past): seq<Event>
    requires h != []
  {
    var o := Last(h).obs;
    var before := LastFingerprint(Before(h));
    (if o.reachable && Truthy(before) && Truthy(o.fingerprint) && before != o.fingerprint then
       [Event(o.name, EventKind.FingerprintChanged, Severity.Warning, Rotation(before.value, o.fingerprint.value))]
     else [])
    + EventsOf(o.problems, SortSet(Alerts(rules, h)))
    + ResolvedEvents(o.name, SortSet(Recoveries(rules, h)))
  }

  // ---- The two agree ----

  /**
   * After any history the incremental state is exactly the one described by streaks and past
   * alerts, and the last cycle reports exactly the described events, in order.
   */
  lemma {:induction false} HistoryRefinement(rules: Rules, h: Past)
    ensures Run(rules, NEW_STATE, h) == Described(rules, h)
    ensures h != [] ==> Reported(rules, NEW_STATE, h) == DescribedEvents(rules, h)
  {
    if h == [] {
    } else {
      HistoryRefinement(rules, Before(h));
      StepRefinement(rules, h);
    }
  }

  lemma StepRefinement(rules: Rules, h: Past)
    requires h != []
    ensures NextState(rules, Described(rules, Before(h)), Last(h).obs, Last(h).now) == Described(rules, h)
    ensures Emitted(rules, Described(rules, Before(h)), Last(h).obs, Last(h).now) == DescribedEvents(rules, h)
  {
    var p, o, now := Described(rules, Before(h)), Last(h).obs, Last(h).now;
    ConfirmRefinement(rules, h);
    AlertRefinement(rules, h);
    assert NextNotified(rules, p, o, now) == LastAlerts(rules, h) by {
      forall k | k in Confirmed(rules, h)
        ensures NextNotified(rules, p, o, now)[k] == LastAlert(rules, h, k)
      {
        NotifiedRefinement(rules, h, k);
      }
      assert NextNotified(rules, p, o, now).Keys == LastAlerts(rules, h).Keys;
    }
    assert p.fingerprint == LastFingerprint(Before(h));
    ClearRefinement(rules, h);
  }

  lemma ActiveMembers(rules: Rules, h: Past, key: string)
    ensures key in Described(rules, h).activeAlerts <==> key in Confirmed(rules, h)
    ensures key in Described(rules, h).activeAlerts <==> Streak(h, key) >= Threshold(rules)
    ensures key in Described(rules, h).notifiedAt <==> key in Confirmed(rules, h)
    ensures key !in Described(rules, h).activeAlerts ==> PendingCount(Described(rules, h), key) == Streak(h, key)
  {
  }

  lemma ConfirmRefinement(rules: Rules, h: Past)
    requires h != []
    ensures NewActive(rules, Described(rules, Before(h)), Last(h).obs) == Confirmed(rules, h)
    ensures NewPending(rules, Described(rules, Before(h)), Last(h).obs) == Waiting(rules, h)
  {
    var p, o := Described(rules, Before(h)), Last(h).obs;
    forall k | k in o.problems
      ensures Confirms(rules, p, k) <==> Streak(h, k) >= Threshold(rules)
      ensures !Confirms(rules, p, k) ==> PendingCount(p, k) + 1 == Streak(h, k)
    {
      ActiveMembers(rules, Before(h), k);
    }
  }

  lemma ForceRefinement(rules: Rules, h: Past)
    requires h != []
    ensures ForceFull(rules, Described(rules, Before(h)), Last(h).obs) <==> Fresh(rules, h)
  {
    var p, o := Described(rules, Before(h)), Last(h).obs;
    ConfirmRefinement(rules, h);
    forall k | k in Confirmed(rules, h)
      ensures k !in p.Active() <==> Streak(h, k) == Threshold(rules)
    {
      ActiveMembers(rules, Before(h), k);
    }
    if ForceFull(rules, p, o) {
      var k :| k in Confirmed(rules, h) && k !in p.Active();
      assert Streak(h, k) == Threshold(rules);
    }
    if Fresh(rules, h) {
      var k :| k in o.problems && Streak(h, k) == Threshold(rules);
      assert k in Confirmed(rules, h) && k !in p.Active();
    }
  }

  lemma AlertRefinement(rules: Rules, h: Past)
    requires h != []
    ensures Alerted(rules, Described(rules, Before(h)), Last(h).obs, Last(h).now) == Alerts(rules, h)
  {
    var p, o, now := Described(rules, Before(h)), Last(h).obs, Last(h).now;
    ConfirmRefinement(rules, h);
    ForceRefinement(rules, h);
    forall k | k in Confirmed(rules, h) && !Fresh(rules, h)
      ensures Due(rules, p, now, k) <==>
              rules.renotifyAfter.Some? && now - LastAlert(rules, Before(h), k) >= rules.renotifyAfter.value
    {
      ActiveMembers(rules, Before(h), k);
    }
  }

  lemma NotifiedRefinement(rules: Rules, h: Past, key: string)
    requires h != [] && key in Confirmed(rules, h)
    requires NewActive(rules, Described(rules, Before(h)), Last(h).obs) == Confirmed(rules, h)
    ensures NextNotified(rules, Described(rules, Before(h)), Last(h).obs, Last(h).now)[key] == LastAlert(rules, h, key)
  {
    AlertRefinement(rules, h);
    ActiveMembers(rules, Before(h), key);
  }

  lemma ClearRefinement(rules: Rules, h: Past)
    requires h != []
    ensures Cleared(rules, Described(rules, Before(h)), Last(h).obs) == Recoveries(rules, h)
  {
    var p, o := Described(rules, Before(h)), Last(h).obs;
    ConfirmRefinement(rules, h);
    forall k | k in Confirmed(rules, Before(h))
      ensures k !in Confirmed(rules, h) <==> Streak(h, k) == 0
    {
      ActiveMembers(rules, Before(h), k);
    }
    forall k
      ensures k in p.Active() <==> k in Confirmed(rules, Before(h))
    {
      ActiveMembers(rules, Before(h), k);
    }
  }
}
