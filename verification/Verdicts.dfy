/**
 * What one evaluation answers, read off the fields of the check result and the previous state: which
 * problems are stored, which are told and with what, and in which order.
 */
module Verdicts {
  import opened Models
  import opened Strings
  import opened State
  import opened Evaluator
  import opened Reports

  /** The result shows the problem, and the target is not one that expects it of its certificate. */
  ghost predicate Counts(r: CheckResult, kind: EventKind) {
    if r.reachable then Triggered(r, kind) && kind.Value() !in r.target.expected else kind == EventKind.Unreachable
  }

  /** The problem was alerted before, or has now been seen often enough in a row. */
  ghost predicate Tracked(rules: Rules, p: TargetState, r: CheckResult, kind: EventKind) {
    var key := r.target.name + "|" + kind.Value();
    && Counts(r, kind)
    && (|| key in p.activeAlerts
        || (if key in p.pending then p.pending[key] else 0) + 1 >= rules.failureThreshold)
  }

  /** Some problem is tracked that was not before. */
  ghost predicate Breaks(rules: Rules, p: TargetState, r: CheckResult) {
    exists kind :: Tracked(rules, p, r, kind) && r.target.name + "|" + kind.Value() !in p.activeAlerts
  }

  /** The problem has to be told now. */
  ghost predicate Owing(rules: Rules, p: TargetState, r: CheckResult, now: Time, kind: EventKind) {
    var key := r.target.name + "|" + kind.Value();
    && Tracked(rules, p, r, kind)
    && (r.reachable || "unreachable" !in r.target.expected)
    && (|| Breaks(rules, p, r)
        || (rules.renotifyAfter.Some? && key in p.notifiedAt && now - p.notifiedAt[key] >= rules.renotifyAfter.value))
  }

  /** What is observed of a result: exactly the problems that count, each with its event. */
  lemma ProblemsExactly(r: CheckResult, kind: EventKind)
    ensures AlertKey(r.target.name, kind) in Observe(r).problems <==> Counts(r, kind)
    ensures Counts(r, kind) ==>
              Observe(r).problems[AlertKey(r.target.name, kind)]
              == Event(r.target.name, kind, SeverityOf(kind), DetailsOf(r, kind))
  {
    if r.reachable {
      CertificateProblems(r, kind);
    } else {
      hide Observe, AlertKey;
      OnlyOutage(r);
      if AlertKey(r.target.name, kind) == AlertKey(r.target.name, EventKind.Unreachable) {
        AlertKeyInjective(r.target.name, kind, r.target.name, EventKind.Unreachable);
      }
    }
  }

  lemma CertificateProblems(r: CheckResult, kind: EventKind)
    requires r.reachable
    ensures AlertKey(r.target.name, kind) in Observe(r).problems <==> Counts(r, kind)
    ensures Counts(r, kind) ==>
              Observe(r).problems[AlertKey(r.target.name, kind)]
              == Event(r.target.name, kind, SeverityOf(kind), DetailsOf(r, kind))
  {
    hide Observe, AlertKey, Triggered, DetailsOf, SeverityOf, Proper, Keyed, DetectProblems;
    var o, key := Observe(r), AlertKey(r.target.name, kind);
    ObserveProper(r);
    DetectProblemsDistinct(r);
    DetectionTable(r, kind);
    if key in o.problems {
      var e :| e in DetectProblems(r) && e.kind.Value() !in r.target.expected && e.Key() == key;
      AlertKeyInjective(e.target, e.kind, r.target.name, kind);
    }
    if Triggered(r, kind) && kind.Value() !in r.target.expected {
      var e :| e in DetectProblems(r) && e.kind == kind;
      assert e.Key() == key && o.problems[key] == e;
    }
  }

  lemma OnlyOutage(r: CheckResult)
    requires !r.reachable
    ensures var kind := EventKind.Unreachable;
            Observe(r).problems
            == map[AlertKey(r.target.name, kind) := Event(r.target.name, kind, SeverityOf(kind), DetailsOf(r, kind))]
  {
  }

  /** Every observed key is that of a kind. */
  lemma ObservedKind(r: CheckResult, key: string)
    requires key in Observe(r).problems
    ensures key == AlertKey(r.target.name, Observe(r).problems[key].kind)
  {
    hide Observe;
    ObserveProper(r);
  }

  lemma TrackedIsActive(rules: Rules, p: TargetState, r: CheckResult, kind: EventKind)
    ensures AlertKey(r.target.name, kind) in NewActive(rules, p, Observe(r)) <==> Tracked(rules, p, r, kind)
  {
    ProblemsExactly(r, kind);
    hide Observe, Counts;
  }

  /** The alerts stored are those of the tracked problems, and the others that count are pending. */
  lemma StoredExactly(rules: Rules, p: TargetState, r: CheckResult, now: Time, kind: EventKind)
    ensures var s, key := NextState(rules, p, Observe(r), now), r.target.name + "|" + kind.Value();
            && (key in s.activeAlerts <==> Tracked(rules, p, r, kind))
            && (key in s.pending <==> Counts(r, kind) && !Tracked(rules, p, r, kind))
            && (key in s.pending ==> s.pending[key] == (if key in p.pending then p.pending[key] else 0) + 1)
  {
    hide Observe, Counts, Tracked;
    NextKeys(rules, p, Observe(r), now);
    ProblemsExactly(r, kind);
    TrackedIsActive(rules, p, r, kind);
    var s, key := NextState(rules, p, Observe(r), now), AlertKey(r.target.name, kind);
    assert key in s.activeAlerts <==> key in s.Active();
  }

  /** Nothing else is stored. */
  lemma NothingElseStored(rules: Rules, p: TargetState, r: CheckResult, now: Time, key: string)
    requires var s := NextState(rules, p, Observe(r), now); key in s.activeAlerts || key in s.pending
    ensures exists kind: EventKind :: key == r.target.name + "|" + kind.Value()
  {
    hide Observe, NextState;
    NextKeys(rules, p, Observe(r), now);
    var s := NextState(rules, p, Observe(r), now);
    assert key in s.Active() + s.pending.Keys;
    ObservedKind(r, key);
  }

  lemma BreaksIsForceFull(rules: Rules, p: TargetState, r: CheckResult)
    ensures ForceFull(rules, p, Observe(r)) <==> Breaks(rules, p, r)
  {
    hide Observe, NewActive, Tracked;
    var o := Observe(r);
    if ForceFull(rules, p, o) {
      var key :| key in NewActive(rules, p, o) && key !in p.Active();
      NewIsObserved(rules, p, o, key);
      ObservedKind(r, key);
      TrackedIsActive(rules, p, r, o.problems[key].kind);
    }
    if Breaks(rules, p, r) {
      var kind :| Tracked(rules, p, r, kind) && r.target.name + "|" + kind.Value() !in p.activeAlerts;
      TrackedIsActive(rules, p, r, kind);
      assert AlertKey(r.target.name, kind) in NewActive(rules, p, o) - p.Active();
    }
  }

  lemma NewIsObserved(rules: Rules, p: TargetState, o: Observation, key: string)
    requires key in NewActive(rules, p, o)
    ensures key in o.problems
  {
  }

  lemma OwingIsAlerted(rules: Rules, p: TargetState, r: CheckResult, now: Time, kind: EventKind)
    ensures AlertKey(r.target.name, kind) in Alerted(rules, p, Observe(r), now) <==> Owing(rules, p, r, now, kind)
  {
    hide NewActive, ForceFull, Tracked, Breaks, DetectProblems, IndexByKey;
    TrackedIsActive(rules, p, r, kind);
    BreaksIsForceFull(rules, p, r);
    NewBreaks(rules, p, r, kind);
  }

  lemma NewBreaks(rules: Rules, p: TargetState, r: CheckResult, kind: EventKind)
    ensures Tracked(rules, p, r, kind) && AlertKey(r.target.name, kind) !in p.activeAlerts ==> Breaks(rules, p, r)
  {
    hide Tracked;
  }

  /** A tracked problem is stamped now if it is told now, and keeps its stamp otherwise. */
  lemma StampsExactly(rules: Rules, p: TargetState, r: CheckResult, now: Time, kind: EventKind)
    requires Tracked(rules, p, r, kind)
    ensures var s, key := NextState(rules, p, Observe(r), now), r.target.name + "|" + kind.Value();
            && s.notifiedAt.Keys == s.Active() && key in s.notifiedAt
            && s.notifiedAt[key]
               == if Owing(rules, p, r, now, kind) || key !in p.notifiedAt then now else p.notifiedAt[key]
  {
    hide Observe, Tracked, Owing, Alerted, NewActive, SortSet;
    NextKeys(rules, p, Observe(r), now);
    TrackedIsActive(rules, p, r, kind);
    OwingIsAlerted(rules, p, r, now, kind);
  }

  /** The fingerprint of a reached target replaces another one. */
  ghost predicate Rotates(p: TargetState, r: CheckResult) {
    && r.reachable
    && p.fingerprint.Some? && p.fingerprint.value != "" && r.fingerprint.Some? && r.fingerprint.value != ""
    && p.fingerprint.value != r.fingerprint.value
  }

  /** A stored alert stands for no problem that is still tracked. */
  ghost predicate Gone(rules: Rules, p: TargetState, r: CheckResult, key: string) {
    key in p.activeAlerts && forall kind :: Tracked(rules, p, r, kind) ==> key != r.target.name + "|" + kind.Value()
  }

  lemma GoneIsCleared(rules: Rules, p: TargetState, r: CheckResult, key: string)
    ensures key in Cleared(rules, p, Observe(r)) <==> r.reachable && Gone(rules, p, r, key)
  {
    hide NewActive, Tracked, DetectProblems, IndexByKey;
    var o := Observe(r);
    if key in NewActive(rules, p, o) {
      NewIsObserved(rules, p, o, key);
      ObservedKind(r, key);
      TrackedIsActive(rules, p, r, o.problems[key].kind);
    }
    forall kind | Tracked(rules, p, r, kind) && key == r.target.name + "|" + kind.Value()
      ensures key in NewActive(rules, p, o)
    {
      TrackedIsActive(rules, p, r, kind);
    }
  }

  /**
   * The report holds the documented event of every problem that has to be told, the rotation if there
   * is one, the recovery of every alert that is gone from a target that was reached, and nothing else.
   */
  lemma EventsExactly(rules: Rules, p: TargetState, r: CheckResult, now: Time, e: Event)
    ensures e in Emitted(rules, p, Observe(r), now) <==>
              || (Owing(rules, p, r, now, e.kind)
                  && e == Event(r.target.name, e.kind, SeverityOf(e.kind), DetailsOf(r, e.kind)))
              || (Rotates(p, r)
                  && e == Event(r.target.name, EventKind.FingerprintChanged, Severity.Warning,
                                Rotation(p.fingerprint.value, r.fingerprint.value)))
              || (r.reachable && exists key ::
                    Gone(rules, p, r, key)
                    && e == Event(r.target.name, EventKind.Recovered, Severity.Info, Resolved(AlertKind(key))))
  {
    hide Emitted, Alerted, Cleared, Owing, Gone, Proper, Keyed, DetectProblems, IndexByKey, SeverityOf, DetailsOf;
    var o := Observe(r);
    ObserveProper(r);
    EmittedMembers(rules, p, o, now, e);
    OwingIsAlerted(rules, p, r, now, e.kind);
    ProblemsExactly(r, e.kind);
    forall key ensures key in Cleared(rules, p, o) <==> r.reachable && Gone(rules, p, r, key) {
      GoneIsCleared(rules, p, r, key);
    }
    if e.Key() in Alerted(rules, p, o, now) {
      AlertedIsObserved(rules, p, o, now, e.Key());
      if o.problems[e.Key()] == e {
        ObservedTarget(o, e.Key());
      }
    }
    OwingCounts(rules, p, r, now, e.kind);
  }

  lemma AlertedIsObserved(rules: Rules, p: TargetState, o: Observation, now: Time, key: string)
    requires key in Alerted(rules, p, o, now)
    ensures key in o.problems
  {
  }

  lemma ObservedTarget(o: Observation, key: string)
    requires Proper(o) && key in o.problems
    ensures o.problems[key].target == o.name
  {
  }

  lemma OwingCounts(rules: Rules, p: TargetState, r: CheckResult, now: Time, kind: EventKind)
    ensures Owing(rules, p, r, now, kind) ==> Counts(r, kind)
  {
  }

  // ---- Order ----

  lemma {:induction false} AlertAt(problems: map<string, Event>, keys: seq<string>, i: nat)
    requires i < |keys| && forall k :: k in keys ==> k in problems
    ensures |EventsOf(problems, keys)| == |keys| && EventsOf(problems, keys)[i] == problems[keys[i]]
  {
    var front := keys[..|keys| - 1];
    if |keys| == 1 {
      assert front == [] && EventsOf(problems, front) == [];
    } else {
      AlertAt(problems, front, if i < |front| then i else 0);
    }
  }

  lemma {:induction false} RecoveryAt(name: string, keys: seq<string>)
    ensures |ResolvedEvents(name, keys)| == |keys|
    ensures forall i :: 0 <= i < |keys| ==> ResolvedEvents(name, keys)[i] == ResolvedEvent(name, keys[i])
  {
    if keys == [] {
    } else {
      RecoveryAt(name, keys[..|keys| - 1]);
    }
  }

  /** Where the events about these keys stand: the rotation first, then the alerts, then the recoveries. */
  ghost predicate Arranged(
    events: seq<Event>, p: TargetState, r: CheckResult, told: seq<string>, cleared: seq<string>)
  {
    var n := if Rotates(p, r) then 1 else 0;
    && |events| == n + |told| + |cleared|
    && (n == 1 ==> events[0] == Event(r.target.name, EventKind.FingerprintChanged, Severity.Warning,
                                      Rotation(p.fingerprint.value, r.fingerprint.value)))
    && (forall i :: 0 <= i < |told| ==> events[n + i].kind.Alertable() && events[n + i].Key() == told[i])
    && (forall i :: 0 <= i < |cleared| ==>
          events[n + |told| + i]
          == Event(r.target.name, EventKind.Recovered, Severity.Info, Resolved(AlertKind(cleared[i]))))
  }

  lemma Arrange(
    rotation: seq<Event>, alerts: seq<Event>, recoveries: seq<Event>, p: TargetState, r: CheckResult,
    told: seq<string>, cleared: seq<string>)
    requires rotation == RotationEvents(p, Observe(r))
    requires |alerts| == |told|
    requires forall i :: 0 <= i < |told| ==> alerts[i].kind.Alertable() && alerts[i].Key() == told[i]
    requires |recoveries| == |cleared|
    requires forall i :: 0 <= i < |cleared| ==> recoveries[i] == ResolvedEvent(r.target.name, cleared[i])
    ensures Arranged(rotation + alerts + recoveries, p, r, told, cleared)
  {
    RotationIsRaw(p, r);
    hide Observe, RotationEvents, Rotates;
    var events, n := rotation + alerts + recoveries, |rotation|;
    assert forall i :: 0 <= i < |told| ==> events[n + i] == alerts[i];
    assert forall i :: 0 <= i < |cleared| ==> events[n + |told| + i] == recoveries[i];
  }

  lemma AlertsAt(o: Observation, keys: seq<string>)
    requires Proper(o) && Keyed(o) && forall k :: k in keys ==> k in o.problems
    ensures |EventsOf(o.problems, keys)| == |keys|
    ensures forall i :: 0 <= i < |keys| ==>
              EventsOf(o.problems, keys)[i].kind.Alertable() && EventsOf(o.problems, keys)[i].Key() == keys[i]
  {
    hide EventsOf, Proper, Keyed;
    if keys == [] {
      NoAlertsOf(o.problems);
    } else {
      AlertAt(o.problems, keys, 0);
      forall i | 0 <= i < |keys|
        ensures EventsOf(o.problems, keys)[i].kind.Alertable() && EventsOf(o.problems, keys)[i].Key() == keys[i]
      {
        AlertAt(o.problems, keys, i);
        ObservedAlert(o, keys[i]);
      }
    }
  }

  /**
   * A rotation comes first and is the only one; alerts follow in the order of their keys, each key
   * once; then recoveries, in the order of theirs.
   */
  lemma EventsInOrder(rules: Rules, p: TargetState, r: CheckResult, now: Time)
    ensures exists told, cleared :: StrictlySorted(told) && StrictlySorted(cleared)
                                    && Arranged(Emitted(rules, p, Observe(r), now), p, r, told, cleared)
  {
    hide Observe, Alerted, Cleared, StrictlySorted, SortSet, Proper, Keyed, EventsOf, ResolvedEvents, Arranged;
    hide RotationEvents;
    var o := Observe(r);
    var told, cleared := SortSet(Alerted(rules, p, o, now)), SortSet(Cleared(rules, p, o));
    SortSetStrictlySorted(Alerted(rules, p, o, now));
    SortSetStrictlySorted(Cleared(rules, p, o));
    ObserveProper(r);
    RecoveryAt(o.name, cleared);
    ToldAreObserved(rules, p, o, now);
    AlertsAt(o, told);
    Arrange(RotationEvents(p, o), EventsOf(o.problems, told), ResolvedEvents(o.name, cleared), p, r, told, cleared);
  }

  lemma NoAlertsOf(problems: map<string, Event>)
    ensures EventsOf(problems, []) == []
  {
  }

  lemma ToldAreObserved(rules: Rules, p: TargetState, o: Observation, now: Time)
    ensures forall k :: k in SortSet(Alerted(rules, p, o, now)) ==> k in o.problems
  {
  }

  lemma ObservedAlert(o: Observation, key: string)
    requires Proper(o) && Keyed(o) && key in o.problems
    ensures o.problems[key].kind.Alertable() && o.problems[key].Key() == key
  {
  }

  lemma RotationIsRaw(p: TargetState, r: CheckResult)
    ensures RotationEvents(p, Observe(r))
            == if Rotates(p, r) then
                 [Event(r.target.name, EventKind.FingerprintChanged, Severity.Warning,
                        Rotation(p.fingerprint.value, r.fingerprint.value))]
               else []
  {
  }
}
