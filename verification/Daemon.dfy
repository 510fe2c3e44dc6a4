/**
 * The daemon refines the evaluator: whatever the sinks refuse on the way, and whenever it starts
 * with a digest, what is stored about a target and what was delivered about it are those of the
 * plain record of its committed sightings.
 */
module Daemon {
  import opened Common
  import opened Models
  import opened State
  import opened Evaluator
  import opened History
  import opened Reports
  import opened Scheduler
  import opened Cycles
  import opened Runs
  import opened Retention
  import opened Expectations
  import opened Honesty
  import opened Replay
  import Persistence

  /**
   * What happens to the state of a target: a sighting is taken over, under the rules then in force,
   * which for a digest have threshold 1; or the target is forgotten.
   */
  datatype Turn = Seen(step: Step, rules: Rules, digest: bool) | Forgotten

  type Record = seq<Turn>

  function Newest(k: Record): Turn
    requires k != []
  {
    k[|k| - 1]
  }

  function Older(k: Record): Record
    requires k != []
  {
    k[..|k| - 1]
  }

  function InForce(c: Inspection): Rules {
    Rules(c.rules.renotifyAfter, if c.reportAll then 1 else c.rules.failureThreshold)
  }

  /** The sightings of a target whose evaluation was taken over: delivered, or without any event of its own. */
  ghost function Committed(h: Schedule, name: string): Record {
    if h == [] then []
    else
      var c := Final(h);
      Committed(Earlier(h), name)
      + if Checks(c, name) then
          if Commits(map[], h, name) then [Seen(Step(SightingOf(c, name), c.now), InForce(c), c.reportAll)] else []
        else if name in Saved(map[], Earlier(h)) && name !in Saved(map[], h) then [Forgotten]
        else []
  }

  /** The state the newest turn is evaluated against. */
  ghost function Starting(k: Record): TargetState
    requires k != []
    decreases k, 0
  {
    if Newest(k).Seen? && !Newest(k).digest then Outcome(Older(k)) else NEW_STATE
  }

  /** The evaluator folded over the record. */
  ghost function Outcome(k: Record): TargetState
    decreases k, 1
  {
    if k == [] || Newest(k).Forgotten? then NEW_STATE
    else NextState(Newest(k).rules, Starting(k), Newest(k).step.obs, Newest(k).step.now)
  }

  /** Everything the record reports, in order. */
  ghost function Told(k: Record): seq<Event> {
    if k == [] then []
    else if Newest(k).Forgotten? then Told(Older(k))
    else Told(Older(k)) + Emitted(Newest(k).rules, Starting(k), Newest(k).step.obs, Newest(k).step.now)
  }

  function Unstamped(s: TargetState): TargetState {
    s.(lastSeen := None)
  }

  /** Evaluation does not look at `lastSeen`. */
  lemma EvaluationIgnoresLastSeen(rules: Rules, p: TargetState, o: Observation, now: Time)
    ensures Emitted(rules, Unstamped(p), o, now) == Emitted(rules, p, o, now)
    ensures NextState(rules, Unstamped(p), o, now) == NextState(rules, p, o, now)
  {
    var q := Unstamped(p);
    assert NewActive(rules, q, o) == NewActive(rules, p, o);
    assert NewPending(rules, q, o) == NewPending(rules, p, o);
    assert Alerted(rules, q, o, now) == Alerted(rules, p, o, now);
    assert Cleared(rules, q, o) == Cleared(rules, p, o);
    assert NextNotified(rules, q, o, now) == NextNotified(rules, p, o, now);
    assert RotationEvents(q, o) == RotationEvents(p, o);
  }

  lemma CommitStep(k: Record, c: Inspection, s: TargetState, o: Observation)
    requires Unstamped(s) == Outcome(k)
    ensures var next := k + [Seen(Step(o, c.now), InForce(c), c.reportAll)];
            Unstamped(StateFor(c, s, o)) == Outcome(next) && Told(next) == Told(k) + EventsFor(c, s, o)
  {
    hide Emitted, NextState;
    var next := k + [Seen(Step(o, c.now), InForce(c), c.reportAll)];
    assert Older(next) == k;
    StateForInForce(c, s, o);
    EvaluationIgnoresLastSeen(InForce(c), PreviousOf(c, s), o, c.now);
    hide StateFor, EventsFor, InForce, Unstamped;
    assert Starting(next) == if c.reportAll then NEW_STATE else Unstamped(s);
  }

  /** One evaluation of a cycle, under the rules in force. */
  lemma StateForInForce(c: Inspection, s: TargetState, o: Observation)
    ensures Unstamped(StateFor(c, s, o)) == NextState(InForce(c), PreviousOf(c, s), o, c.now)
    ensures EventsFor(c, s, o) == Emitted(InForce(c), PreviousOf(c, s), o, c.now)
    ensures PreviousOf(c, s) == if c.reportAll then NEW_STATE else s
    ensures Unstamped(NEW_STATE) == NEW_STATE
  {
    hide NextState, Emitted;
    assert RulesOf(c) == InForce(c);
    NextStateUnstamped(InForce(c), PreviousOf(c, s), o, c.now);
  }

  lemma NextStateUnstamped(rules: Rules, p: TargetState, o: Observation, now: Time)
    ensures NextState(rules, p, o, now).lastSeen == None
  {
  }

  /**
   * Over any run of cycles, digests, failed deliveries, changes of the rules and forgotten targets
   * included, the stored state and the log of delivered events are those of the committed sightings.
   */
  lemma {:induction false} CommittedRefinement(h: Schedule, name: string)
    requires Regular(h)
    ensures Unstamped(Stored(map[], h, name)) == Outcome(Committed(h, name))
    ensures OwnLog(map[], h, name) == Told(Committed(h, name))
  {
    if h == [] {
      NothingOwned(name);
    } else {
      CommittedRefinement(Earlier(h), name);
      hide After, FoldResults, EventsFor, StateFor, Own, Outcome, Told, Starting, Delivered, Commits;
      var c, s, k := Final(h), Stored(map[], Earlier(h), name), Committed(Earlier(h), name);
      if Checks(c, name) {
        CommitOrNot(map[], h, name);
        CommitStep(k, c, s, SightingOf(c, name));
        OutcomeIgnoresLastSeen(k, s, Some(c.now));
        assert !Commits(map[], h, name) ==> Committed(h, name) == k;
      } else {
        AfterUnchecked(c, Saved(map[], Earlier(h)), h[|h| - 1].accepted, name);
        UncheckedLog(map[], h, name);
        ForgottenStep(k);
        assert name in Saved(map[], h) || name !in Saved(map[], Earlier(h)) ==> Committed(h, name) == k;
      }
    }
  }

  lemma OutcomeIgnoresLastSeen(k: Record, s: TargetState, seen: Option<Time>)
    requires Unstamped(s) == Outcome(k)
    ensures Unstamped(s.(lastSeen := seen)) == Outcome(k)
  {
  }

  lemma ForgottenStep(k: Record)
    ensures Outcome(k + [Forgotten]) == NEW_STATE && Told(k + [Forgotten]) == Told(k)
  {
    assert Older(k + [Forgotten]) == k;
  }

  // ---- Between two restarts the record is a plain history ----

  /** The state is computed anew, from nothing. */
  predicate Restarts(e: Turn) {
    e.Forgotten? || e.digest
  }

  /** The state the last restart left. */
  ghost function Base(k: Record): TargetState {
    if k == [] then NEW_STATE else if Restarts(Newest(k)) then Outcome(k) else Base(Older(k))
  }

  /** What was reported up to the last restart. */
  ghost function Opening(k: Record): seq<Event> {
    if k == [] then [] else if Restarts(Newest(k)) then Told(k) else Opening(Older(k))
  }

  /** What was reported since the last restart. */
  ghost function ToldSince(k: Record): seq<Event> {
    if k == [] || Restarts(Newest(k)) then []
    else ToldSince(Older(k)) + Emitted(Newest(k).rules, Starting(k), Newest(k).step.obs, Newest(k).step.now)
  }

  /** The history since the last restart. */
  function Since(k: Record): Past {
    if k == [] || Restarts(Newest(k)) then [] else Since(Older(k)) + [Newest(k).step]
  }

  /** The rules have not changed since the last restart. */
  predicate RulesSince(rules: Rules, k: Record) {
    k == [] || Restarts(Newest(k)) || (Newest(k).rules == rules && RulesSince(rules, Older(k)))
  }

  /** Everything a history reports, in order. */
  ghost function AllReported(rules: Rules, start: TargetState, h: Past): seq<Event> {
    if h == [] then [] else AllReported(rules, start, Before(h)) + Reported(rules, start, h)
  }

  lemma {:induction false} OpeningThenSince(k: Record)
    ensures Told(k) == Opening(k) + ToldSince(k)
  {
    hide Emitted;
    if k == [] || Restarts(Newest(k)) {
    } else {
      OpeningThenSince(Older(k));
    }
  }

  /** So the theorems about histories hold of what is stored and delivered since the last digest. */
  lemma {:induction false} RunSinceRestart(rules: Rules, k: Record)
    requires RulesSince(rules, k)
    ensures Outcome(k) == Run(rules, Base(k), Since(k))
    ensures ToldSince(k) == AllReported(rules, Base(k), Since(k))
  {
    hide Emitted, NextState;
    if k == [] || Restarts(Newest(k)) {
    } else {
      RunSinceRestart(rules, Older(k));
      assert Before(Since(k)) == Since(Older(k));
    }
  }

  /** No digest, one configuration, and the target never forgotten. */
  ghost predicate Steady(rules: Rules, h: Schedule, name: string) {
    && Regular(h) && NoDigest(h) && Persistence.SameRules(h, rules) && ClockForward(h) && Remembered(h, name)
  }

  lemma {:induction false} NeverRestarts(h: Schedule, name: string)
    requires Regular(h) && NoDigest(h) && ClockForward(h) && Remembered(h, name)
    ensures var k := Committed(h, name);
            && Base(k) == NEW_STATE && Opening(k) == [] && |Since(k)| == |k|
            && forall rules :: Persistence.SameRules(h, rules) ==> RulesSince(rules, k)
  {
    hide Commits, Saved;
    if h == [] {
    } else {
      var k, before := Committed(h, name), Committed(Earlier(h), name);
      NeverRestarts(Earlier(h), name);
      forall rules | Persistence.SameRules(h, rules) ensures Final(h).rules == rules {
        assert h[|h| - 1].c.rules == rules;
      }
      forall rules | Persistence.SameRules(h, rules) ensures Persistence.SameRules(Earlier(h), rules) {
      }
      if !Checks(Final(h), name) {
        RememberedStays(h, name);
      }
      if k != before {
        assert Older(k) == before;
      }
    }
  }

  lemma RememberedStays(h: Schedule, name: string)
    requires h != [] && ClockForward(h) && Remembered(h, name) && Regular(h) && !Checks(Final(h), name)
    ensures name in Saved(map[], Earlier(h)) ==> name in Saved(map[], h)
  {
    hide After;
    RetainedExactly(h, name);
    if Earlier(h) != [] {
      RetainedExactly(Earlier(h), name);
    }
  }

  /** Then the store and the log of delivered events are those described by streaks and past alerts. */
  lemma StoredIsDescribed(rules: Rules, h: Schedule, name: string)
    requires Steady(rules, h, name)
    ensures var past := Since(Committed(h, name));
            && Unstamped(Stored(map[], h, name)) == Described(rules, past)
            && OwnLog(map[], h, name) == AllDescribed(rules, past)
  {
    hide Described, Committed, OwnLog, Stored, Run, Base, Since, Opening, ToldSince, RulesSince, Told, Outcome;
    var k := Committed(h, name);
    CommittedRefinement(h, name);
    NeverRestarts(h, name);
    RunSinceRestart(rules, k);
    OpeningThenSince(k);
    HistoryRefinement(rules, Since(k));
    ReportedIsDescribed(rules, Since(k));
  }

  ghost function AllDescribed(rules: Rules, h: Past): seq<Event> {
    if h == [] then [] else AllDescribed(rules, Before(h)) + DescribedEvents(rules, h)
  }

  lemma {:induction false} ReportedIsDescribed(rules: Rules, h: Past)
    ensures AllReported(rules, NEW_STATE, h) == AllDescribed(rules, h)
  {
    hide Reported, DescribedEvents, Described;
    if h == [] {
    } else {
      ReportedIsDescribed(rules, Before(h));
      HistoryRefinement(rules, h);
    }
  }

  // ---- What is active, by streaks, in every run ----

  /** For how many committed sightings in a row, up to now, the problem has been observed. */
  ghost function SightingStreak(k: Record, key: string): nat {
    if k == [] || Newest(k).Forgotten? || key !in Newest(k).step.obs.problems then 0
    else (if Newest(k).digest then 0 else SightingStreak(Older(k), key)) + 1
  }

  /** At some sighting of that streak it was long enough for the rules then in force. */
  ghost predicate Promoted(k: Record, key: string) {
    && SightingStreak(k, key) > 0
    && (|| SightingStreak(k, key) >= Threshold(Newest(k).rules)
        || (!Newest(k).digest && Promoted(Older(k), key)))
  }

  lemma {:induction false} OutcomeByStreak(k: Record, key: string)
    ensures key in Outcome(k).activeAlerts <==> Promoted(k, key)
    ensures !Promoted(k, key) ==> PendingCount(Outcome(k), key) == SightingStreak(k, key)
  {
    hide NextState;
    if k == [] || Newest(k).Forgotten? {
    } else {
      var rules, p, step := Newest(k).rules, Starting(k), Newest(k).step;
      OutcomeByStreak(Older(k), key);
      NextByKey(rules, p, step.obs, step.now, key);
    }
  }

  lemma NextByKey(rules: Rules, p: TargetState, o: Observation, now: Time, key: string)
    ensures var s := NextState(rules, p, o, now);
            && (key in s.activeAlerts <==> key in o.problems && Confirms(rules, p, key))
            && (key !in s.activeAlerts ==>
                  PendingCount(s, key) == if key in o.problems then PendingCount(p, key) + 1 else 0)
  {
    ActiveIsNewActive(rules, p, o, now);
    assert key in NextState(rules, p, o, now).activeAlerts <==> key in NextState(rules, p, o, now).Active();
  }

  /**
   * In every run a problem is stored as active exactly when it has been observed at enough committed
   * sightings in a row, or at a digest and at every one since; otherwise its streak is pending.
   */
  lemma StoredByStreak(h: Schedule, name: string, key: string)
    requires Regular(h)
    ensures var s, k := Stored(map[], h, name), Committed(h, name);
            && (key in s.activeAlerts <==> Promoted(k, key))
            && (!Promoted(k, key) ==> PendingCount(s, key) == SightingStreak(k, key))
  {
    hide Committed, Stored, Outcome, Promoted, SightingStreak;
    CommittedRefinement(h, name);
    OutcomeByStreak(Committed(h, name), key);
  }

  // ---- Every recovery follows a delivered alert ----

  /** Every sighting of the target in the run is one of this target as configured. */
  ghost predicate Follows(t: Target, h: Schedule) {
    forall i, j :: 0 <= i < |h| && 0 <= j < |h[i].c.sightings| && h[i].c.sightings[j].name == t.name ==>
      Sighted(t, h[i].c.sightings[j])
  }

  lemma SightedIsGenuine(t: Target, o: Observation)
    requires Sighted(t, o)
    ensures Proper(o) && Keyed(o) && o.name == t.name
    ensures o.muted ==> o.downKey == UnreachableKey(t.name) && ExpectsUnreachable(t)
  {
    hide Proper, Keyed;
    var r: CheckResult :| r.target == t && o == Observe(r);
    ObserveProper(r);
  }

  /** The key of the one problem of this target that is never alerted. */
  ghost function Exempt(t: Target): set<string> {
    if ExpectsUnreachable(t) then {UnreachableKey(t.name)} else {}
  }

  lemma ExemptIsNotAlerted(t: Target, c: Inspection, s: TargetState, o: Observation, key: string)
    requires Sighted(t, o) && key in Exempt(t)
    ensures key !in AlertedKeys(EventsFor(c, s, o))
  {
    hide Emitted, Sighted, Proper, Keyed, UnreachableKey;
    SightedIsGenuine(t, o);
    AlertReported(RulesOf(c), PreviousOf(c, s), o, c.now, key);
    if key in o.problems {
      MutedExactly(t, o, key);
    }
  }

  lemma {:induction false} ExemptNeverDelivered(t: Target, h: Schedule, key: string)
    requires Regular(h) && Follows(t, h) && key in Exempt(t)
    ensures key !in AlertedKeys(OwnLog(map[], h, t.name))
  {
    hide StateFor, EventsFor, Stored, OwnLog, AlertedKeys, Exempt, Sighted;
    if h == [] {
      NothingLogged(t.name);
    } else {
      var c, s, log := Final(h), Stored(map[], Earlier(h), t.name), OwnLog(map[], Earlier(h), t.name);
      ExemptNeverDelivered(t, Earlier(h), key);
      TargetStep(map[], h, t.name);
      forall i | 0 <= i < |c.sightings| && c.sightings[i].name == t.name
        ensures key !in AlertedKeys(log + EventsFor(c, s, c.sightings[i]))
      {
        assert Sighted(t, h[|h| - 1].c.sightings[i]);
        AlertedKeysConcat(log, EventsFor(c, s, c.sightings[i]));
        ExemptIsNotAlerted(t, c, s, c.sightings[i], key);
      }
    }
  }

  lemma NothingLogged(name: string)
    ensures AlertedKeys(OwnLog(map[], [], name)) == {}
  {
    NothingOwned(name);
    NoAlertsInNothing();
  }

  /** What a reader has open was alerted. */
  lemma {:induction false} OpenWasAlerted(events: seq<Event>)
    ensures ReplayFrom({}, events) <= AlertedKeys(events)
  {
    hide AlertedKeys;
    if events == [] {
    } else {
      var front, last := events[..|events| - 1], events[|events| - 1];
      assert events == front + [last];
      OpenWasAlerted(front);
      AlertedKeysConcat(front, [last]);
      if last.kind.Alertable() {
        AlertInLog([last], last);
      }
    }
  }

  lemma FollowsMuted(t: Target, h: Schedule)
    requires Follows(t, h)
    ensures MutedWithin(h, t.name, Exempt(t))
  {
    hide Sighted;
    forall i, j | 0 <= i < |h| && 0 <= j < |h[i].c.sightings|
                  && h[i].c.sightings[j].name == t.name && h[i].c.sightings[j].muted
      ensures h[i].c.sightings[j].downKey in Exempt(t)
    {
      SightedIsGenuine(t, h[i].c.sightings[j]);
    }
  }

  /**
   * In every run, whenever the daemon announces that a problem of a target has cleared, a reader of
   * the delivered events has that problem open: it was alerted, and no recovery or outage has been
   * reported since. The one exception is an outage the target expects, of which no alert was ever
   * delivered.
   */
  lemma DeliveredRecoveryFollowsAlert(t: Target, h: Schedule, rules: Rules, o: Observation, key: string)
    requires Regular(h) && Follows(t, h)
    requires key in Cleared(rules, Stored(map[], h, t.name), o)
    ensures var log, exempt := OwnLog(map[], h, t.name), key == UnreachableKey(t.name) && ExpectsUnreachable(t);
            && (key in ReplayFrom({}, log) <==> !exempt)
            && (key in AlertedKeys(log) <==> !exempt)
  {
    hide OwnLog, Stored, Sighted, Follows, UnreachableKey, AlertedKeys, ReplayFrom, MutedWithin, NewActive;
    FollowsMuted(t, h);
    ReplayContainsUnmuted(h, t.name, Exempt(t));
    OpenWasAlerted(OwnLog(map[], h, t.name));
    if key in Exempt(t) {
      ExemptNeverDelivered(t, h, key);
    }
  }
}
