/**
 * The stored state never claims an alert that was not delivered: each alert it holds is stamped with
 * the time of a cycle that delivered it. The claim is stated against a log of the cycles no sink
 * refused, and the exact lists of targets it holds for are given.
 */
module Honesty {
  import opened Common
  import opened Models
  import opened Strings
  import opened State
  import opened Evaluator
  import opened Reports
  import opened Scheduler
  import opened Cycles

  /** The keys alerted somewhere in a log. */
  function AlertedKeys(log: seq<Event>): set<string> {
    set e | e in log && e.kind.Alertable() :: e.Key()
  }

  lemma AlertedKeysConcat(a: seq<Event>, b: seq<Event>)
    ensures AlertedKeys(a + b) == AlertedKeys(a) + AlertedKeys(b)
  {
    assert forall e :: e in a + b <==> e in a || e in b;
  }

  lemma AlertInLog(log: seq<Event>, e: Event)
    requires e in log && e.kind.Alertable()
    ensures e.Key() in AlertedKeys(log)
  {
  }

  /** The events of one cycle that no sink refused, and the time of the cycle. */
  datatype Delivery = Delivery(at: Time, events: seq<Event>)

  type Log = seq<Delivery>

  /** A cycle at this very time delivered an alert for the key. */
  ghost predicate AlertedAt(log: Log, key: string, at: Time) {
    exists i :: 0 <= i < |log| && log[i].at == at && key in AlertedKeys(log[i].events)
  }

  /** Each alert the state claims to have sent is stamped with the time of a cycle that delivered it. */
  ghost predicate Truthful(s: TargetState, log: Log) {
    forall key :: key in s.activeAlerts ==> key in s.notifiedAt && AlertedAt(log, key, s.notifiedAt[key])
  }

  ghost predicate Honest(store: States, log: Log) {
    forall name :: name in store ==> Truthful(store[name], log)
  }

  /** The log after a cycle: a cycle that had no events, or that some sink did not take in full, adds nothing. */
  ghost function LogAfter(c: Inspection, start: States, accepted: bool, log: Log): Log {
    var events := Folded(c, start).events;
    if accepted && events != [] then log + [Delivery(c.now, events)] else log
  }

  lemma TruthfulLonger(s: TargetState, log: Log, more: Log)
    requires Truthful(s, log)
    ensures Truthful(s, log + more)
  {
    hide AlertedKeys;
    forall key | key in s.activeAlerts ensures AlertedAt(log + more, key, s.notifiedAt[key]) {
      var i :| 0 <= i < |log| && log[i].at == s.notifiedAt[key] && key in AlertedKeys(log[i].events);
      assert (log + more)[i] == log[i];
    }
  }

  /** An active problem of the new state is alerted and stamped now, or was active with the same stamp before. */
  lemma ActiveIsAlertedOrOld(rules: Rules, p: TargetState, o: Observation, now: Time, key: string)
    requires Proper(o) && Keyed(o) && !o.muted
    requires key in NextState(rules, p, o, now).activeAlerts
    requires key in p.activeAlerts ==> key in p.notifiedAt
    ensures var stamps := NextState(rules, p, o, now).notifiedAt;
            && key in stamps
            && (|| (stamps[key] == now && key in AlertedKeys(Emitted(rules, p, o, now)))
                || (key in p.activeAlerts && stamps[key] == p.notifiedAt[key]))
  {
    hide NewActive, AlertedKeys, Emitted, SortSet, ForceFull;
    ActiveIsNewActive(rules, p, o, now);
    assert key in NextState(rules, p, o, now).Active();
    if key in Alerted(rules, p, o, now) {
      AlertReported(rules, p, o, now, key);
      var e :| e in Emitted(rules, p, o, now) && e.kind.Alertable() && e.Key() == key;
      AlertInLog(Emitted(rules, p, o, now), e);
    }
  }

  lemma StateForTruthful(c: Inspection, s: TargetState, o: Observation, log: Log)
    requires Proper(o) && Keyed(o) && !o.muted && Truthful(s, log)
    ensures forall key :: key in StateFor(c, s, o).activeAlerts ==>
              && key in StateFor(c, s, o).notifiedAt
              && (|| (StateFor(c, s, o).notifiedAt[key] == c.now && key in AlertedKeys(EventsFor(c, s, o)))
                  || AlertedAt(log, key, StateFor(c, s, o).notifiedAt[key]))
  {
    hide NextState, Emitted, AlertedKeys, AlertedAt, Proper, Keyed;
    forall key | key in StateFor(c, s, o).activeAlerts
      ensures && key in StateFor(c, s, o).notifiedAt
              && (|| (StateFor(c, s, o).notifiedAt[key] == c.now && key in AlertedKeys(EventsFor(c, s, o)))
                  || AlertedAt(log, key, StateFor(c, s, o).notifiedAt[key]))
    {
      ActiveIsAlertedOrOld(RulesOf(c), PreviousOf(c, s), o, c.now, key);
    }
  }

  /** A target whose evaluation is taken over is truthful about a log that includes its events. */
  lemma TakenOver(c: Inspection, s: TargetState, o: Observation, log: Log, log': Log)
    requires Proper(o) && Keyed(o) && !o.muted && Truthful(s, log) && log <= log'
    requires AlertedKeys(EventsFor(c, s, o)) != {} ==>
               log' != [] && log'[|log'| - 1].at == c.now
               && AlertedKeys(EventsFor(c, s, o)) <= AlertedKeys(log'[|log'| - 1].events)
    ensures Truthful(StateFor(c, s, o), log')
  {
    StateForTruthful(c, s, o, log);
    hide StateFor, EventsFor, AlertedKeys, Proper, Keyed;
    var next := StateFor(c, s, o);
    forall key | key in next.activeAlerts ensures AlertedAt(log', key, next.notifiedAt[key]) {
      if AlertedAt(log, key, next.notifiedAt[key]) {
        var i :| 0 <= i < |log| && log[i].at == next.notifiedAt[key] && key in AlertedKeys(log[i].events);
        assert log'[i] == log[i];
      } else {
        assert log'[|log'| - 1].at == next.notifiedAt[key];
      }
    }
  }

  lemma OwnWithin(events: seq<Event>, name: string)
    ensures AlertedKeys(Own(events, name)) <= AlertedKeys(events)
  {
    forall e | e in Own(events, name) ensures e in events {
      OwnMembers(events, name, e);
    }
  }

  /**
   * One completed cycle keeps the store honest, whatever the checks find, whoever the sinks fail,
   * digest or not, when names are distinct and no unreachable target is expected to be so.
   */
  lemma HonestCycle(c: Inspection, start: States, accepted: bool, log: Log)
    requires Genuine(c) && Distinct(c) && Honest(start, log)
    requires forall i :: 0 <= i < |c.sightings| ==> !c.sightings[i].muted
    ensures Honest(After(c, start, accepted), LogAfter(c, start, accepted, log))
  {
    hide After, Folded, Truthful;
    var log' := LogAfter(c, start, accepted, log);
    forall name | name in After(c, start, accepted)
      ensures Truthful(After(c, start, accepted)[name], log')
    {
      if Checks(c, name) {
        var i :| 0 <= i < |c.sightings| && c.sightings[i].name == name;
        HonestTarget(c, start, accepted, log, i);
      } else {
        AfterUnchecked(c, start, accepted, name);
        LogGrows(c, start, accepted, log);
        TruthfulLonger(start[name], log, log'[|log|..]);
      }
    }
  }

  lemma LogGrows(c: Inspection, start: States, accepted: bool, log: Log)
    ensures var log' := LogAfter(c, start, accepted, log);
            log <= log' && log' == log + log'[|log|..]
  {
  }

  lemma NewIsTruthful(log: Log)
    ensures Truthful(NEW_STATE, log)
  {
  }

  lemma HonestTarget(c: Inspection, start: States, accepted: bool, log: Log, i: nat)
    requires Genuine(c) && Distinct(c) && Honest(start, log)
    requires i < |c.sightings| && !c.sightings[i].muted
    ensures c.sightings[i].name in After(c, start, accepted)
    ensures Truthful(After(c, start, accepted)[c.sightings[i].name], LogAfter(c, start, accepted, log))
  {
    hide After, Folded, EventsFor, StateFor, AlertedKeys, Truthful, Proper, Keyed;
    var o, events, log' := c.sightings[i], Folded(c, start).events, LogAfter(c, start, accepted, log);
    var s := Lookup(start, o.name);
    AfterChecked(c, start, accepted, i);
    CycleEvents(c, start, i);
    OwnWithin(events, o.name);
    NoAlertsInNothing();
    LogGrows(c, start, accepted, log);
    NewIsTruthful(log);
    if Delivered(c, start, accepted) || EventsFor(c, s, o) == [] {
      TakenOver(c, s, o, log, log');
    } else {
      TruthfulLonger(s, log, log'[|log|..]);
      TruthfulIgnoresLastSeen(s, log', Some(c.now));
    }
  }

  lemma TruthfulIgnoresLastSeen(s: TargetState, log: Log, seen: Option<Time>)
    requires Truthful(s, log)
    ensures Truthful(s.(lastSeen := seen), log)
  {
  }

  lemma NoAlertsInNothing()
    ensures AlertedKeys([]) == {}
  {
  }

  // ---- Exactly which lists of targets are safe ----

  /** Checking exactly these targets in one cycle keeps every honest store honest. */
  ghost predicate NeverOverclaims(targets: seq<Target>) {
    forall c: Inspection, results: seq<CheckResult>, start: States, accepted: bool, log: Log ::
      ResultsOf(targets, c, results) ==> KeepsHonest(c, start, accepted, log)
  }

  ghost predicate KeepsHonest(c: Inspection, start: States, accepted: bool, log: Log) {
    Honest(start, log) ==> Honest(After(c, start, accepted), LogAfter(c, start, accepted, log))
  }

  ghost predicate ResultsOf(targets: seq<Target>, c: Inspection, results: seq<CheckResult>) {
    && |results| == |targets|
    && (forall i :: 0 <= i < |targets| ==> results[i].target == targets[i])
    && c.sightings == Observations(results)
  }

  ghost predicate SafeTargets(targets: seq<Target>) {
    DistinctNames(targets) && forall t :: t in targets ==> !ExpectsUnreachable(t)
  }

  /**
   * The exact condition: a list of targets is safe if and only if no two share a name and none
   * expects to be unreachable.
   */
  lemma NeverOverclaimsExactly(targets: seq<Target>)
    ensures NeverOverclaims(targets) <==> SafeTargets(targets)
  {
    if SafeTargets(targets) {
      forall c: Inspection, results: seq<CheckResult>, start: States, accepted: bool, log: Log
        | ResultsOf(targets, c, results)
        ensures KeepsHonest(c, start, accepted, log)
      {
        SafeSightings(targets, c, results);
        if Honest(start, log) {
          HonestCycle(c, start, accepted, log);
        }
      }
    } else {
      UnsafeOverclaims(targets);
      hide Honest, After, LogAfter;
      assert ResultsOf(targets, AllDown(targets), DownResults(targets));
      assert !KeepsHonest(AllDown(targets), map[], false, []);
    }
  }

  lemma SafeSightings(targets: seq<Target>, c: Inspection, results: seq<CheckResult>)
    requires SafeTargets(targets) && ResultsOf(targets, c, results)
    ensures Genuine(c) && Distinct(c) && forall i :: 0 <= i < |c.sightings| ==> !c.sightings[i].muted
  {
    ResultsAreGenuine(c.rules, c.reportAll, c.now, results);
    hide IndexByKey, DetectProblems;
    forall i | 0 <= i < |c.sightings|
      ensures c.sightings[i].name == targets[i].name && !c.sightings[i].muted
    {
      assert c.sightings[i] == Observe(results[i]) && results[i].target in targets;
    }
  }

  // ---- The counterexample for every other list: all targets down, first cycle, sinks failing ----

  function DownResult(t: Target): CheckResult {
    CheckResult(t, false, Status.Unreachable, 1, None, None, None, None, None, None, Document(None, [], [], []))
  }

  function DownResults(targets: seq<Target>): seq<CheckResult> {
    seq(|targets|, i requires 0 <= i < |targets| => DownResult(targets[i]))
  }

  function AllDown(targets: seq<Target>): Inspection {
    Inspection(Rules(None, 1), false, 0.0, Observations(DownResults(targets)))
  }

  /** A first cycle, with threshold 1, in which every one of these targets is unreachable. */
  ghost predicate DownCycle(targets: seq<Target>, c: Inspection) {
    && c.rules == Rules(None, 1) && !c.reportAll && c.now == 0.0 && Genuine(c)
    && |c.sightings| == |targets|
    && forall i {:trigger c.sightings[i]} :: 0 <= i < |targets| ==>
         DownSighting(targets[i], c.sightings[i])
  }

  ghost predicate DownSighting(t: Target, o: Observation) {
    && !o.reachable && o.name == t.name && o.problems.Keys == {o.downKey}
    && o.downKey == UnreachableKey(o.name) && o.muted == ExpectsUnreachable(t)
  }

  lemma AllDownIsDown(targets: seq<Target>)
    ensures DownCycle(targets, AllDown(targets))
  {
    ResultsAreGenuine(Rules(None, 1), false, 0.0, DownResults(targets));
    hide DetectProblems, IndexByKey, UnreachableKey, Proper, Keyed;
    forall i | 0 <= i < |targets| ensures DownSighting(targets[i], AllDown(targets).sightings[i]) {
      assert AllDown(targets).sightings[i] == Observe(DownResult(targets[i]));
    }
  }

  /** Evaluating an unreachable target with threshold 1 leaves it active, with nothing pending. */
  lemma DownState(rules: Rules, p: TargetState, o: Observation, now: Time)
    requires rules.failureThreshold == 1 && p.pending == map[] && o.problems.Keys == {o.downKey}
    ensures NextState(rules, p, o, now).Active() == {o.downKey}
    ensures NextState(rules, p, o, now).pending == map[]
    ensures o.muted || (!o.reachable && o.downKey in p.activeAlerts && rules.renotifyAfter.None?) ==>
              !o.reachable ==> Emitted(rules, p, o, now) == []
  {
    NextKeys(rules, p, o, now);
    assert NewActive(rules, p, o) == {o.downKey};
    var none: set<string> := {};
    if o.muted || (!o.reachable && o.downKey in p.activeAlerts && rules.renotifyAfter.None?) {
      assert Alerted(rules, p, o, now) == none;
      if !o.reachable {
        assert Cleared(rules, p, o) == none;
        SortSetUnique(none, []);
      }
    }
  }

  ghost predicate Down(s: TargetState, name: string) {
    s.Active() == {UnreachableKey(name)} && s.pending == map[]
  }

  /** How many of the first n targets bear the name. */
  function Times(targets: seq<Target>, n: nat, name: string): nat
    requires n <= |targets|
  {
    if n == 0 then 0 else Times(targets, n - 1, name) + if targets[n - 1].name == name then 1 else 0
  }

  lemma {:induction false} TimesAtLeast(targets: seq<Target>, n: nat, i: nat)
    requires i < n <= |targets|
    ensures Times(targets, n, targets[i].name) >= 1
    ensures forall j :: i < j < n && targets[j].name == targets[i].name ==> Times(targets, n, targets[i].name) >= 2
  {
    if i < n - 1 {
      TimesAtLeast(targets, n - 1, i);
    }
  }

  /** A name checked so many times is down, and was already down before its last check if that was not the first. */
  ghost predicate DownAfter(f: Fold, name: string, times: nat) {
    && (name in f.store <==> times > 0)
    && (name in f.stored <==> times > 0)
    && (times > 0 ==> Down(f.store[name], name) && f.store[name].lastSeen == Some(0.0))
    && (times > 1 ==> Down(f.stored[name], name))
  }

  lemma DownStart(c: Inspection, name: string)
    ensures DownAfter(FoldResults(c, map[], 0), name, 0)
  {
  }

  lemma DownUpdate(f: Fold, f': Fold, last: string, st: TargetState, name: string, times: nat)
    requires DownAfter(f, name, times) && Down(st, last) && st.lastSeen == Some(0.0)
    requires f'.store == f.store[last := st] && f'.stored == f.stored[last := Lookup(f.store, last)]
    ensures DownAfter(f', name, if last == name then times + 1 else times)
  {
    hide Down;
  }

  lemma {:induction false} DownFold(targets: seq<Target>, c: Inspection, n: nat, name: string)
    requires n <= |targets| && DownCycle(targets, c)
    ensures DownAfter(FoldResults(c, map[], n), name, Times(targets, n, name))
  {
    hide FoldResults, Genuine, DownSighting, DownAfter, Down, Lookup, StateFor, EventsFor;
    if n == 0 {
      DownStart(c, name);
      return;
    }
    DownFold(targets, c, n - 1, name);
    DownFold(targets, c, n - 1, targets[n - 1].name);
    var st := DownStep(targets, c, n);
    DownUpdate(FoldResults(c, map[], n - 1), FoldResults(c, map[], n), targets[n - 1].name, st, name,
               Times(targets, n - 1, name));
  }

  lemma DownStep(targets: seq<Target>, c: Inspection, n: nat) returns (st: TargetState)
    requires 0 < n <= |targets| && DownCycle(targets, c)
    requires DownAfter(FoldResults(c, map[], n - 1), targets[n - 1].name, Times(targets, n - 1, targets[n - 1].name))
    ensures var f, f', name := FoldResults(c, map[], n - 1), FoldResults(c, map[], n), targets[n - 1].name;
            f'.store == f.store[name := st] && f'.stored == f.stored[name := Lookup(f.store, name)]
    ensures Down(st, targets[n - 1].name) && st.lastSeen == Some(0.0)
  {
    hide FoldResults, NextState, Emitted, UnreachableKey;
    var f, o := FoldResults(c, map[], n - 1), c.sightings[n - 1];
    var s := Lookup(f.store, o.name);
    DownState(RulesOf(c), PreviousOf(c, s), o, c.now);
    st := StateFor(c, s, o);
    FoldStep(c, map[], n - 1, o);
  }

  /** A target that expects to be unreachable and shares its name with no other produces no event. */
  lemma {:induction false} MutedIsSilent(targets: seq<Target>, c: Inspection, n: nat, j: nat)
    requires j < |targets| && n <= |targets| && ExpectsUnreachable(targets[j]) && DownCycle(targets, c)
    requires forall i :: 0 <= i < |targets| && i != j ==> targets[i].name != targets[j].name
    ensures targets[j].name !in EventTargets(FoldResults(c, map[], n).events)
  {
    if n == 0 {
      return;
    }
    hide FoldResults, EventTargets, Genuine, DownSighting, EventsFor;
    MutedIsSilent(targets, c, n - 1, j);
    SilentStep(targets, c, n, targets[j].name);
  }

  lemma SilentStep(targets: seq<Target>, c: Inspection, n: nat, name: string)
    requires 0 < n <= |targets| && DownCycle(targets, c)
    requires targets[n - 1].name == name ==> ExpectsUnreachable(targets[n - 1])
    requires name !in EventTargets(FoldResults(c, map[], n - 1).events)
    ensures name !in EventTargets(FoldResults(c, map[], n).events)
  {
    hide FoldResults, NextState, Emitted, UnreachableKey, Own, EventTargets, Down;
    var f, o := FoldResults(c, map[], n - 1), c.sightings[n - 1];
    var s := Lookup(f.store, o.name);
    DownFold(targets, c, n - 1, o.name);
    DownPending(f, o.name, Times(targets, n - 1, o.name));
    DownState(RulesOf(c), PreviousOf(c, s), o, c.now);
    FoldStep(c, map[], n - 1, o);
    EventsForTarget(c, s, o, name);
    OwnEmpty(EventsFor(c, s, o), name);
    EventTargetsConcat(f.events, EventsFor(c, s, o));
  }

  lemma DownPending(f: Fold, name: string, times: nat)
    requires DownAfter(f, name, times)
    ensures Lookup(f.store, name).pending == map[]
  {
  }

  lemma EventTargetsConcat(a: seq<Event>, b: seq<Event>)
    ensures EventTargets(a + b) == EventTargets(a) + EventTargets(b)
  {
    assert forall e :: e in a + b <==> e in a || e in b;
  }

  lemma UnsafeOverclaims(targets: seq<Target>)
    requires !SafeTargets(targets)
    ensures Honest(map[], [])
    ensures !Honest(After(AllDown(targets), map[], false), LogAfter(AllDown(targets), map[], false, []))
  {
    hide AllDown, After, LogAfter, FoldResults;
    var c := AllDown(targets);
    var f := Folded(c, map[]);
    var name;
    AllDownIsDown(targets);
    if !DistinctNames(targets) {
      var i, j :| 0 <= i < j < |targets| && targets[i].name == targets[j].name;
      name := targets[i].name;
      TimesAtLeast(targets, |targets|, i);
      DownFold(targets, c, |targets|, name);
    } else {
      var t :| t in targets && ExpectsUnreachable(t);
      var j :| 0 <= j < |targets| && targets[j] == t;
      name := t.name;
      TimesAtLeast(targets, |targets|, j);
      DownFold(targets, c, |targets|, name);
      MutedIsSilent(targets, c, |targets|, j);
    }
    OverclaimedKey(c, f, name);
  }

  lemma OverclaimedKey(c: Inspection, f: Fold, name: string)
    requires f == Folded(c, map[]) && c.now == 0.0
    requires name in f.store && Down(f.store[name], name) && f.store[name].lastSeen == Some(0.0)
    requires name in f.stored && (Down(f.stored[name], name) || name !in EventTargets(f.events))
    ensures !Honest(After(c, map[], false), LogAfter(c, map[], false, []))
  {
    hide Folded;
    var saved := if f.events == [] then f.store else RolledBack(f, c.now);
    assert name in saved && saved[name].Active() == {UnreachableKey(name)} && saved[name].lastSeen == Some(0.0);
    Survives(saved, c.now, name);
    NoAlertsInNothing();
    assert UnreachableKey(name) in After(c, map[], false)[name].Active();
  }
}
