/** What one completed cycle does to each target, when no two targets share a name. */
module Cycles {
  import opened Common
  import opened Models
  import opened State
  import opened Evaluator
  import opened Reports
  import opened Verdicts
  import opened Scheduler

  /** Every sighting is one a check can make. */
  ghost predicate Genuine(c: Inspection) {
    forall i :: 0 <= i < |c.sightings| ==> Proper(c.sightings[i]) && Keyed(c.sightings[i])
  }

  ghost predicate Distinct(c: Inspection) {
    forall i, j :: 0 <= i < j < |c.sightings| ==> c.sightings[i].name != c.sightings[j].name
  }

  ghost predicate Checks(c: Inspection, name: string) {
    exists i :: 0 <= i < |c.sightings| && c.sightings[i].name == name
  }

  /** What the cycle sees of a target it checks. */
  ghost function SightingOf(c: Inspection, name: string): (o: Observation)
    requires Checks(c, name)
    ensures o in c.sightings && o.name == name
  {
    var i :| 0 <= i < |c.sightings| && c.sightings[i].name == name;
    c.sightings[i]
  }

  lemma ResultsAreGenuine(rules: Rules, reportAll: bool, now: Time, results: seq<CheckResult>)
    ensures Genuine(Inspection(rules, reportAll, now, Observations(results)))
  {
    forall i | 0 <= i < |results| ensures Proper(Observe(results[i])) && Keyed(Observe(results[i])) {
      ObserveProper(results[i]);
    }
  }

  // ---- The events of one target ----

  /** The events about `name`, in order. */
  function Own(events: seq<Event>, name: string): seq<Event> {
    if events == [] then []
    else
      var last := events[|events| - 1];
      Own(events[..|events| - 1], name) + if last.target == name then [last] else []
  }

  lemma {:induction false} OwnConcat(a: seq<Event>, b: seq<Event>, name: string)
    ensures Own(a + b, name) == Own(a, name) + Own(b, name)
  {
    if b == [] {
      assert a + b == a;
    } else {
      assert (a + b)[..|a + b| - 1] == a + b[..|b| - 1];
      OwnConcat(a, b[..|b| - 1], name);
    }
  }

  lemma {:induction false} OwnAll(events: seq<Event>, target: string, name: string)
    requires forall e :: e in events ==> e.target == target
    ensures Own(events, name) == if target == name then events else []
  {
    if events == [] {
    } else {
      var front, last := events[..|events| - 1], events[|events| - 1];
      assert events == front + [last];
      assert last in events;
      OwnAll(front, target, name);
    }
  }

  lemma {:induction false} OwnEmpty(events: seq<Event>, name: string)
    ensures Own(events, name) == [] <==> name !in EventTargets(events)
  {
    if events == [] {
    } else {
      var front, last := events[..|events| - 1], events[|events| - 1];
      assert events == front + [last];
      OwnEmpty(front, name);
      assert EventTargets(events) == EventTargets(front) + {last.target};
    }
  }

  lemma EventsForTarget(c: Inspection, s: TargetState, o: Observation, name: string)
    requires Proper(o) && Keyed(o)
    ensures Own(EventsFor(c, s, o), name) == if o.name == name then EventsFor(c, s, o) else []
  {
    forall e | e in EventsFor(c, s, o) ensures e.target == o.name {
      EmittedMembers(RulesOf(c), PreviousOf(c, s), o, c.now, e);
    }
    OwnAll(EventsFor(c, s, o), o.name, name);
  }

  // ---- The fold, target by target ----

  lemma {:induction false} FoldUnchecked(c: Inspection, start: States, n: nat, name: string)
    requires n <= |c.sightings| && Genuine(c)
    requires forall i :: 0 <= i < n ==> c.sightings[i].name != name
    ensures var f := FoldResults(c, start, n);
            && (name in f.store <==> name in start)
            && (name in start ==> f.store[name] == start[name])
            && name !in f.stored
            && Own(f.events, name) == []
  {
    hide EventsFor, StateFor, Proper, Keyed;
    if n == 0 {
    } else {
      var f, o := FoldResults(c, start, n - 1), c.sightings[n - 1];
      FoldUnchecked(c, start, n - 1, name);
      EventsForTarget(c, Lookup(f.store, o.name), o, name);
      OwnConcat(f.events, EventsFor(c, Lookup(f.store, o.name), o), name);
    }
  }

  lemma {:induction false} FoldChecked(c: Inspection, start: States, n: nat, i: nat)
    requires i < n <= |c.sightings| && Genuine(c) && Distinct(c)
    ensures var f, o := FoldResults(c, start, n), c.sightings[i];
            var s := Lookup(start, o.name);
            && o.name in f.store && f.store[o.name] == StateFor(c, s, o)
            && o.name in f.stored && f.stored[o.name] == s
            && Own(f.events, o.name) == EventsFor(c, s, o)
  {
    hide EventsFor, StateFor, Proper, Keyed, Own;
    var f, last := FoldResults(c, start, n - 1), c.sightings[n - 1];
    var name := c.sightings[i].name;
    var added := EventsFor(c, Lookup(f.store, last.name), last);
    EventsForTarget(c, Lookup(f.store, last.name), last, name);
    OwnConcat(f.events, added, name);
    if i == n - 1 {
      FoldUnchecked(c, start, n - 1, name);
      assert Own(f.events, name) + added == added;
    } else {
      FoldChecked(c, start, n - 1, i);
    }
  }

  /** The events of a cycle about one of its targets are those of that target's own evaluation. */
  lemma CycleEvents(c: Inspection, start: States, i: nat)
    requires i < |c.sightings| && Genuine(c) && Distinct(c)
    ensures var o := c.sightings[i];
            Own(Folded(c, start).events, o.name) == EventsFor(c, Lookup(start, o.name), o)
  {
    hide EventsFor, StateFor;
    FoldChecked(c, start, |c.sightings|, i);
  }

  /**
   * A checked target is saved with its new state, unless it produced events that were not fully
   * delivered: then it keeps its old one, marked as seen now. It always survives the pruning.
   */
  lemma AfterChecked(c: Inspection, start: States, accepted: bool, i: nat)
    requires i < |c.sightings| && Genuine(c) && Distinct(c)
    ensures var o := c.sightings[i];
            var s := Lookup(start, o.name);
            && o.name in After(c, start, accepted)
            && After(c, start, accepted)[o.name]
               == if Delivered(c, start, accepted) || EventsFor(c, s, o) == [] then StateFor(c, s, o)
                  else s.(lastSeen := Some(c.now))
  {
    var f, o := Folded(c, start), c.sightings[i];
    var s := Lookup(start, o.name);
    FoldChecked(c, start, |c.sightings|, i);
    OwnEmpty(f.events, o.name);
    assert StateFor(c, s, o).lastSeen == Some(c.now);
    hide EventsFor, StateFor, FoldResults;
    var saved := if Delivered(c, start, accepted) then f.store else RolledBack(f, c.now);
    assert o.name in saved && saved[o.name].lastSeen == Some(c.now);
    Survives(saved, c.now, o.name);
  }

  lemma Survives(states: States, now: Time, name: string)
    requires name in states && states[name].lastSeen == Some(now)
    ensures name in Pruned(states, now - STATE_RETENTION_SECONDS)
    ensures Pruned(states, now - STATE_RETENTION_SECONDS)[name] == states[name]
  {
  }

  /** A target that is not checked keeps its entry until it is older than the retention. */
  lemma AfterUnchecked(c: Inspection, start: States, accepted: bool, name: string)
    requires Genuine(c) && !Checks(c, name)
    ensures var cutoff := c.now - STATE_RETENTION_SECONDS;
            && (name in After(c, start, accepted) <==> name in Pruned(start, cutoff))
            && (name in After(c, start, accepted) ==> After(c, start, accepted)[name] == start[name])
  {
    FoldUnchecked(c, start, |c.sightings|, name);
    hide EventsFor, StateFor, FoldResults;
  }

  // ---- Digests ----

  /**
   * A digest confirms whatever it observes at once, whatever was stored and however many sightings
   * are asked for in other cycles, and tells all of it.
   */
  lemma DigestConfirms(c: Inspection, s: TargetState, o: Observation)
    requires c.reportAll && Proper(o) && Keyed(o)
    ensures StateFor(c, s, o).Active() == o.problems.Keys && StateFor(c, s, o).pending == map[]
    ensures !o.muted ==> forall k :: k in o.problems ==> o.problems[k] in EventsFor(c, s, o)
  {
    hide Emitted, NextState;
    NextKeys(RulesOf(c), PreviousOf(c, s), o, c.now);
    assert NewActive(RulesOf(c), NEW_STATE, o) == o.problems.Keys;
    assert StateFor(c, s, o).Active() == NextState(RulesOf(c), PreviousOf(c, s), o, c.now).Active();
    forall k | k in o.problems && !o.muted ensures o.problems[k] in EventsFor(c, s, o) {
      EmittedMembers(RulesOf(c), PreviousOf(c, s), o, c.now, o.problems[k]);
    }
  }

  /**
   * So after a digest that no sink refused, what a check shows is stored as alerted and told, for
   * every target of the cycle; only an outage that is expected is not told.
   */
  lemma DigestShowsEverything(
    c: Inspection, results: seq<CheckResult>, start: States, accepted: bool, i: nat, kind: EventKind)
    requires c.reportAll && c.sightings == Observations(results) && Distinct(c) && i < |results|
    ensures var r, key := results[i], results[i].target.name + "|" + kind.Value();
            && (Delivered(c, start, accepted) ==>
                  && r.target.name in After(c, start, accepted)
                  && (key in After(c, start, accepted)[r.target.name].activeAlerts <==> Counts(r, kind))
                  && After(c, start, accepted)[r.target.name].pending == map[])
            && (Counts(r, kind) && (r.reachable || "unreachable" !in r.target.expected) ==>
                  Event(r.target.name, kind, SeverityOf(kind), DetailsOf(r, kind)) in Folded(c, start).events)
  {
    hide After, FoldResults, EventsFor, StateFor, Observe, Counts, SeverityOf, DetailsOf, Delivered, Proper, Keyed;
    var r, o := results[i], c.sightings[i];
    var s := Lookup(start, o.name);
    ResultsAreGenuine(c.rules, c.reportAll, c.now, results);
    assert c == Inspection(c.rules, c.reportAll, c.now, Observations(results)) && o == Observe(r);
    ObserveProper(r);
    ProblemsExactly(r, kind);
    UnmutedUnless(r);
    DigestConfirms(c, s, o);
    AfterChecked(c, start, accepted, i);
    CycleEvents(c, start, i);
    forall e | e in Own(Folded(c, start).events, o.name) ensures e in Folded(c, start).events {
      OwnMembers(Folded(c, start).events, o.name, e);
    }
    var key := AlertKey(r.target.name, kind);
    assert key in StateFor(c, s, o).activeAlerts <==> key in StateFor(c, s, o).Active();
  }

  lemma UnmutedUnless(r: CheckResult)
    ensures Observe(r).muted ==> !r.reachable && "unreachable" in r.target.expected
  {
    hide DetectProblems, IndexByKey;
  }

  lemma {:induction false} OwnMembers(events: seq<Event>, name: string, e: Event)
    ensures e in Own(events, name) <==> e in events && e.target == name
  {
    if events == [] {
    } else {
      var front, last := events[..|events| - 1], events[|events| - 1];
      assert events == front + [last];
      OwnMembers(front, name, e);
    }
  }
}
