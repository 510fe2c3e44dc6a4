/** Every store a run of cycles saves is read back unchanged by the next cycle. */
module Persistence {
  import opened Common
  import opened Models
  import opened Strings
  import opened State
  import opened Evaluator
  import opened Reports
  import opened Scheduler
  import opened Runs

  ghost predicate AllSorted(states: States) {
    forall name :: name in states ==> Sorted(states[name].activeAlerts)
  }

  lemma StateForSorted(c: Inspection, s: TargetState, o: Observation)
    ensures Sorted(StateFor(c, s, o).activeAlerts)
  {
    hide Sorted, StrictlySorted, SortSet;
    var active := NewActive(RulesOf(c), PreviousOf(c, s), o);
    SortSetStrictlySorted(active);
    StrictlySortedIsSorted(SortSet(active));
  }

  lemma NewStateSorted()
    ensures Sorted(NEW_STATE.activeAlerts)
  {
  }

  lemma {:induction false} FoldSorted(c: Inspection, start: States, n: nat)
    requires n <= |c.sightings| && AllSorted(start)
    ensures AllSorted(FoldResults(c, start, n).store) && AllSorted(FoldResults(c, start, n).stored)
  {
    hide StateFor, EventsFor, Sorted;
    if n == 0 {
    } else {
      var f, o := FoldResults(c, start, n - 1), c.sightings[n - 1];
      FoldSorted(c, start, n - 1);
      NewStateSorted();
      StateForSorted(c, Lookup(f.store, o.name), o);
    }
  }

  lemma AfterSorted(c: Inspection, start: States, accepted: bool)
    requires AllSorted(start)
    ensures AllSorted(After(c, start, accepted))
  {
    hide FoldResults, EventTargets, Sorted;
    FoldSorted(c, start, |c.sightings|);
  }

  /** What a run saved is exactly what the next cycle loads. */
  lemma {:induction false} SavedReloads(h: Schedule)
    ensures AllSorted(Saved(map[], h))
    ensures Loaded(Some(Whole(Payload(Saved(map[], h))))) == Saved(map[], h)
  {
    hide After, Sorted, Loaded, Payload;
    if h == [] {
    } else {
      SavedReloads(Earlier(h));
      AfterSorted(Final(h), Saved(map[], Earlier(h)), h[|h| - 1].accepted);
    }
    StoreRoundTrip(Saved(map[], h));
  }

  // ---- The state invariant over whole runs ----

  ghost predicate SameRules(h: Schedule, rules: Rules) {
    forall i :: 0 <= i < |h| ==> h[i].c.rules == rules
  }

  lemma ConsistentIgnoresLastSeen(rules: Rules, downKey: string, s: TargetState, seen: Option<Time>)
    requires Consistent(rules, downKey, s)
    ensures Consistent(rules, downKey, s.(lastSeen := seen))
  {
    assert s.(lastSeen := seen).Active() == s.Active();
  }

  lemma StateForConsistent(c: Inspection, s: TargetState, o: Observation)
    requires Proper(o) && Keyed(o) && c.rules.failureThreshold >= 1
    requires forall k :: k in s.pending ==> s.pending[k] >= 0
    ensures Consistent(c.rules, UnreachableKey(o.name), StateFor(c, s, o))
  {
    hide UnreachableKey, NextState;
    var next := NextState(RulesOf(c), PreviousOf(c, s), o, c.now);
    NextStateConsistent(RulesOf(c), PreviousOf(c, s), o, c.now);
    ConsistentMonotone(RulesOf(c), c.rules, o.downKey, next);
    ConsistentIgnoresLastSeen(c.rules, o.downKey, next, Some(c.now));
  }

  /** Digests, failures, rollbacks and pruning included, every stored state satisfies the invariant. */
  lemma {:induction false} StoredConsistent(rules: Rules, h: Schedule, name: string)
    requires Regular(h) && SameRules(h, rules) && rules.failureThreshold >= 1
    ensures Consistent(rules, UnreachableKey(name), Stored(map[], h, name))
  {
    hide UnreachableKey, StateFor, EventsFor, OwnLog;
    NewStateConsistent(rules, UnreachableKey(name));
    if h == [] {
    } else {
      StoredConsistent(rules, Earlier(h), name);
      hide Consistent;
      TargetStep(map[], h, name);
      var c, s := Final(h), Stored(map[], Earlier(h), name);
      ConsistentIgnoresLastSeen(rules, UnreachableKey(name), s, Some(c.now));
      PendingNotNegative(rules, UnreachableKey(name), s);
      forall i | 0 <= i < |c.sightings| && c.sightings[i].name == name
        ensures Consistent(rules, UnreachableKey(name), StateFor(c, s, c.sightings[i]))
      {
        StateForConsistent(c, s, c.sightings[i]);
      }
    }
  }

  lemma PendingNotNegative(rules: Rules, downKey: string, s: TargetState)
    requires Consistent(rules, downKey, s)
    ensures forall k :: k in s.pending ==> s.pending[k] >= 0
  {
  }
}
