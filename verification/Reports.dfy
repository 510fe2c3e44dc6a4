/** What the events of one cycle say about the problems of their target. */
module Reports {
  import opened Common
  import opened Models
  import opened Strings
  import opened State
  import opened Evaluator

  lemma {:induction false} EventsOfMembers(problems: map<string, Event>, keys: seq<string>, e: Event)
    ensures e in EventsOf(problems, keys) <==> exists k :: k in keys && k in problems && problems[k] == e
  {
    if keys == [] {
    } else {
      var front, last := keys[..|keys| - 1], keys[|keys| - 1];
      assert keys == front + [last];
      EventsOfMembers(problems, front, e);
    }
  }

  lemma {:induction false} ResolvedEventsMembers(name: string, keys: seq<string>, e: Event)
    ensures e in ResolvedEvents(name, keys) <==> exists k :: k in keys && e == ResolvedEvent(name, k)
  {
    if keys == [] {
    } else {
      var front, last := keys[..|keys| - 1], keys[|keys| - 1];
      assert keys == front + [last];
      ResolvedEventsMembers(name, front, e);
    }
  }

  /**
   * The report of a cycle holds the event of every alerted key and the recovery of every cleared
   * one, and otherwise nothing but the rotation; every event names the target.
   */
  lemma EmittedMembers(rules: Rules, p: TargetState, o: Observation, now: Time, e: Event)
    requires Proper(o) && Keyed(o)
    ensures e in Emitted(rules, p, o, now) <==>
              || (Rotated(p, o) && e == RotationEvents(p, o)[0])
              || (e.Key() in Alerted(rules, p, o, now) && o.problems[e.Key()] == e)
              || (exists k :: k in Cleared(rules, p, o) && e == ResolvedEvent(o.name, k))
    ensures e in Emitted(rules, p, o, now) ==> e.target == o.name
  {
    var alerted, cleared := Alerted(rules, p, o, now), Cleared(rules, p, o);
    EventsOfMembers(o.problems, SortSet(alerted), e);
    ResolvedEventsMembers(o.name, SortSet(cleared), e);
  }

  /** An alert for a key is reported exactly when the key is alerted. */
  lemma AlertReported(rules: Rules, p: TargetState, o: Observation, now: Time, key: string)
    requires Proper(o) && Keyed(o)
    ensures (exists e :: e in Emitted(rules, p, o, now) && e.kind.Alertable() && e.Key() == key)
            <==> key in Alerted(rules, p, o, now)
  {
    if key in Alerted(rules, p, o, now) {
      EmittedMembers(rules, p, o, now, o.problems[key]);
    }
    if e :| e in Emitted(rules, p, o, now) && e.kind.Alertable() && e.Key() == key {
      EmittedMembers(rules, p, o, now, e);
    }
  }

  /** A recovery of a key is reported exactly when the key is cleared. */
  lemma RecoveryReported(rules: Rules, p: TargetState, o: Observation, now: Time, key: string)
    requires Proper(o) && Keyed(o) && KeyOf(o.name, key) && forall k :: k in p.activeAlerts ==> KeyOf(o.name, k)
    ensures ResolvedEvent(o.name, key) in Emitted(rules, p, o, now) <==> key in Cleared(rules, p, o)
  {
    var e := ResolvedEvent(o.name, key);
    EmittedMembers(rules, p, o, now, e);
    if k :| k in Cleared(rules, p, o) && e == ResolvedEvent(o.name, k) {
      assert AlertKind(k) == AlertKind(key);
    }
  }

  /** The invariant of every stored state of a target. */
  ghost predicate Consistent(rules: Rules, downKey: string, s: TargetState) {
    && StrictlySorted(s.activeAlerts)
    && s.notifiedAt.Keys == s.Active()
    && s.Active() !! s.pending.Keys
    && (forall k :: k in s.pending ==> 1 <= s.pending[k] < rules.failureThreshold)
    && (downKey in s.Active() + s.pending.Keys ==> s.Active() + s.pending.Keys == {downKey})
  }

  lemma NewStateConsistent(rules: Rules, downKey: string)
    ensures Consistent(rules, downKey, NEW_STATE)
  {
  }

  /** The keys stored after an evaluation are those observed, each either active or pending. */
  lemma NextKeys(rules: Rules, p: TargetState, o: Observation, now: Time)
    ensures var s := NextState(rules, p, o, now);
            && s.Active() == s.notifiedAt.Keys == NewActive(rules, p, o)
            && s.pending.Keys == o.problems.Keys - s.Active()
            && s.Active() + s.pending.Keys == o.problems.Keys
  {
    hide Confirms, Alerted, SortSet;
    ActiveIsNewActive(rules, p, o, now);
    assert NewPending(rules, p, o).Keys == o.problems.Keys - NewActive(rules, p, o);
  }

  lemma ActiveIsNewActive(rules: Rules, p: TargetState, o: Observation, now: Time)
    ensures NextState(rules, p, o, now).Active() == NewActive(rules, p, o)
  {
    SortSetActive(NewActive(rules, p, o));
  }

  lemma SortSetActive(s: set<string>)
    ensures (set k | k in SortSet(s)) == s
  {
  }

  /** Every evaluation yields a valid state, from any state whose counters are not negative. */
  lemma NextStateConsistent(rules: Rules, p: TargetState, o: Observation, now: Time)
    requires Proper(o)
    requires forall k :: k in p.pending ==> p.pending[k] >= 0
    ensures Consistent(rules, o.downKey, NextState(rules, p, o, now))
  {
    NextKeys(rules, p, o, now);
    SortSetStrictlySorted(NewActive(rules, p, o));
  }

  /** A valid state survives being written to the state file and read back. */
  lemma ConsistentRoundTrip(rules: Rules, downKey: string, s: TargetState)
    requires Consistent(rules, downKey, s)
    ensures FromEntry(ToEntry(s)) == Some(s)
  {
    StrictlySortedIsSorted(s.activeAlerts);
    EntryRoundTrip(s);
  }

  /** A state valid under any threshold is valid under a larger one; a digest runs with threshold 1. */
  lemma ConsistentMonotone(rules: Rules, looser: Rules, downKey: string, s: TargetState)
    requires Consistent(rules, downKey, s) && rules.failureThreshold <= looser.failureThreshold
    ensures Consistent(looser, downKey, s)
  {
  }
}
