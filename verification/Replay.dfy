/** Replaying what the sinks were told about a target recovers what the store believes of it. */
module Replay {
  import opened Models
  import opened Strings
  import opened State
  import opened Evaluator
  import opened Reports
  import opened Scheduler
  import opened Cycles
  import opened Runs
  import opened Retention

  /** A reader of the events who tracks what is wrong with one target. */
  function ReplayFrom(known: set<string>, events: seq<Event>): set<string> {
    if events == [] then known
    else Heard(ReplayFrom(known, events[..|events| - 1]), events[|events| - 1])
  }

  /** An alert opens its problem, UNREACHABLE closes all others, a recovery closes its own. */
  function Heard(known: set<string>, e: Event): set<string> {
    match e.kind
    case Unreachable => {e.Key()}
    case FingerprintChanged => known
    case Recovered => if e.details.Resolved? then known - {KeyText(e.target, e.details.kindValue)} else known
    case _ => known + {e.Key()}
  }

  lemma {:induction false} ReplayConcat(known: set<string>, a: seq<Event>, b: seq<Event>)
    ensures ReplayFrom(known, a + b) == ReplayFrom(ReplayFrom(known, a), b)
  {
    if b == [] {
      assert a + b == a;
    } else {
      assert (a + b)[..|a + b| - 1] == a + b[..|b| - 1];
      ReplayConcat(known, a, b[..|b| - 1]);
    }
  }

  lemma {:induction false} ReplayAlerts(known: set<string>, o: Observation, keys: seq<string>)
    requires Proper(o) && Keyed(o) && o.reachable && Elements(keys) <= o.problems.Keys
    ensures ReplayFrom(known, EventsOf(o.problems, keys)) == known + Elements(keys)
  {
    if keys == [] {
    } else {
      var front, last := keys[..|keys| - 1], keys[|keys| - 1];
      assert keys == front + [last];
      ElementsSnoc(front, last);
      ReplayAlerts(known, o, front);
      ReplayConcat(known, EventsOf(o.problems, front), [o.problems[last]]);
      ReplayOne(ReplayFrom(known, EventsOf(o.problems, front)), o.problems[last]);
    }
  }

  lemma ElementsSnoc(keys: seq<string>, last: string)
    ensures Elements(keys + [last]) == Elements(keys) + {last}
  {
    assert forall k :: k in keys + [last] <==> k in keys || k == last;
  }

  lemma ReplayOne(known: set<string>, e: Event)
    ensures ReplayFrom(known, [e]) == Heard(known, e)
  {
    assert [e][..0] == [];
  }

  lemma {:induction false} ReplayRecoveries(known: set<string>, name: string, keys: seq<string>)
    requires forall k :: k in Elements(keys) ==> KeyOf(name, k)
    ensures ReplayFrom(known, ResolvedEvents(name, keys)) == known - Elements(keys)
  {
    if keys == [] {
    } else {
      var front, last := keys[..|keys| - 1], keys[|keys| - 1];
      assert keys == front + [last];
      ElementsSnoc(front, last);
      ReplayRecoveries(known, name, front);
      var before, e := ResolvedEvents(name, front), ResolvedEvent(name, last);
      ReplayConcat(known, before, [e]);
      ReplayOne(ReplayFrom(known, before), e);
      assert KeyText(name, AlertKind(last)) == last;
    }
  }

  lemma ReplayRotation(known: set<string>, p: TargetState, o: Observation)
    ensures ReplayFrom(known, RotationEvents(p, o)) == known
  {
    if Rotated(p, o) {
      ReplayOne(known, RotationEvents(p, o)[0]);
    }
  }

  lemma SortSetElements(s: set<string>)
    ensures Elements(SortSet(s)) == s
  {
  }

  /** What a reader makes of the report of one evaluation that reached the target. */
  lemma ReplayReachable(known: set<string>, rules: Rules, p: TargetState, o: Observation, now: Time)
    requires Proper(o) && Keyed(o) && o.reachable
    requires forall k :: k in p.activeAlerts ==> KeyOf(o.name, k)
    ensures ReplayFrom(known, Emitted(rules, p, o, now))
            == known + Alerted(rules, p, o, now) - Cleared(rules, p, o)
  {
    hide Proper, Keyed, KeyOf;
    var alerted, cleared := Alerted(rules, p, o, now), Cleared(rules, p, o);
    SortSetElements(alerted);
    SortSetElements(cleared);
    hide SortSet, Elements;
    var rotation, alerts := RotationEvents(p, o), EventsOf(o.problems, SortSet(alerted));
    ReplayRotation(known, p, o);
    ReplayAlerts(known, o, SortSet(alerted));
    ReplayRecoveries(known + alerted, o.name, SortSet(cleared));
    ReplayConcat(known, rotation, alerts);
    ReplayConcat(known, rotation + alerts, ResolvedEvents(o.name, SortSet(cleared)));
  }

  /** An unreachable target is either announced, closing everything else, or not mentioned. */
  lemma ReplayUnreachable(known: set<string>, rules: Rules, p: TargetState, o: Observation, now: Time)
    requires Proper(o) && Keyed(o) && !o.reachable
    ensures ReplayFrom(known, Emitted(rules, p, o, now))
            == if Alerted(rules, p, o, now) == {} then known else {o.downKey}
  {
    var alerted := Alerted(rules, p, o, now);
    var none: set<string> := {};
    SortSetUnique(none, []);
    assert Cleared(rules, p, o) == none;
    if alerted == {} {
      assert Emitted(rules, p, o, now) == [];
    } else {
      assert alerted == {o.downKey};
      SortSetUnique(alerted, [o.downKey]);
      EventsOfSnoc(o.problems, [], o.downKey);
      assert [] + [o.downKey] == [o.downKey];
      assert Emitted(rules, p, o, now) == [o.problems[o.downKey]];
      ReplayOne(known, o.problems[o.downKey]);
    }
  }

  // ---- One evaluation ----

  ghost predicate KeysOf(name: string, s: TargetState) {
    forall k :: k in s.activeAlerts ==> KeyOf(name, k)
  }

  lemma NextKeysOf(rules: Rules, p: TargetState, o: Observation, now: Time)
    requires Proper(o) && Keyed(o)
    ensures KeysOf(o.name, NextState(rules, p, o, now))
  {
    hide Proper, Keyed, KeyOf, Confirms;
    ActiveIsNewActive(rules, p, o, now);
    forall k | k in NextState(rules, p, o, now).activeAlerts ensures KeyOf(o.name, k) {
      assert k in NextState(rules, p, o, now).Active();
      ProblemKeyOf(o, k);
    }
  }

  /** Whatever was open for the reader, an evaluation leaves every active problem open. */
  lemma EvaluationHeard(known: set<string>, rules: Rules, p: TargetState, o: Observation, now: Time)
    requires Proper(o) && Keyed(o) && !o.muted && KeysOf(o.name, p) && p.Active() <= known
    ensures NextState(rules, p, o, now).Active() <= ReplayFrom(known, Emitted(rules, p, o, now))
  {
    ActiveIsNewActive(rules, p, o, now);
    if o.reachable {
      ReplayReachable(known, rules, p, o, now);
    } else {
      ReplayUnreachable(known, rules, p, o, now);
    }
    hide Emitted, NextState, Proper, Keyed, KeysOf;
    forall k | k in NewActive(rules, p, o) && k !in Alerted(rules, p, o, now) ensures k in p.Active() {
    }
  }

  /** With threshold 1 a reader who knew exactly what was active still does. */
  lemma EvaluationHeardExactly(rules: Rules, p: TargetState, o: Observation, now: Time)
    requires Proper(o) && Keyed(o) && !o.muted && KeysOf(o.name, p) && rules.failureThreshold == 1
    requires forall k :: k in p.pending ==> p.pending[k] >= 0
    requires o.downKey in p.activeAlerts ==> p.Active() == {o.downKey}
    ensures NextState(rules, p, o, now).Active() == ReplayFrom(p.Active(), Emitted(rules, p, o, now))
  {
    ActiveIsNewActive(rules, p, o, now);
    SilentIsOld(rules, p, o, now);
    if o.reachable {
      hide NewActive, Alerted, Proper, Keyed, KeyOf, Emitted, NextState;
      ReplayReachable(p.Active(), rules, p, o, now);
      Balance(p.Active(), NewActive(rules, p, o), Alerted(rules, p, o, now));
    } else {
      ReplayUnreachable(p.Active(), rules, p, o, now);
      AllConfirmed(rules, p, o);
      hide Alerted, Proper, Keyed, KeyOf, Emitted, NextState;
      if Alerted(rules, p, o, now) == {} {
        assert o.downKey in p.Active();
      }
    }
  }

  lemma AllConfirmed(rules: Rules, p: TargetState, o: Observation)
    requires rules.failureThreshold == 1 && forall k :: k in p.pending ==> p.pending[k] >= 0
    ensures NewActive(rules, p, o) == o.problems.Keys
  {
  }

  /** A problem that is active and not alerted was active before. */
  lemma SilentIsOld(rules: Rules, p: TargetState, o: Observation, now: Time)
    requires !o.muted
    ensures Alerted(rules, p, o, now) <= NewActive(rules, p, o)
    ensures NewActive(rules, p, o) - p.Active() <= Alerted(rules, p, o, now)
  {
  }

  lemma Balance(before: set<string>, after: set<string>, told: set<string>)
    requires told <= after && after - before <= told
    ensures before + told - (before - after) == after
  {
  }

  // ---- Whole runs ----

  lemma {:induction false} StoredKeysOf(h: Schedule, name: string)
    requires Regular(h)
    ensures KeysOf(name, Stored(map[], h, name))
  {
    if h == [] {
    } else {
      hide StateFor, EventsFor, Stored, OwnLog, KeyOf;
      StoredKeysOf(Earlier(h), name);
      TargetStep(map[], h, name);
      var c, s := Final(h), Stored(map[], Earlier(h), name);
      forall i | 0 <= i < |c.sightings| && c.sightings[i].name == name
        ensures KeysOf(name, StateFor(c, s, c.sightings[i]))
      {
        StateForKeysOf(c, s, c.sightings[i]);
      }
    }
  }

  lemma StateForKeysOf(c: Inspection, s: TargetState, o: Observation)
    requires Proper(o) && Keyed(o)
    ensures KeysOf(o.name, StateFor(c, s, o))
  {
    NextKeysOf(RulesOf(c), PreviousOf(c, s), o, c.now);
  }

  lemma {:induction false} ReplayMonotone(known: set<string>, more: set<string>, events: seq<Event>)
    ensures ReplayFrom(known + more, events) <= ReplayFrom(known, events) + more
  {
    if events == [] {
    } else {
      ReplayMonotone(known, more, events[..|events| - 1]);
    }
  }

  /** The only outages of the target that are muted are among the exempt keys. */
  ghost predicate MutedWithin(h: Schedule, name: string, exempt: set<string>) {
    forall i, j :: 0 <= i < |h| && 0 <= j < |h[i].c.sightings|
                   && h[i].c.sightings[j].name == name && h[i].c.sightings[j].muted
                   ==> h[i].c.sightings[j].downKey in exempt
  }

  /** Every alert the store holds for a target is open for its readers, muted outages apart. */
  lemma {:induction false} ReplayContainsUnmuted(h: Schedule, name: string, exempt: set<string>)
    requires Regular(h) && MutedWithin(h, name, exempt)
    ensures Stored(map[], h, name).Active() - exempt <= ReplayFrom({}, OwnLog(map[], h, name))
  {
    if h == [] {
    } else {
      hide StateFor, EventsFor, Stored, OwnLog, ReplayFrom, KeysOf;
      var c, s, log := Final(h), Stored(map[], Earlier(h), name), OwnLog(map[], Earlier(h), name);
      ReplayContainsUnmuted(Earlier(h), name, exempt);
      StoredKeysOf(Earlier(h), name);
      TargetStep(map[], h, name);
      forall i | 0 <= i < |c.sightings| && c.sightings[i].name == name
        ensures StateFor(c, s, c.sightings[i]).Active() - exempt
                <= ReplayFrom({}, log + EventsFor(c, s, c.sightings[i]))
      {
        ReplayConcat({}, log, EventsFor(c, s, c.sightings[i]));
        assert h[|h| - 1].c.sightings[i].muted ==> c.sightings[i].downKey in exempt;
        CycleHeard(ReplayFrom({}, log), c, s, c.sightings[i], exempt);
      }
    }
  }

  lemma CycleHeard(known: set<string>, c: Inspection, s: TargetState, o: Observation, exempt: set<string>)
    requires Proper(o) && Keyed(o) && KeysOf(o.name, s) && s.Active() - exempt <= known
    requires o.muted ==> o.downKey in exempt
    ensures StateFor(c, s, o).Active() - exempt <= ReplayFrom(known, EventsFor(c, s, o))
  {
    var p := PreviousOf(c, s);
    NextKeys(RulesOf(c), p, o, c.now);
    hide NextState, Emitted, Keyed, KeyOf, ReplayFrom;
    if !o.muted {
      EvaluationHeard(known + exempt, RulesOf(c), p, o, c.now);
      ReplayMonotone(known, exempt, EventsFor(c, s, o));
    }
  }

  /**
   * After any run of completed cycles, digests and failures included, every alert the store holds
   * for a target is open for whoever follows the delivered events about it.
   */
  lemma ReplayContainsStored(h: Schedule, name: string)
    requires Regular(h) && Unmuted(h)
    ensures Stored(map[], h, name).Active() <= ReplayFrom({}, OwnLog(map[], h, name))
  {
    hide Stored, OwnLog, ReplayFrom;
    ReplayContainsUnmuted(h, name, {});
  }

  /** The part of the state invariant the exact replay rests on. */
  ghost predicate DownAlone(name: string, s: TargetState) {
    && (forall k :: k in s.pending ==> s.pending[k] >= 0)
    && (UnreachableKey(name) in s.activeAlerts ==> s.Active() == {UnreachableKey(name)})
  }

  lemma NextDownAlone(rules: Rules, p: TargetState, o: Observation, now: Time)
    requires Proper(o) && Keyed(o)
    requires forall k :: k in p.pending ==> p.pending[k] >= 0
    ensures DownAlone(o.name, NextState(rules, p, o, now))
  {
    hide UnreachableKey;
    NextStateConsistent(rules, p, o, now);
  }

  ghost predicate ThresholdOne(h: Schedule) {
    forall i :: 0 <= i < |h| ==> h[i].c.rules.failureThreshold == 1
  }

  /**
   * With threshold 1, no digest and the target never unchecked for longer than the retention, the
   * reader's view and the store's are the same.
   */
  lemma {:induction false} ReplayEqualsStored(h: Schedule, name: string)
    requires Regular(h) && Unmuted(h) && NoDigest(h) && ThresholdOne(h) && ClockForward(h) && Remembered(h, name)
    ensures Stored(map[], h, name).Active() == ReplayFrom({}, OwnLog(map[], h, name))
    ensures DownAlone(name, Stored(map[], h, name))
  {
    if h == [] {
    } else {
      hide StateFor, EventsFor, Stored, OwnLog, ReplayFrom, KeysOf, UnreachableKey;
      var c, s, log := Final(h), Stored(map[], Earlier(h), name), OwnLog(map[], Earlier(h), name);
      ReplayEqualsStored(Earlier(h), name);
      StoredKeysOf(Earlier(h), name);
      TargetStep(map[], h, name);
      if !Checks(c, name) {
        RememberedStep(h, name);
      }
      forall i | 0 <= i < |c.sightings| && c.sightings[i].name == name
        ensures StateFor(c, s, c.sightings[i]).Active() == ReplayFrom({}, log + EventsFor(c, s, c.sightings[i]))
        ensures DownAlone(name, StateFor(c, s, c.sightings[i]))
      {
        ReplayConcat({}, log, EventsFor(c, s, c.sightings[i]));
        CycleHeardExactly(c, s, c.sightings[i]);
      }
    }
  }

  lemma CycleHeardExactly(c: Inspection, s: TargetState, o: Observation)
    requires Proper(o) && Keyed(o) && !o.muted && KeysOf(o.name, s) && DownAlone(o.name, s)
    requires c.rules.failureThreshold == 1 && !c.reportAll
    ensures StateFor(c, s, o).Active() == ReplayFrom(s.Active(), EventsFor(c, s, o))
    ensures DownAlone(o.name, StateFor(c, s, o))
  {
    hide UnreachableKey;
    EvaluationHeardExactly(RulesOf(c), PreviousOf(c, s), o, c.now);
    NextDownAlone(RulesOf(c), PreviousOf(c, s), o, c.now);
  }
}
