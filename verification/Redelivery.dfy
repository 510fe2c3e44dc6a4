/**
 * At-least-once delivery: while a target's result does not change, what a cycle could not deliver,
 * or did not come to record, is contained in what every later cycle sends, until one does both.
 */
module Redelivery {
  import opened Common
  import opened Models
  import opened Strings
  import opened State
  import opened Evaluator
  import opened Reports
  import opened Scheduler
  import opened Cycles

  lemma {:induction false} KeepGivesSubsequence(problems: map<string, Event>, keys: seq<string>, s: set<string>)
    ensures Subsequence(EventsOf(problems, Keep(keys, s)), EventsOf(problems, keys))
  {
    if keys == [] {
      SubsequenceRefl(EventsOf(problems, keys));
    } else {
      var front, last := keys[..|keys| - 1], keys[|keys| - 1];
      var tail := if last in problems then [problems[last]] else [];
      KeepGivesSubsequence(problems, front, s);
      SubsequenceRefl(tail);
      var kept := EventsOf(problems, Keep(front, s));
      if last in s {
        SubsequenceConcat(kept, EventsOf(problems, front), tail, tail);
        EventsOfOne(problems, Keep(front, s), last);
      } else {
        SubsequenceConcat(kept, EventsOf(problems, front), [], tail);
        assert Keep(keys, s) == Keep(front, s);
        assert kept + [] == kept;
      }
    }
  }

  lemma EventsOfOne(problems: map<string, Event>, keys: seq<string>, last: string)
    ensures EventsOf(problems, keys + [last])
            == EventsOf(problems, keys) + if last in problems then [problems[last]] else []
  {
    assert (keys + [last])[..|keys|] == keys;
  }

  lemma SmallerSetSubsequence(problems: map<string, Event>, a: set<string>, b: set<string>)
    requires a <= b
    ensures Subsequence(EventsOf(problems, SortSet(a)), EventsOf(problems, SortSet(b)))
  {
    hide SortSet;
    KeepSortSet(b, a);
    KeepGivesSubsequence(problems, SortSet(b), a);
  }

  /** The evaluation does not look at `lastSeen`, and as time passes it only reports more. */
  lemma LaterReportsContain(rules: Rules, p: TargetState, p': TargetState, o: Observation, now: Time, now': Time)
    requires p' == p.(lastSeen := p'.lastSeen) && now <= now'
    ensures Subsequence(Emitted(rules, p, o, now), Emitted(rules, p', o, now'))
  {
    var rotation, recoveries := RotationEvents(p, o), ResolvedEvents(o.name, SortSet(Cleared(rules, p, o)));
    assert NewActive(rules, p, o) == NewActive(rules, p', o);
    assert Cleared(rules, p, o) == Cleared(rules, p', o);
    var a, b := Alerted(rules, p, o, now), Alerted(rules, p', o, now');
    assert a <= b;
    hide SortSet, Alerted, Cleared, RotationEvents, EventsOf, ResolvedEvents, Subsequence;
    assert RotationEvents(p', o) == rotation by {
      SameRotation(p, p', o);
    }
    SubsequenceRefl(rotation);
    SubsequenceRefl(recoveries);
    SmallerSetSubsequence(o.problems, a, b);
    SubsequenceConcat(rotation, rotation, EventsOf(o.problems, SortSet(a)), EventsOf(o.problems, SortSet(b)));
    SubsequenceConcat(rotation + EventsOf(o.problems, SortSet(a)), rotation + EventsOf(o.problems, SortSet(b)),
                      recoveries, recoveries);
  }

  lemma SameRotation(p: TargetState, p': TargetState, o: Observation)
    requires p'.fingerprint == p.fingerprint
    ensures RotationEvents(p', o) == RotationEvents(p, o)
  {
  }

  /**
   * One attempt at a cycle: whether the sinks accepted its events, and whether the file was replaced.
   * A cycle that raises may do so before delivering, between delivering and saving, or after saving.
   */
  datatype Try = Try(c: Inspection, accepted: bool, saved: bool)

  /** The stored states after some attempts; an attempt that did not come to save leaves them alone. */
  ghost function Left(start: States, h: seq<Try>): States {
    if h == [] then start
    else
      var last, before := h[|h| - 1], Left(start, h[..|h| - 1]);
      if last.saved then After(last.c, before, last.accepted) else before
  }

  /** The events of the attempts no sink refused, in order. */
  ghost function Sent(start: States, h: seq<Try>): seq<Event> {
    if h == [] then []
    else
      var last, before := h[|h| - 1], h[..|h| - 1];
      Sent(start, before) + if last.accepted then Folded(last.c, Left(start, before)).events else []
  }

  /** What attempt `i` has to report about the target. */
  ghost function Owed(start: States, h: seq<Try>, i: nat, o: Observation): seq<Event>
    requires i < |h|
  {
    EventsFor(h[i].c, Lookup(Left(start, h[..i]), o.name), o)
  }

  /**
   * A stretch of attempts that all find the target in the same condition under the same rules, none
   * of which but possibly the last was both delivered and saved. The daemon keeps `reportAll` across
   * such attempts.
   */
  ghost predicate Failing(start: States, h: seq<Try>, o: Observation, rules: Rules, reportAll: bool) {
    && (forall i :: 0 <= i < |h| ==> Genuine(h[i].c) && Distinct(h[i].c))
    && (forall i :: 0 <= i < |h| ==> o in h[i].c.sightings && h[i].c.rules == rules && h[i].c.reportAll == reportAll)
    && (forall i :: 0 <= i < |h| - 1 ==> h[i].c.now <= h[i + 1].c.now)
    && (forall i :: 0 <= i < |h| - 1 ==> !h[i].saved || !Delivered(h[i].c, Left(start, h[..i]), h[i].accepted))
  }

  lemma NextContains(start: States, h: seq<Try>, o: Observation, rules: Rules, reportAll: bool, i: nat)
    requires Failing(start, h, o, rules, reportAll) && i + 1 < |h|
    ensures Subsequence(Owed(start, h, i, o), Owed(start, h, i + 1, o))
  {
    hide After, FoldResults, Subsequence, Emitted, Genuine, Distinct;
    var c, before := h[i].c, Left(start, h[..i]);
    var k :| 0 <= k < |c.sightings| && c.sightings[k] == o;
    assert h[..i + 1][..i] == h[..i] && h[..i + 1][i] == h[i];
    AfterChecked(c, before, h[i].accepted, k);
    var s, s' := Lookup(before, o.name), Lookup(Left(start, h[..i + 1]), o.name);
    if h[i].saved && Owed(start, h, i, o) == [] {
      EmptySubsequence(Owed(start, h, i + 1, o));
    } else {
      assert s' == if h[i].saved then s.(lastSeen := Some(c.now)) else s;
      LaterReportsContain(RulesOf(c), PreviousOf(c, s), PreviousOf(c, s'), o, c.now, h[i + 1].c.now);
    }
  }

  lemma EmptySubsequence(events: seq<Event>)
    ensures Subsequence([], events)
  {
  }

  /** Every later attempt of such a stretch reports, in order, all that any earlier one did. */
  lemma {:induction false} AtLeastOnce(
    start: States, h: seq<Try>, o: Observation, rules: Rules, reportAll: bool, i: nat, j: nat)
    requires Failing(start, h, o, rules, reportAll) && i <= j < |h|
    ensures Subsequence(Owed(start, h, i, o), Owed(start, h, j, o))
  {
    hide Failing, Owed, Subsequence;
    if i == j {
      SubsequenceRefl(Owed(start, h, i, o));
    } else {
      AtLeastOnce(start, h, o, rules, reportAll, i, j - 1);
      NextContains(start, h, o, rules, reportAll, j - 1);
      SubsequenceTrans(Owed(start, h, i, o), Owed(start, h, j - 1, o), Owed(start, h, j, o));
    }
  }

  /**
   * When the last attempt is delivered, what was sent about the target grows by events that include
   * everything each failed attempt had to report about it.
   */
  lemma EventuallyDelivered(
    start: States, h: seq<Try>, o: Observation, rules: Rules, reportAll: bool, i: nat)
    requires Failing(start, h, o, rules, reportAll) && i < |h| && h[|h| - 1].accepted
    ensures exists sent :: && Own(Sent(start, h), o.name) == Own(Sent(start, h[..|h| - 1]), o.name) + sent
                           && Subsequence(Owed(start, h, i, o), sent)
  {
    hide After, FoldResults, Subsequence, EventsFor, Own;
    var n := |h| - 1;
    var c, before := h[n].c, Left(start, h[..n]);
    var k :| 0 <= k < |c.sightings| && c.sightings[k] == o;
    CycleEvents(c, before, k);
    OwnConcat(Sent(start, h[..n]), Folded(c, before).events, o.name);
    AtLeastOnce(start, h, o, rules, reportAll, i, n);
    var sent := Owed(start, h, n, o);
    assert Own(Sent(start, h), o.name) == Own(Sent(start, h[..n]), o.name) + sent;
  }

  // ---- By cause: the rest of what the checks find may change ----

  /** Attempt `i` finds this about the target. */
  ghost function Found(h: seq<Try>, i: nat, name: string): Observation
    requires i < |h| && Checks(h[i].c, name)
  {
    SightingOf(h[i].c, name)
  }

  /**
   * Like Failing, but all that is known of what the attempts find is that they check the target.
   */
  ghost predicate Trying(start: States, h: seq<Try>, name: string, rules: Rules, reportAll: bool) {
    && (forall i :: 0 <= i < |h| ==> Genuine(h[i].c) && Distinct(h[i].c) && Checks(h[i].c, name))
    && (forall i :: 0 <= i < |h| ==> h[i].c.rules == rules && h[i].c.reportAll == reportAll)
    && (forall i :: 0 <= i < |h| - 1 ==> h[i].c.now <= h[i + 1].c.now)
    && (forall i :: 0 <= i < |h| - 1 ==> !h[i].saved || !Delivered(h[i].c, Left(start, h[..i]), h[i].accepted))
  }

  /** The problem is confirmed, and it is new or its interval is over: it is not just shown again. */
  ghost predicate Pressing(c: Inspection, s: TargetState, o: Observation, key: string) {
    && key in o.problems && !o.muted
    && Confirms(RulesOf(c), PreviousOf(c, s), key) && Due(RulesOf(c), PreviousOf(c, s), c.now, key)
  }

  /** The problem was active, and the target is reached without it. */
  ghost predicate Over(c: Inspection, s: TargetState, o: Observation, key: string) {
    o.reachable && key !in o.problems && key in PreviousOf(c, s).activeAlerts
  }

  /** The state attempt `i` starts from. */
  ghost function Facing(start: States, h: seq<Try>, i: nat, name: string): TargetState
    requires i < |h|
  {
    Lookup(Left(start, h[..i]), name)
  }

  lemma PressingIsReported(c: Inspection, s: TargetState, o: Observation, key: string)
    requires Proper(o) && Keyed(o) && Pressing(c, s, o, key)
    ensures o.problems[key] in EventsFor(c, s, o)
  {
    EmittedMembers(RulesOf(c), PreviousOf(c, s), o, c.now, o.problems[key]);
  }

  lemma OverIsReported(c: Inspection, s: TargetState, o: Observation, key: string)
    requires Proper(o) && Keyed(o) && Over(c, s, o, key)
    ensures ResolvedEvent(o.name, key) in EventsFor(c, s, o)
  {
    EmittedMembers(RulesOf(c), PreviousOf(c, s), o, c.now, ResolvedEvent(o.name, key));
  }

  /** An attempt with something to report about the target leaves its state alone, but for the stamp. */
  lemma LeavesAlone(start: States, h: seq<Try>, name: string, rules: Rules, reportAll: bool, i: nat)
    requires Trying(start, h, name, rules, reportAll) && i + 1 < |h|
    requires EventsFor(h[i].c, Facing(start, h, i, name), Found(h, i, name)) != []
    ensures var s, s' := Facing(start, h, i, name), Facing(start, h, i + 1, name);
            s' == s.(lastSeen := s'.lastSeen)
  {
    hide After, FoldResults, EventsFor, Genuine, Distinct;
    var c, before := h[i].c, Left(start, h[..i]);
    var k :| 0 <= k < |c.sightings| && c.sightings[k] == Found(h, i, name);
    assert h[..i + 1][..i] == h[..i] && h[..i + 1][i] == h[i];
    AfterChecked(c, before, h[i].accepted, k);
  }

  lemma FoundIsGenuine(h: seq<Try>, i: nat, name: string)
    requires i < |h| && Genuine(h[i].c) && Checks(h[i].c, name)
    ensures Proper(Found(h, i, name)) && Keyed(Found(h, i, name)) && Found(h, i, name).name == name
  {
    hide Proper, Keyed;
    var k :| 0 <= k < |h[i].c.sightings| && h[i].c.sightings[k] == Found(h, i, name);
  }

  lemma NotEmpty(events: seq<Event>, e: Event)
    requires e in events
    ensures events != []
  {
  }

  lemma NextPresses(start: States, h: seq<Try>, name: string, rules: Rules, reportAll: bool, key: string, i: nat)
    requires Trying(start, h, name, rules, reportAll) && i + 1 < |h|
    requires Pressing(h[i].c, Facing(start, h, i, name), Found(h, i, name), key)
    requires key in Found(h, i + 1, name).problems && !Found(h, i + 1, name).muted
    ensures Pressing(h[i + 1].c, Facing(start, h, i + 1, name), Found(h, i + 1, name), key)
  {
    hide EventsFor, Genuine, Distinct, Proper, Keyed, Left, Found;
    FoundIsGenuine(h, i, name);
    var s, o := Facing(start, h, i, name), Found(h, i, name);
    PressingIsReported(h[i].c, s, o, key);
    NotEmpty(EventsFor(h[i].c, s, o), o.problems[key]);
    LeavesAlone(start, h, name, rules, reportAll, i);
  }

  lemma NextIsOver(start: States, h: seq<Try>, name: string, rules: Rules, reportAll: bool, key: string, i: nat)
    requires Trying(start, h, name, rules, reportAll) && i + 1 < |h|
    requires Over(h[i].c, Facing(start, h, i, name), Found(h, i, name), key)
    requires Found(h, i + 1, name).reachable && key !in Found(h, i + 1, name).problems
    ensures Over(h[i + 1].c, Facing(start, h, i + 1, name), Found(h, i + 1, name), key)
  {
    hide EventsFor, Genuine, Distinct, Proper, Keyed, Left, Found;
    FoundIsGenuine(h, i, name);
    var s, o := Facing(start, h, i, name), Found(h, i, name);
    OverIsReported(h[i].c, s, o, key);
    NotEmpty(EventsFor(h[i].c, s, o), ResolvedEvent(name, key));
    LeavesAlone(start, h, name, rules, reportAll, i);
  }

  lemma {:induction false} StillPresses(
    start: States, h: seq<Try>, name: string, rules: Rules, reportAll: bool, key: string, i: nat, j: nat)
    requires Trying(start, h, name, rules, reportAll) && i <= j < |h|
    requires Pressing(h[i].c, Facing(start, h, i, name), Found(h, i, name), key)
    requires forall m :: i < m <= j ==> key in Found(h, m, name).problems && !Found(h, m, name).muted
    ensures Pressing(h[j].c, Facing(start, h, j, name), Found(h, j, name), key)
  {
    hide Pressing, Facing, Found;
    if i == j {
    } else {
      StillPresses(start, h, name, rules, reportAll, key, i, j - 1);
      NextPresses(start, h, name, rules, reportAll, key, j - 1);
    }
  }

  lemma {:induction false} StillOver(
    start: States, h: seq<Try>, name: string, rules: Rules, reportAll: bool, key: string, i: nat, j: nat)
    requires Trying(start, h, name, rules, reportAll) && i <= j < |h|
    requires Over(h[i].c, Facing(start, h, i, name), Found(h, i, name), key)
    requires forall m :: i < m <= j ==> Found(h, m, name).reachable && key !in Found(h, m, name).problems
    ensures Over(h[j].c, Facing(start, h, j, name), Found(h, j, name), key)
  {
    hide Over, Facing, Found;
    if i == j {
    } else {
      StillOver(start, h, name, rules, reportAll, key, i, j - 1);
      NextIsOver(start, h, name, rules, reportAll, key, j - 1);
    }
  }

  /**
   * An alert that was new or due in some attempt is in every later attempt as long as its problem is
   * observed, whatever else about the target changes.
   */
  lemma AlertComesUpAgain(
    start: States, h: seq<Try>, name: string, rules: Rules, reportAll: bool, key: string, i: nat, j: nat)
    requires Trying(start, h, name, rules, reportAll) && i <= j < |h|
    requires Pressing(h[i].c, Facing(start, h, i, name), Found(h, i, name), key)
    requires forall m :: i < m <= j ==> key in Found(h, m, name).problems && !Found(h, m, name).muted
    ensures key in Found(h, j, name).problems
    ensures Found(h, j, name).problems[key] in EventsFor(h[j].c, Facing(start, h, j, name), Found(h, j, name))
  {
    hide EventsFor, Facing, Found, Confirms, Due, Genuine;
    StillPresses(start, h, name, rules, reportAll, key, i, j);
    FoundIsGenuine(h, j, name);
    PressingIsReported(h[j].c, Facing(start, h, j, name), Found(h, j, name), key);
  }

  /** A recovery is in every later attempt as long as the target is reached and the problem is gone. */
  lemma RecoveryComesUpAgain(
    start: States, h: seq<Try>, name: string, rules: Rules, reportAll: bool, key: string, i: nat, j: nat)
    requires Trying(start, h, name, rules, reportAll) && i <= j < |h|
    requires Over(h[i].c, Facing(start, h, i, name), Found(h, i, name), key)
    requires forall m :: i < m <= j ==> Found(h, m, name).reachable && key !in Found(h, m, name).problems
    ensures ResolvedEvent(name, key) in EventsFor(h[j].c, Facing(start, h, j, name), Found(h, j, name))
  {
    hide EventsFor, Facing, Found, Over, Genuine;
    StillOver(start, h, name, rules, reportAll, key, i, j);
    FoundIsGenuine(h, j, name);
    OverIsReported(h[j].c, Facing(start, h, j, name), Found(h, j, name), key);
  }
}
