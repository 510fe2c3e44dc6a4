/** The order in which the targets of a cycle are checked leaves no trace in the saved state. */
module Order {
  import opened State
  import opened Evaluator
  import opened Scheduler
  import opened Cycles

  /** The same cycle with its targets in another order. */
  ghost predicate Reordered(c: Inspection, d: Inspection) {
    && c.rules == d.rules && c.reportAll == d.reportAll && c.now == d.now
    && multiset(c.sightings) == multiset(d.sightings)
  }

  lemma TwiceCounts<T>(s: seq<T>, i: nat, j: nat)
    requires i < j < |s| && s[i] == s[j]
    ensures multiset(s)[s[i]] >= 2
  {
    assert s == s[..j] + s[j..];
    assert s[i] in multiset(s[..j]) by {
      assert s[..j][i] == s[i];
    }
    assert s[j] in multiset(s[j..]) by {
      assert s[j..][0] == s[j];
    }
  }

  lemma TwiceOccurs<T>(s: seq<T>, x: T) returns (i: nat, j: nat)
    requires multiset(s)[x] >= 2
    ensures i < j < |s| && s[i] == s[j] == x
  {
    assert x in s;
    i :| i < |s| && s[i] == x;
    assert s == s[..i] + [x] + s[i + 1..];
    assert x in multiset(s[..i]) + multiset(s[i + 1..]);
    if x in s[..i] {
      var k :| 0 <= k < i && s[..i][k] == x;
      i, j := k, i;
    } else {
      assert x in s[i + 1..];
      var k :| 0 <= k < |s| - i - 1 && s[i + 1..][k] == x;
      j := i + 1 + k;
    }
  }

  lemma ReorderedDistinct(c: Inspection, d: Inspection)
    requires Reordered(c, d) && Genuine(c) && Distinct(c)
    ensures Genuine(d) && Distinct(d)
  {
    forall i | 0 <= i < |d.sightings| ensures Proper(d.sightings[i]) && Keyed(d.sightings[i]) {
      var a := Position(c, d, i);
    }
    forall i, j | 0 <= i < j < |d.sightings| ensures d.sightings[i].name != d.sightings[j].name {
      var a := Position(c, d, i);
      var b := Position(c, d, j);
      if d.sightings[i] == d.sightings[j] {
        TwiceCounts(d.sightings, i, j);
        var k, l := TwiceOccurs(c.sightings, d.sightings[i]);
      } else {
        assert a < b || b < a;
      }
    }
  }

  lemma Position(c: Inspection, d: Inspection, i: nat) returns (j: nat)
    requires Reordered(c, d) && i < |d.sightings|
    ensures j < |c.sightings| && c.sightings[j] == d.sightings[i]
  {
    assert d.sightings[i] in multiset(d.sightings);
    assert d.sightings[i] in c.sightings;
    j :| j < |c.sightings| && c.sightings[j] == d.sightings[i];
  }

  /** The events about each target do not depend on the order. */
  lemma SameOwnEvents(c: Inspection, d: Inspection, start: States, name: string)
    requires Reordered(c, d) && Genuine(c) && Distinct(c)
    ensures Own(Folded(c, start).events, name) == Own(Folded(d, start).events, name)
    ensures Checks(c, name) <==> Checks(d, name)
  {
    hide EventsFor, StateFor, FoldResults, Own;
    ReorderedDistinct(c, d);
    if Checks(c, name) {
      var i :| 0 <= i < |c.sightings| && c.sightings[i].name == name;
      var j := Position(d, c, i);
      CycleEvents(c, start, i);
      CycleEvents(d, start, j);
      SameEventsFor(c, d, Lookup(start, name), c.sightings[i]);
    } else {
      if Checks(d, name) {
        var i :| 0 <= i < |d.sightings| && d.sightings[i].name == name;
        var j := Position(c, d, i);
      }
      FoldUnchecked(c, start, |c.sightings|, name);
      FoldUnchecked(d, start, |d.sightings|, name);
    }
  }

  lemma SameEventTargets(c: Inspection, d: Inspection, start: States)
    requires Reordered(c, d) && Genuine(c) && Distinct(c)
    ensures EventTargets(Folded(c, start).events) == EventTargets(Folded(d, start).events)
    ensures Folded(c, start).events == [] <==> Folded(d, start).events == []
  {
    hide Folded;
    var a, b := Folded(c, start).events, Folded(d, start).events;
    forall name ensures name in EventTargets(a) <==> name in EventTargets(b) {
      SameOwnEvents(c, d, start, name);
      OwnEmpty(a, name);
      OwnEmpty(b, name);
    }
    if a != [] {
      assert a[0].target in EventTargets(a);
    }
    if b != [] {
      assert b[0].target in EventTargets(b);
    }
  }

  /** The saved store, and the targets rolled back on failure, do not depend on the order either. */
  lemma OrderIrrelevant(c: Inspection, d: Inspection, start: States, accepted: bool)
    requires Reordered(c, d) && Genuine(c) && Distinct(c)
    ensures After(c, start, accepted) == After(d, start, accepted)
    ensures EventTargets(Folded(c, start).events) == EventTargets(Folded(d, start).events)
  {
    hide After, EventsFor, StateFor, Folded;
    SameEventTargets(c, d, start);
    ReorderedDistinct(c, d);
    forall name
      ensures name in After(c, start, accepted) <==> name in After(d, start, accepted)
      ensures name in After(c, start, accepted) ==> After(c, start, accepted)[name] == After(d, start, accepted)[name]
    {
      SameOwnEvents(c, d, start, name);
      if Checks(c, name) {
        var i :| 0 <= i < |c.sightings| && c.sightings[i].name == name;
        var j := Position(d, c, i);
        AfterChecked(c, start, accepted, i);
        AfterChecked(d, start, accepted, j);
        SameEventsFor(c, d, Lookup(start, name), c.sightings[i]);
      } else {
        AfterUnchecked(c, start, accepted, name);
        AfterUnchecked(d, start, accepted, name);
      }
    }
  }

  lemma SameEventsFor(c: Inspection, d: Inspection, s: TargetState, o: Observation)
    requires Reordered(c, d)
    ensures EventsFor(c, s, o) == EventsFor(d, s, o) && StateFor(c, s, o) == StateFor(d, s, o)
  {
  }
}
