/** Runs of completed cycles: the stores they save and the log of what they delivered. */
module Runs {
  import opened Common
  import opened Models
  import opened State
  import opened Scheduler
  import opened Cycles

  /** A cycle that ran to its end, and whether the sinks accepted its events. */
  datatype Completed = Completed(c: Inspection, accepted: bool)

  type Schedule = seq<Completed>

  function Final(h: Schedule): Inspection
    requires h != []
  {
    h[|h| - 1].c
  }

  function Earlier(h: Schedule): Schedule
    requires h != []
  {
    h[..|h| - 1]
  }

  /** The saved store after a run of cycles. */
  ghost function Saved(start: States, h: Schedule): States {
    if h == [] then start
    else After(Final(h), Saved(start, Earlier(h)), h[|h| - 1].accepted)
  }

  ghost predicate ClockForward(h: Schedule) {
    |h| > 1 ==> ClockForward(Earlier(h)) && Final(Earlier(h)).now <= Final(h).now
  }

  ghost predicate ClockStrict(h: Schedule) {
    |h| > 1 ==> ClockStrict(Earlier(h)) && Final(Earlier(h)).now < Final(h).now
  }

  /** The events of the fully delivered cycles, in order. */
  ghost function DeliveredLog(start: States, h: Schedule): seq<Event> {
    if h == [] then []
    else
      DeliveredLog(start, Earlier(h))
      + if h[|h| - 1].accepted then Folded(Final(h), Saved(start, Earlier(h))).events else []
  }

  /** No two targets of a cycle share a name. */
  ghost predicate Regular(h: Schedule) {
    forall i :: 0 <= i < |h| ==> Genuine(h[i].c) && Distinct(h[i].c)
  }

  ghost predicate Unmuted(h: Schedule) {
    forall i, j :: 0 <= i < |h| && 0 <= j < |h[i].c.sightings| ==> !h[i].c.sightings[j].muted
  }

  ghost predicate NoDigest(h: Schedule) {
    forall i :: 0 <= i < |h| ==> !h[i].c.reportAll
  }

  /** What is stored about one target after a run. */
  ghost function Stored(start: States, h: Schedule, name: string): TargetState {
    Lookup(Saved(start, h), name)
  }

  /** The delivered events about one target. */
  ghost function OwnLog(start: States, h: Schedule, name: string): seq<Event> {
    Own(DeliveredLog(start, h), name)
  }

  /**
   * The three things a cycle can do to a target: take its evaluation over and log its events, put
   * it back with nothing logged, or, when it is not checked, leave it alone or forget it.
   */
  lemma TargetStep(start: States, h: Schedule, name: string)
    requires h != [] && Regular(h)
    ensures var c, s, s' := Final(h), Stored(start, Earlier(h), name), Stored(start, h, name);
            var logged := OwnLog(start, h, name);
            || (exists i :: && 0 <= i < |c.sightings| && c.sightings[i].name == name
                            && s' == StateFor(c, s, c.sightings[i])
                            && logged == OwnLog(start, Earlier(h), name) + EventsFor(c, s, c.sightings[i]))
            || (Checks(c, name) && s' == s.(lastSeen := Some(c.now)) && logged == OwnLog(start, Earlier(h), name))
            || (!Checks(c, name) && (s' == s || s' == NEW_STATE) && logged == OwnLog(start, Earlier(h), name))
  {
    hide After, FoldResults, EventsFor, StateFor, Own;
    var c, accepted, before := Final(h), h[|h| - 1].accepted, Saved(start, Earlier(h));
    var log, events := DeliveredLog(start, Earlier(h)), Folded(c, before).events;
    OwnConcat(log, if accepted then events else [], name);
    NothingOwned(name);
    assert OwnLog(start, Earlier(h), name) + [] == OwnLog(start, Earlier(h), name);
    if Checks(c, name) {
      var i :| 0 <= i < |c.sightings| && c.sightings[i].name == name;
      AfterChecked(c, before, accepted, i);
      CycleEvents(c, before, i);
    } else {
      AfterUnchecked(c, before, accepted, name);
      FoldUnchecked(c, before, |c.sightings|, name);
    }
  }

  /** The last cycle of the run takes the evaluation of the target over. */
  ghost predicate Commits(start: States, h: Schedule, name: string)
    requires h != []
  {
    var c, before := Final(h), Saved(start, Earlier(h));
    && Checks(c, name)
    && (Delivered(c, before, h[|h| - 1].accepted) || EventsFor(c, Lookup(before, name), SightingOf(c, name)) == [])
  }

  /**
   * The log of a target grows by its own events when the last cycle takes its evaluation over, and
   * not otherwise; and a checked target then has its new state, and its old one otherwise.
   */
  lemma CommitOrNot(start: States, h: Schedule, name: string)
    requires h != [] && Regular(h) && Checks(Final(h), name)
    ensures var c, s, o := Final(h), Stored(start, Earlier(h), name), SightingOf(Final(h), name);
            if Commits(start, h, name) then
              && Stored(start, h, name) == StateFor(c, s, o)
              && OwnLog(start, h, name) == OwnLog(start, Earlier(h), name) + EventsFor(c, s, o)
            else
              && Stored(start, h, name) == s.(lastSeen := Some(c.now))
              && OwnLog(start, h, name) == OwnLog(start, Earlier(h), name)
  {
    hide After, EventsFor, StateFor, Own, FoldResults;
    var c, accepted, before := Final(h), h[|h| - 1].accepted, Saved(start, Earlier(h));
    var o, events, log := SightingOf(c, name), Folded(c, before).events, DeliveredLog(start, Earlier(h));
    var i :| 0 <= i < |c.sightings| && c.sightings[i] == o;
    AfterChecked(c, before, accepted, i);
    CycleEvents(c, before, i);
    OwnConcat(log, if accepted then events else [], name);
    NothingOwned(name);
  }

  lemma UncheckedLog(start: States, h: Schedule, name: string)
    requires h != [] && Regular(h) && !Checks(Final(h), name)
    ensures OwnLog(start, h, name) == OwnLog(start, Earlier(h), name)
  {
    hide After, FoldResults, EventsFor, StateFor, Own;
    TargetStep(start, h, name);
  }

  lemma NothingOwned(name: string)
    ensures Own([], name) == []
  {
  }
}
