/** How long the store remembers a target, and what it takes for the most recent cycle. */
module Retention {
  import opened Common
  import opened Models
  import opened State
  import opened Evaluator
  import opened Scheduler
  import opened Cycles
  import opened Runs

  /** When the target was last checked. */
  ghost function LastCheck(h: Schedule, name: string): Option<Time> {
    if h == [] then None
    else if Checks(Final(h), name) then Some(Final(h).now)
    else LastCheck(Earlier(h), name)
  }

  lemma {:induction false} FoldSeen(c: Inspection, start: States, n: nat, name: string)
    requires n <= |c.sightings|
    ensures var f, seen := FoldResults(c, start, n), exists i :: 0 <= i < n && c.sightings[i].name == name;
            && (seen ==> name in f.store && f.store[name].lastSeen == Some(c.now))
            && (!seen ==> (name in f.store <==> name in start) && (name in start ==> f.store[name] == start[name]))
            && (name in f.stored ==> seen)
  {
    hide EventsFor, NextState;
    if n == 0 {
    } else {
      FoldSeen(c, start, n - 1, name);
    }
  }

  /** One cycle stamps what it checks and drops what has grown too old. */
  lemma CycleSeen(c: Inspection, start: States, accepted: bool, name: string)
    ensures var s := After(c, start, accepted);
            && (Checks(c, name) ==> name in s && s[name].lastSeen == Some(c.now))
            && (!Checks(c, name) ==>
                  && (name in s <==> name in start && start[name].lastSeen.Some?
                                     && c.now - start[name].lastSeen.value <= STATE_RETENTION_SECONDS)
                  && (name in s ==> s[name] == start[name]))
  {
    hide FoldResults, EventTargets;
    FoldSeen(c, start, |c.sightings|, name);
  }

  lemma {:induction false} LastCheckBound(h: Schedule, name: string)
    requires ClockForward(h) && LastCheck(h, name).Some?
    ensures h != [] && LastCheck(h, name).value <= Final(h).now
  {
    if !Checks(Final(h), name) {
      LastCheckBound(Earlier(h), name);
    }
  }

  /** A target is in the store exactly while its last check is at most a week old. */
  lemma {:induction false} RetainedExactly(h: Schedule, name: string)
    requires h != [] && ClockForward(h)
    ensures var s, last := Saved(map[], h), LastCheck(h, name);
            && (name in s <==> last.Some? && Final(h).now - last.value <= 604800.0)
            && (name in s ==> s[name].lastSeen == last)
  {
    hide After;
    var e := Earlier(h);
    CycleSeen(Final(h), Saved(map[], e), h[|h| - 1].accepted, name);
    if e == [] {
    } else {
      RetainedExactly(e, name);
      if LastCheck(e, name).Some? {
        LastCheckBound(e, name);
      }
    }
  }

  /** The most recent cycle that checked anything. */
  function MostRecent(h: Schedule): Option<Inspection> {
    if h == [] then None
    else if Final(h).sightings != [] then Some(Final(h))
    else MostRecent(Earlier(h))
  }

  lemma {:induction false} MostRecentChecks(h: Schedule, name: string)
    requires ClockStrict(h)
    ensures ClockForward(h)
    ensures MostRecent(h).None? ==> LastCheck(h, name).None?
    ensures MostRecent(h).Some? && Checks(MostRecent(h).value, name) ==> LastCheck(h, name) == Some(MostRecent(h).value.now)
    ensures MostRecent(h).Some? && !Checks(MostRecent(h).value, name) && LastCheck(h, name).Some? ==>
              LastCheck(h, name).value < MostRecent(h).value.now
    ensures MostRecent(h).Some? ==> h != [] && MostRecent(h).value.now <= Final(h).now
  {
    if h == [] {
    } else {
      var e := Earlier(h);
      MostRecentChecks(e, name);
      if LastCheck(e, name).Some? {
        LastCheckBound(e, name);
      }
    }
  }

  /**
   * last_cycle names exactly the targets of the most recent cycle that checked anything, as long
   * as that cycle is within the retention; after that the store is empty and it has no answer.
   */
  lemma LastCycleExactly(h: Schedule)
    requires h != [] && ClockStrict(h)
    ensures var recent, answer := MostRecent(h), LastCycleOf(Saved(map[], h));
            if recent.None? || Final(h).now - recent.value.now > STATE_RETENTION_SECONDS then answer.None?
            else answer.Some? && forall name :: name in answer.value <==> Checks(recent.value, name)
  {
    hide After, Checks;
    var s, recent := Saved(map[], h), MostRecent(h);
    forall name
      ensures name in s <==> LastCheck(h, name).Some? && Final(h).now - LastCheck(h, name).value <= STATE_RETENTION_SECONDS
      ensures name in s ==> s[name].lastSeen == LastCheck(h, name)
    {
      MostRecentChecks(h, name);
      RetainedExactly(h, name);
    }
    if recent.None? || Final(h).now - recent.value.now > STATE_RETENTION_SECONDS {
      forall name ensures name !in s {
        MostRecentChecks(h, name);
      }
      LastCycleMeaning(s, "");
    } else {
      MostRecentListsOne(h);
      var some :| Checks(recent.value, some);
      MostRecentChecks(h, some);
      forall name ensures LastCycleOf(s).Some? && (name in LastCycleOf(s).value <==> Checks(recent.value, name)) {
        MostRecentChecks(h, name);
        LastCycleMeaning(s, name);
        assert some in s && s[some].lastSeen == Some(recent.value.now);
        forall n | n in s ensures s[n].lastSeen.Some? && s[n].lastSeen.value <= recent.value.now {
          MostRecentChecks(h, n);
        }
      }
    }
  }

  lemma {:induction false} MostRecentListsOne(h: Schedule)
    requires MostRecent(h).Some?
    ensures exists name :: Checks(MostRecent(h).value, name)
  {
    if Final(h).sightings != [] {
      assert Checks(Final(h), Final(h).sightings[0].name);
    } else {
      MostRecentListsOne(Earlier(h));
    }
  }

  /** The target has not, at any point of the run, gone unchecked for longer than the retention. */
  ghost predicate Remembered(h: Schedule, name: string) {
    h == []
    || (&& Remembered(Earlier(h), name)
        && (LastCheck(h, name).Some? ==> Final(h).now - LastCheck(h, name).value <= STATE_RETENTION_SECONDS))
  }

  /** A cycle that does not check a remembered target does not touch what is stored about it. */
  lemma RememberedStep(h: Schedule, name: string)
    requires h != [] && ClockForward(h) && Remembered(h, name) && Regular(h) && !Checks(Final(h), name)
    ensures Stored(map[], h, name) == Stored(map[], Earlier(h), name)
  {
    hide After;
    AfterUnchecked(Final(h), Saved(map[], Earlier(h)), h[|h| - 1].accepted, name);
    RetainedExactly(h, name);
    if Earlier(h) != [] {
      RetainedExactly(Earlier(h), name);
    }
  }
}
