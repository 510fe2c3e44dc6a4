/** The rotations a target's readers were told of form one chain, failed deliveries included. */
module RotationLog {
  import opened Common
  import opened Models
  import opened Strings
  import opened State
  import opened Evaluator
  import opened Scheduler
  import opened Cycles
  import opened Runs
  import opened Retention
  import opened Fingerprints
  import opened Daemon

  /** The log's rotations chain up, and the stored fingerprint is the last one announced. */
  ghost predicate InStep(fingerprint: Option<string>, told: seq<Change>) {
    && Chained(told)
    && (told != [] ==> Truthy(fingerprint) && fingerprint.value == told[|told| - 1].1)
  }

  lemma EvaluationInStep(rules: Rules, p: TargetState, o: Observation, now: Time, told: seq<Change>)
    requires Proper(o) && InStep(p.fingerprint, told)
    ensures InStep(NextState(rules, p, o, now).fingerprint, told + RotationsIn(Emitted(rules, p, o, now)))
  {
    hide Emitted, RotationsIn, Proper, NewActive, NewPending, NextNotified, SortSet;
    EmittedRotations(rules, p, o, now);
    if !Rotated(p, o) {
      assert told + [] == told;
    }
  }

  /** A checked target's events hold a rotation exactly when it rotated and the cycle is no digest. */
  lemma CycleRotations(c: Inspection, s: TargetState, o: Observation)
    requires Proper(o)
    ensures RotationsIn(EventsFor(c, s, o))
            == if !c.reportAll && Rotated(s, o) then [(s.fingerprint.value, o.fingerprint.value)] else []
  {
    hide Emitted, RotationsIn, Proper;
    EmittedRotations(RulesOf(c), PreviousOf(c, s), o, c.now);
  }

  ghost predicate AllProper(k: Record) {
    forall i :: 0 <= i < |k| && k[i].Seen? ==> Proper(k[i].step.obs)
  }

  lemma {:induction false} CommittedProper(h: Schedule, name: string)
    requires Regular(h)
    ensures AllProper(Committed(h, name))
  {
    hide Proper, Commits, Saved;
    if h == [] {
    } else {
      CommittedProper(Earlier(h), name);
      if Checks(Final(h), name) {
        assert Genuine(h[|h| - 1].c);
        var o := SightingOf(Final(h), name);
        var i :| 0 <= i < |Final(h).sightings| && Final(h).sightings[i] == o;
      }
    }
  }

  lemma {:induction false} RotationsSinceRestart(k: Record)
    requires AllProper(k)
    ensures InStep(Outcome(k).fingerprint, RotationsIn(ToldSince(k)))
  {
    hide NextState, Emitted, InStep, Proper;
    if k == [] || Restarts(Newest(k)) {
      NothingAnnounced(Outcome(k).fingerprint);
    } else {
      RotationsSinceRestart(Older(k));
      var rules, step := Newest(k).rules, Newest(k).step;
      assert Proper(k[|k| - 1].step.obs);
      EvaluationInStep(rules, Starting(k), step.obs, step.now, RotationsIn(ToldSince(Older(k))));
      RotationsInConcat(ToldSince(Older(k)), Emitted(rules, Starting(k), step.obs, step.now));
    }
  }

  lemma NothingAnnounced(fingerprint: Option<string>)
    ensures InStep(fingerprint, RotationsIn([]))
  {
  }

  /**
   * Over any run, failed deliveries included, each rotation delivered since the last digest, or
   * since the target was last forgotten, starts from the fingerprint the previous one announced, and
   * the last one announced is stored. Without either, that is the whole log.
   */
  lemma DeliveredRotationsChain(h: Schedule, name: string)
    requires Regular(h)
    ensures var k := Committed(h, name);
            && OwnLog(map[], h, name) == Opening(k) + ToldSince(k)
            && InStep(Stored(map[], h, name).fingerprint, RotationsIn(ToldSince(k)))
            && (NoDigest(h) && ClockForward(h) && Remembered(h, name) ==> ToldSince(k) == OwnLog(map[], h, name))
  {
    hide Stored, OwnLog, RotationsIn, InStep, Committed, Outcome, ToldSince, Opening, Told, Base, Since, AllProper;
    var k := Committed(h, name);
    CommittedRefinement(h, name);
    CommittedProper(h, name);
    RotationsSinceRestart(k);
    OpeningThenSince(k);
    if NoDigest(h) && ClockForward(h) && Remembered(h, name) {
      NeverRestarts(h, name);
      assert [] + ToldSince(k) == ToldSince(k);
    }
  }
}
