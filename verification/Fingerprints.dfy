/** Certificate rotations over a whole history form one unbroken chain. */
module Fingerprints {
  import opened Common
  import opened Models
  import opened Strings
  import opened State
  import opened Evaluator
  import opened History

  /** One rotation: the fingerprint replaced and its replacement. */
  type Change = (string, string)

  /** The rotations announced in a list of events, in order. */
  function RotationsIn(events: seq<Event>): seq<Change> {
    if events == [] then []
    else
      var last := events[|events| - 1];
      RotationsIn(events[..|events| - 1])
      + if last.kind.FingerprintChanged? && last.details.Rotation? then [(last.details.before, last.details.after)] else []
  }

  lemma {:induction false} RotationsInConcat(a: seq<Event>, b: seq<Event>)
    ensures RotationsIn(a + b) == RotationsIn(a) + RotationsIn(b)
  {
    if b == [] {
      assert a + b == a;
    } else {
      var n := |b| - 1;
      assert (a + b)[..|a + b| - 1] == a + b[..n];
      RotationsInConcat(a, b[..n]);
    }
  }

  /** Each step from one fingerprint to a different one, in order. */
  function Changes(seen: seq<string>): seq<Change> {
    if |seen| < 2 then []
    else
      var n := |seen|;
      Changes(seen[..n - 1]) + if seen[n - 2] != seen[n - 1] then [(seen[n - 2], seen[n - 1])] else []
  }

  ghost predicate Chained(changes: seq<Change>) {
    && (forall i :: 0 <= i < |changes| ==> changes[i].0 != changes[i].1)
    && (forall i :: 0 < i < |changes| ==> changes[i - 1].1 == changes[i].0)
  }

  /** The changes telescope from the first fingerprint to the last. */
  lemma {:induction false} ChangesTelescope(seen: seq<string>)
    ensures Chained(Changes(seen))
    ensures seen != [] && Changes(seen) != [] ==>
              Changes(seen)[0].0 == seen[0] && Changes(seen)[|Changes(seen)| - 1].1 == seen[|seen| - 1]
    ensures seen != [] && Changes(seen) == [] ==> seen[0] == seen[|seen| - 1]
  {
    if |seen| >= 2 {
      ChangesTelescope(seen[..|seen| - 1]);
    }
  }

  /** The non-empty fingerprints of the cycles that reached the target. */
  function Seen(h: Past): seq<string> {
    if h == [] then []
    else
      var o := Last(h).obs;
      Seen(Before(h)) + if o.reachable && Truthy(o.fingerprint) then [o.fingerprint.value] else []
  }

  /** Every rotation reported during a run. */
  ghost function Rotations(rules: Rules, h: Past): seq<Change> {
    if h == [] then []
    else Rotations(rules, Before(h)) + RotationsIn(Reported(rules, NEW_STATE, h))
  }

  lemma {:induction false} LastFingerprintIsLastSeen(h: Past)
    ensures LastFingerprint(h) == if Seen(h) == [] then None else Some(Seen(h)[|Seen(h)| - 1])
    ensures Seen(h) != [] ==> Truthy(LastFingerprint(h))
  {
    if h == [] {
    } else {
      LastFingerprintIsLastSeen(Before(h));
    }
  }

  lemma {:induction false} AlertsAreNoRotations(problems: map<string, Event>, keys: seq<string>)
    requires forall k :: k in problems ==> problems[k].kind.Alertable()
    ensures RotationsIn(EventsOf(problems, keys)) == []
  {
    if keys == [] {
    } else {
      var front, last := keys[..|keys| - 1], keys[|keys| - 1];
      AlertsAreNoRotations(problems, front);
      RotationsInConcat(EventsOf(problems, front), if last in problems then [problems[last]] else []);
    }
  }

  lemma {:induction false} RecoveriesAreNoRotations(name: string, keys: seq<string>)
    ensures RotationsIn(ResolvedEvents(name, keys)) == []
  {
    if keys == [] {
    } else {
      var front := keys[..|keys| - 1];
      RecoveriesAreNoRotations(name, front);
      RotationsInConcat(ResolvedEvents(name, front), [ResolvedEvent(name, keys[|keys| - 1])]);
    }
  }

  /** One cycle announces a rotation exactly when the stored fingerprint was replaced by another. */
  lemma EmittedRotations(rules: Rules, p: TargetState, o: Observation, now: Time)
    requires Proper(o)
    ensures RotationsIn(Emitted(rules, p, o, now))
            == if Rotated(p, o) then [(p.fingerprint.value, o.fingerprint.value)] else []
  {
    var alerts := EventsOf(o.problems, SortSet(Alerted(rules, p, o, now)));
    var recoveries := ResolvedEvents(o.name, SortSet(Cleared(rules, p, o)));
    AlertsAreNoRotations(o.problems, SortSet(Alerted(rules, p, o, now)));
    RecoveriesAreNoRotations(o.name, SortSet(Cleared(rules, p, o)));
    RotationsInConcat(RotationEvents(p, o), alerts);
    RotationsInConcat(RotationEvents(p, o) + alerts, recoveries);
    SingleRotation(p, o);
  }

  lemma SingleRotation(p: TargetState, o: Observation)
    ensures RotationsIn(RotationEvents(p, o))
            == if Rotated(p, o) then [(p.fingerprint.value, o.fingerprint.value)] else []
  {
    var events := RotationEvents(p, o);
    if Rotated(p, o) {
      assert events[..0] == [];
      assert RotationsIn(events[..0]) == [];
    }
  }

  /**
   * The rotations a run reports are exactly the changes between consecutive fingerprints it saw,
   * across unreachable cycles and missing fingerprints.
   */
  lemma {:induction false} RotationsAreChanges(rules: Rules, h: Past)
    requires forall i :: 0 <= i < |h| ==> Proper(h[i].obs)
    ensures Rotations(rules, h) == Changes(Seen(h))
    ensures Chained(Rotations(rules, h))
  {
    ChangesTelescope(Seen(h));
    if h == [] {
    } else {
      var b := Before(h);
      RotationsAreChanges(rules, b);
      HistoryRefinement(rules, b);
      EmittedRotations(rules, Run(rules, NEW_STATE, b), Last(h).obs, Last(h).now);
      StepChanges(h, Described(rules, b).fingerprint);
    }
  }

  lemma ChangesSnoc(seen: seq<string>, next: string)
    ensures Changes(seen + [next])
            == Changes(seen) + if seen != [] && seen[|seen| - 1] != next then [(seen[|seen| - 1], next)] else []
  {
    assert (seen + [next])[..|seen|] == seen;
  }

  lemma StepChanges(h: Past, before: Option<string>)
    requires h != [] && before == LastFingerprint(Before(h))
    ensures var o := Last(h).obs;
            Changes(Seen(h))
            == Changes(Seen(Before(h)))
               + if o.reachable && Truthy(before) && Truthy(o.fingerprint) && o.fingerprint != before
                 then [(before.value, o.fingerprint.value)] else []
  {
    var o, seen := Last(h).obs, Seen(Before(h));
    LastFingerprintIsLastSeen(Before(h));
    if o.reachable && Truthy(o.fingerprint) {
      ChangesSnoc(seen, o.fingerprint.value);
    } else {
      assert Seen(h) == seen;
    }
  }
}
