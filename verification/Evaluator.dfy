/** Turns one check result and the previous state of its target into events and a new state. */
module Evaluator {
  import opened Common
  import opened Models
  import opened Strings
  import opened State

  // ---- Detectors: one per problem dimension ----

  function Problem(r: CheckResult, kind: EventKind, severity: Severity, details: Details): Option<Event> {
    Some(Event(r.target.name, kind, severity, details))
  }

  function Validity(r: CheckResult): Option<Event> {
    if r.raw.status == Some("EXPIRED") || r.raw.status == Some("INVALID DATES") then
      Problem(r, EventKind.Expired, Severity.Critical, Days(r.daysToExpire))
    else if r.raw.status == Some("NOT YET VALID") then
      Problem(r, EventKind.NotYetValid, Severity.Critical, NoDetails)
    else if r.raw.status == Some("CRITICAL") then
      Problem(r, EventKind.Critical, Severity.Critical, Days(r.daysToExpire))
    else if r.raw.status == Some("EXPIRING") then
      Problem(r, EventKind.Expiring, Severity.Warning, Days(r.daysToExpire))
    else None
  }

  function ChainUntrusted(r: CheckResult): Option<Event> {
    if r.chainTrusted != Some(false) then None
    else Problem(r, EventKind.ChainUntrusted, Severity.Critical, NoDetails)
  }

  function Revoked(r: CheckResult): Option<Event> {
    if r.revocation != Some("REVOKED") then None
    else Problem(r, EventKind.Revoked, Severity.Critical, NoDetails)
  }

  function HostnameMismatch(r: CheckResult): Option<Event> {
    if r.hostnameMatch != Some(false) then None
    else Problem(r, EventKind.HostnameMismatch, Severity.Critical, NoDetails)
  }

  function PolicyViolation(r: CheckResult): Option<Event> {
    if r.raw.policyViolations == [] then None
    else Problem(r, EventKind.PolicyViolation, Severity.Critical, Reasons(r.raw.policyViolations))
  }

  function WeakCrypto(r: CheckResult): Option<Event> {
    if r.raw.weak == [] then None
    else Problem(r, EventKind.WeakCrypto, Severity.Warning, Reasons(r.raw.weak))
  }

  function ChainExpiring(r: CheckResult): Option<Event> {
    if r.raw.chainWarnings == [] then None
    else Problem(r, EventKind.ChainExpiring, Severity.Warning, Reasons(r.raw.chainWarnings))
  }

  function Found(found: Option<Event>): seq<Event> {
    if found.Some? then [found.value] else []
  }

  /** The number of problem dimensions. */
  const DETECTORS: nat := 7

  /** The detectors, in the order their events are reported. */
  function Detect(r: CheckResult, dimension: nat): Option<Event> {
    match dimension
    case 0 => Validity(r)
    case 1 => ChainUntrusted(r)
    case 2 => Revoked(r)
    case 3 => HostnameMismatch(r)
    case 4 => PolicyViolation(r)
    case 5 => WeakCrypto(r)
    case 6 => ChainExpiring(r)
    case _ => None
  }

  function DetectFirst(r: CheckResult, n: nat): seq<Event> {
    if n == 0 then [] else DetectFirst(r, n - 1) + Found(Detect(r, n - 1))
  }

  /** detect_problems: one event per distinct problem on the certificate. */
  function DetectProblems(r: CheckResult): seq<Event> {
    DetectFirst(r, DETECTORS)
  }

  /** The position of the detector that reports a kind. */
  function Dimension(kind: EventKind): nat {
    match kind
    case Expired => 0
    case NotYetValid => 0
    case Critical => 0
    case Expiring => 0
    case ChainUntrusted => 1
    case Revoked => 2
    case HostnameMismatch => 3
    case PolicyViolation => 4
    case WeakCrypto => 5
    case ChainExpiring => 6
    case _ => 7
  }

  /**
   * Faults are reported in detector order, never twice, and only as certificate problems: neither
   * UNREACHABLE nor a rotation nor a recovery is ever detected.
   */
  lemma DetectProblemsDistinct(r: CheckResult)
    ensures forall i, j :: 0 <= i < j < |DetectProblems(r)| ==>
              Dimension(DetectProblems(r)[i].kind) < Dimension(DetectProblems(r)[j].kind)
    ensures forall e :: e in DetectProblems(r) ==>
              e.target == r.target.name && e.kind.Alertable() && !e.kind.Unreachable?
  {
    DetectFirstInOrder(r, DETECTORS);
  }

  lemma {:induction false} DetectFirstInOrder(r: CheckResult, n: nat)
    ensures forall i, j :: 0 <= i < j < |DetectFirst(r, n)| ==>
              Dimension(DetectFirst(r, n)[i].kind) < Dimension(DetectFirst(r, n)[j].kind)
    ensures forall e :: e in DetectFirst(r, n) ==>
              Dimension(e.kind) < n && e.target == r.target.name && e.kind.Alertable() && !e.kind.Unreachable?
  {
    if n == 0 {
    } else {
      DetectFirstInOrder(r, n - 1);
      assert Detect(r, n - 1).Some? ==> Dimension(Detect(r, n - 1).value.kind) == n - 1;
    }
  }

  /** The documented severity of each kind of event. */
  function SeverityOf(kind: EventKind): Severity {
    if kind in {EventKind.Expiring, EventKind.WeakCrypto, EventKind.ChainExpiring, EventKind.FingerprintChanged}
    then Severity.Warning
    else if kind.Recovered? then Severity.Info
    else Severity.Critical
  }

  /** What an event of each kind tells besides its target. */
  function DetailsOf(r: CheckResult, kind: EventKind): Details {
    match kind
    case Expiring => Days(r.daysToExpire)
    case Critical => Days(r.daysToExpire)
    case Expired => Days(r.daysToExpire)
    case PolicyViolation => Reasons(r.raw.policyViolations)
    case WeakCrypto => Reasons(r.raw.weak)
    case ChainExpiring => Reasons(r.raw.chainWarnings)
    case Unreachable => Failure(r.error, r.exitCode)
    case _ => NoDetails
  }

  /** The documented trigger of each kind of certificate problem. */
  predicate Triggered(r: CheckResult, kind: EventKind) {
    match kind
    case Expiring => r.raw.status == Some("EXPIRING")
    case Critical => r.raw.status == Some("CRITICAL")
    case Expired => r.raw.status == Some("EXPIRED") || r.raw.status == Some("INVALID DATES")
    case NotYetValid => r.raw.status == Some("NOT YET VALID")
    case Revoked => r.revocation == Some("REVOKED")
    case ChainUntrusted => r.chainTrusted == Some(false)
    case HostnameMismatch => r.hostnameMatch == Some(false)
    case PolicyViolation => r.raw.policyViolations != []
    case WeakCrypto => r.raw.weak != []
    case ChainExpiring => r.raw.chainWarnings != []
    case _ => false
  }

  lemma {:induction false} DetectFirstMembers(r: CheckResult, n: nat, e: Event)
    ensures e in DetectFirst(r, n) <==> exists i: nat :: i < n && Detect(r, i) == Some(e)
  {
    hide Detect;
    if n == 0 {
    } else {
      DetectFirstMembers(r, n - 1, e);
    }
  }

  /** A problem is reported exactly when its trigger is present, with the documented severity and details. */
  lemma DetectionTable(r: CheckResult, kind: EventKind)
    ensures (exists e :: e in DetectProblems(r) && e.kind == kind) <==> Triggered(r, kind)
    ensures forall e :: e in DetectProblems(r) && e.kind == kind ==>
              e.severity == SeverityOf(kind) && e.details == DetailsOf(r, kind)
  {
    hide DetectFirst;
    if Triggered(r, kind) {
      StatusTexts();
      var e := Detect(r, Dimension(kind)).value;
      assert e.kind == kind;
      DetectFirstMembers(r, DETECTORS, e);
    }
    forall e | e in DetectProblems(r) && e.kind == kind
      ensures Triggered(r, kind) && e.severity == SeverityOf(kind) && e.details == DetailsOf(r, kind)
    {
      DetectFirstMembers(r, DETECTORS, e);
      var i: nat :| i < DETECTORS && Detect(r, i) == Some(e);
      DetectedIsTriggered(r, i);
    }
  }

  lemma DetectedIsTriggered(r: CheckResult, i: nat)
    requires Detect(r, i).Some?
    ensures Triggered(r, Detect(r, i).value.kind)
    ensures Detect(r, i).value.severity == SeverityOf(Detect(r, i).value.kind)
    ensures Detect(r, i).value.details == DetailsOf(r, Detect(r, i).value.kind)
  {
  }

  lemma StatusTexts()
    ensures "EXPIRED" != "NOT YET VALID" && "INVALID DATES" != "NOT YET VALID"
    ensures "EXPIRED" != "CRITICAL" && "INVALID DATES" != "CRITICAL"
    ensures "EXPIRING" != "EXPIRED" && "EXPIRING" != "CRITICAL" && "EXPIRING" != "INVALID DATES"
    ensures "EXPIRING" != "NOT YET VALID" && "CRITICAL" != "NOT YET VALID"
  {
    assert "EXPIRING"[0] != "CRITICAL"[0];
  }

  /** The problems whose kind the target does not expect. */
  function Unexpected(events: seq<Event>, expected: seq<string>): (kept: seq<Event>)
    ensures forall e :: e in kept <==> e in events && e.kind.Value() !in expected
  {
    if events == [] then []
    else (if events[0].kind.Value() !in expected then [events[0]] else []) + Unexpected(events[1..], expected)
  }

  /** {event.key(): event for event in events}: a later event replaces an earlier one. */
  function IndexByKey(events: seq<Event>): (index: map<string, Event>)
    ensures forall k :: k in index ==> index[k] in events && index[k].Key() == k
    ensures forall e :: e in events ==> e.Key() in index
  {
    if events == [] then map[]
    else
      var last := events[|events| - 1];
      assert forall e :: e in events <==> e in events[..|events| - 1] || e == last;
      IndexByKey(events[..|events| - 1])[last.Key() := last]
  }

  function UnreachableKey(name: string): string {
    AlertKey(name, EventKind.Unreachable)
  }

  function UnreachableEvent(r: CheckResult): Event {
    Event(r.target.name, EventKind.Unreachable, Severity.Critical, Failure(r.error, r.exitCode))
  }

  /** The target is one that may be down without anybody being told. */
  predicate ExpectsUnreachable(t: Target) {
    EventKind.Unreachable.Value() in t.expected
  }

  // ---- What a check result contributes to the state machine ----

  /**
   * The problems observed by one check, by key. An unreachable target shows exactly one, under
   * `downKey`, which is `muted` when the target expects it.
   */
  datatype Observation = Observation(
    name: string,
    downKey: string,
    reachable: bool,
    muted: bool,
    status: Status,
    fingerprint: Option<string>,
    problems: map<string, Event>)

  function Observe(r: CheckResult): Observation {
    if r.reachable then
      Observation(r.target.name, UnreachableKey(r.target.name), true, false, r.status, r.fingerprint,
                  IndexByKey(Unexpected(DetectProblems(r), r.target.expected)))
    else
      Observation(r.target.name, UnreachableKey(r.target.name), false,
                  ExpectsUnreachable(r.target), r.status, r.fingerprint,
                  map[UnreachableKey(r.target.name) := UnreachableEvent(r)])
  }

  /** What holds of every observation a check can make. */
  ghost predicate Proper(o: Observation) {
    && (forall k :: k in o.problems ==>
          && o.problems[k].target == o.name
          && o.problems[k].kind.Alertable()
          && (o.problems[k].kind.Unreachable? <==> !o.reachable))
    && (o.reachable ==> !o.muted && o.downKey !in o.problems)
    && (!o.reachable ==> o.problems.Keys == {o.downKey})
  }

  /** Every problem is filed under the key of its event. */
  ghost predicate Keyed(o: Observation) {
    && o.downKey == UnreachableKey(o.name)
    && forall k :: k in o.problems ==> o.problems[k].Key() == k
  }

  /** Every reachable problem that is not expected is observed under its own key, and nothing else is. */
  lemma ObserveProper(r: CheckResult)
    ensures Proper(Observe(r)) && Keyed(Observe(r)) && Observe(r).name == r.target.name && Observe(r).reachable == r.reachable
    ensures r.reachable ==> forall k :: k in Observe(r).problems <==>
              exists e :: e in DetectProblems(r) && e.kind.Value() !in r.target.expected && e.Key() == k
    ensures r.reachable ==> forall e :: e in DetectProblems(r) && e.kind.Value() !in r.target.expected ==>
              e.Key() in Observe(r).problems && Observe(r).problems[e.Key()] == e
  {
    var o := Observe(r);
    DetectProblemsDistinct(r);
    if r.reachable {
      if UnreachableKey(o.name) in o.problems {
        AlertKeyInjective(o.name, o.problems[UnreachableKey(o.name)].kind, o.name, EventKind.Unreachable);
      }
      forall e | e in DetectProblems(r) && e.kind.Value() !in r.target.expected
        ensures e.Key() in o.problems && o.problems[e.Key()] == e
      {
        var e' := o.problems[e.Key()];
        AlertKeyInjective(o.name, e.kind, o.name, e'.kind);
        SameKindSameProblem(r, e, e');
      }
    }
  }

  /** `key` names a problem of this target. */
  ghost predicate KeyOf(name: string, key: string) {
    key == KeyText(name, AlertKind(key))
  }

  lemma ProblemKeyOf(o: Observation, key: string)
    requires Proper(o) && Keyed(o) && key in o.problems
    ensures KeyOf(o.name, key)
  {
    AlertKindOfAlertKey(o.name, o.problems[key].kind);
  }

  lemma SameKindSameProblem(r: CheckResult, a: Event, b: Event)
    requires a in DetectProblems(r) && b in DetectProblems(r) && a.kind == b.kind
    ensures a == b
  {
    DetectProblemsDistinct(r);
    var i :| 0 <= i < |DetectProblems(r)| && DetectProblems(r)[i] == a;
    var j :| 0 <= j < |DetectProblems(r)| && DetectProblems(r)[j] == b;
    assert i == j;
  }

  // ---- The transition, stated on sets of keys ----

  /** `renotifyAfter` is the re-alert interval, `failureThreshold` the flap-dampening one. */
  datatype Rules = Rules(renotifyAfter: Option<Time>, failureThreshold: int)

  function PendingCount(p: TargetState, key: string): int {
    if key in p.pending then p.pending[key] else 0
  }

  predicate Confirms(rules: Rules, p: TargetState, key: string) {
    key in p.activeAlerts || PendingCount(p, key) + 1 >= rules.failureThreshold
  }

  function NewActive(rules: Rules, p: TargetState, o: Observation): set<string> {
    set k | k in o.problems && Confirms(rules, p, k)
  }

  function NewPending(rules: Rules, p: TargetState, o: Observation): map<string, int> {
    map k | k in o.problems && !Confirms(rules, p, k) :: PendingCount(p, k) + 1
  }

  predicate Due(rules: Rules, p: TargetState, now: Time, key: string) {
    key !in p.activeAlerts
    || (rules.renotifyAfter.Some? && key in p.notifiedAt && now - p.notifiedAt[key] >= rules.renotifyAfter.value)
  }

  predicate ForceFull(rules: Rules, p: TargetState, o: Observation) {
    !(NewActive(rules, p, o) <= p.Active())
  }

  function LastNotified(p: TargetState, now: Time, key: string): Time {
    if key in p.notifiedAt then p.notifiedAt[key] else now
  }

  /** The problems alerted this cycle. */
  function Alerted(rules: Rules, p: TargetState, o: Observation, now: Time): set<string> {
    set k | k in NewActive(rules, p, o) && !o.muted && (ForceFull(rules, p, o) || Due(rules, p, now, k))
  }

  /** The problems announced as cleared this cycle; none while the target cannot be assessed. */
  function Cleared(rules: Rules, p: TargetState, o: Observation): set<string> {
    if o.reachable then p.Active() - NewActive(rules, p, o) else {}
  }

  predicate Truthy(fingerprint: Option<string>) {
    fingerprint.Some? && fingerprint.value != ""
  }

  predicate Rotated(p: TargetState, o: Observation) {
    o.reachable && Truthy(p.fingerprint) && Truthy(o.fingerprint) && o.fingerprint != p.fingerprint
  }

  function RotationEvents(p: TargetState, o: Observation): seq<Event> {
    if Rotated(p, o) then
      [Event(o.name, EventKind.FingerprintChanged, Severity.Warning, Rotation(p.fingerprint.value, o.fingerprint.value))]
    else []
  }

  function EventsOf(problems: map<string, Event>, keys: seq<string>): seq<Event> {
    if keys == [] then []
    else
      var last := keys[|keys| - 1];
      EventsOf(problems, keys[..|keys| - 1]) + if last in problems then [problems[last]] else []
  }

  lemma NoDifference<T>(a: set<T>, b: set<T>)
    ensures a - b == {} <==> a <= b
  {
    assert forall x :: x in a - b <==> x in a && x !in b;
  }

  lemma EventsOfSnoc(problems: map<string, Event>, keys: seq<string>, key: string)
    requires key in problems
    ensures EventsOf(problems, keys + [key]) == EventsOf(problems, keys) + [problems[key]]
  {
    assert (keys + [key])[..|keys|] == keys;
  }

  function ResolvedEvent(name: string, key: string): Event {
    Event(name, EventKind.Recovered, Severity.Info, Resolved(AlertKind(key)))
  }

  function ResolvedEvents(name: string, keys: seq<string>): seq<Event> {
    if keys == [] then []
    else ResolvedEvents(name, keys[..|keys| - 1]) + [ResolvedEvent(name, keys[|keys| - 1])]
  }

  /** Everything reported this cycle: a rotation, then alerts, then recoveries, each in key order. */
  ghost function Emitted(rules: Rules, p: TargetState, o: Observation, now: Time): seq<Event> {
    RotationEvents(p, o)
    + EventsOf(o.problems, SortSet(Alerted(rules, p, o, now)))
    + ResolvedEvents(o.name, SortSet(Cleared(rules, p, o)))
  }

  function NextNotified(rules: Rules, p: TargetState, o: Observation, now: Time): map<string, Time> {
    map k | k in NewActive(rules, p, o)
      :: if k in Alerted(rules, p, o, now) then now else LastNotified(p, now, k)
  }

  ghost function NextState(rules: Rules, p: TargetState, o: Observation, now: Time): TargetState {
    TargetState(
      if o.reachable && Truthy(o.fingerprint) then o.fingerprint else p.fingerprint,
      Some(o.status),
      SortSet(NewActive(rules, p, o)),
      NextNotified(rules, p, o, now),
      NewPending(rules, p, o),
      None)
  }

  // ---- The evaluator itself ----

  /** What one evaluation needs to know. */
  datatype Cycle = Cycle(result: CheckResult, previous: TargetState, now: Time, rules: Rules) {
    /** Whether the problem is confirmed, and for how many consecutive cycles it has been seen. */
    function Confirm(key: string): (bool, int) {
      if key in previous.activeAlerts then (true, 0)
      else
        var count := PendingCount(previous, key) + 1;
        (count >= rules.failureThreshold, count)
    }
  }

  method UnreachableResult(cycle: Cycle) returns (events: seq<Event>, state: TargetState)
    requires !cycle.result.reachable
    ensures events == Emitted(cycle.rules, cycle.previous, Observe(cycle.result), cycle.now)
    ensures state == NextState(cycle.rules, cycle.previous, Observe(cycle.result), cycle.now)
  {
    hide Emitted, NextState, IndexByKey, DetectProblems, UnreachableKey;
    var name := cycle.result.target.name;
    var key := UnreachableKey(name);
    UnreachableSpec(cycle.rules, cycle.previous, Observe(cycle.result), cycle.now);
    events := [];
    var (confirmed, count) := cycle.Confirm(key);
    if !confirmed {
      state := TargetState(cycle.previous.fingerprint, Some(cycle.result.status), [], map[], map[key := count], None);
      return;
    }
    var notified;
    if !ExpectsUnreachable(cycle.result.target)
       && Due(cycle.rules, cycle.previous, cycle.now, key) {
      events := events + [UnreachableEvent(cycle.result)];
      notified := cycle.now;
    } else {
      notified := LastNotified(cycle.previous, cycle.now, key);
    }
    state := TargetState(cycle.previous.fingerprint, Some(cycle.result.status), [key], map[key := notified], map[], None);
  }

  /** The transition of an unreachable target, spelled out. */
  lemma UnreachableSpec(rules: Rules, p: TargetState, o: Observation, now: Time)
    requires !o.reachable && o.problems.Keys == {o.downKey}
    ensures var key := o.downKey;
            var emit := Confirms(rules, p, key) && !o.muted && Due(rules, p, now, key);
            && Emitted(rules, p, o, now) == (if emit then [o.problems[key]] else [])
            && NextState(rules, p, o, now)
               == if Confirms(rules, p, key) then
                    TargetState(p.fingerprint, Some(o.status), [key],
                                map[key := if emit then now else LastNotified(p, now, key)], map[], None)
                  else
                    TargetState(p.fingerprint, Some(o.status), [], map[], map[key := PendingCount(p, key) + 1], None)
  {
    hide SortSet, NewActive, NewPending, NextNotified, Alerted, Cleared, Due, Confirms;
    var key := o.downKey;
    var none: set<string> := {};
    UnreachableSets(rules, p, o, now);
    SortSetUnique(none, []);
    SortSetUnique({key}, [key]);
    EventsOfSnoc(o.problems, [], key);
    assert [] + [key] == [key];
  }

  lemma UnreachableSets(rules: Rules, p: TargetState, o: Observation, now: Time)
    requires !o.reachable && o.problems.Keys == {o.downKey}
    ensures var key := o.downKey;
            var emit := Confirms(rules, p, key) && !o.muted && Due(rules, p, now, key);
            && Cleared(rules, p, o) == {}
            && Alerted(rules, p, o, now) == (if emit then {key} else {})
            && NewActive(rules, p, o) == (if Confirms(rules, p, key) then {key} else {})
            && NewPending(rules, p, o) == (if Confirms(rules, p, key) then map[] else map[key := PendingCount(p, key) + 1])
            && NextNotified(rules, p, o, now)
               == if Confirms(rules, p, key) then map[key := if emit then now else LastNotified(p, now, key)] else map[]
  {
    hide LastNotified;
    var key := o.downKey;
    assert NewActive(rules, p, o) == if Confirms(rules, p, key) then {key} else {};
    assert Alerted(rules, p, o, now)
           == if Confirms(rules, p, key) && !o.muted && Due(rules, p, now, key) then {key} else {};
  }

  method Evaluate(result: CheckResult, previous: TargetState, now: Time, rules: Rules)
    returns (events: seq<Event>, state: TargetState)
    ensures events == Emitted(rules, previous, Observe(result), now)
    ensures state == NextState(rules, previous, Observe(result), now)
    ensures state.status == Some(result.status)
    ensures state.fingerprint == if result.reachable && result.fingerprint.Some? && result.fingerprint.value != ""
                                 then result.fingerprint else previous.fingerprint
    ensures result.reachable && previous.fingerprint.Some? && result.fingerprint.Some?
            && previous.fingerprint.value != "" && result.fingerprint.value != ""
            && previous.fingerprint.value != result.fingerprint.value ==>
              && events != []
              && events[0] == Event(result.target.name, EventKind.FingerprintChanged, Severity.Warning,
                                    Rotation(previous.fingerprint.value, result.fingerprint.value))
  {
    var cycle := Cycle(result, previous, now, rules);
    if !result.reachable {
      events, state := UnreachableResult(cycle);
      return;
    }
    var rotation := [];
    if Truthy(previous.fingerprint) && Truthy(result.fingerprint) && result.fingerprint != previous.fingerprint {
      rotation := [Event(result.target.name, EventKind.FingerprintChanged, Severity.Warning,
                         Rotation(previous.fingerprint.value, result.fingerprint.value))];
    }
    var problems := Unexpected(DetectProblems(result), result.target.expected);
    assert rotation == RotationEvents(previous, Observe(result));
    events, state := ReachableResult(cycle, rotation, problems, Observe(result));
  }

  /** The rest of the evaluation of a target that was reached. */
  method ReachableResult(cycle: Cycle, rotation: seq<Event>, problems: seq<Event>, ghost o: Observation)
    returns (events: seq<Event>, state: TargetState)
    requires o.reachable && !o.muted && o.name == cycle.result.target.name && o.status == cycle.result.status
    requires o.fingerprint == cycle.result.fingerprint && o.problems == IndexByKey(problems)
    requires rotation == RotationEvents(cycle.previous, o)
    ensures events == Emitted(cycle.rules, cycle.previous, o, cycle.now)
    ensures state == NextState(cycle.rules, cycle.previous, o, cycle.now)
  {
    var active := cycle.previous.Active();
    var byKey := IndexByKey(problems);
    var newActive, newPending := ConfirmAll(cycle, problems);
    assert newActive == NewActive(cycle.rules, cycle.previous, o);
    var forceFull := newActive - active != {};
    NoDifference(newActive, active);
    ghost var alerted := Alerted(cycle.rules, cycle.previous, o, cycle.now);
    var alerts, notified := Announce(cycle, byKey, newActive, forceFull, alerted);
    NotifiedMap(cycle.rules, cycle.previous, o, cycle.now, notified);
    var resolved := SortedSet(active - newActive);
    events := rotation + alerts + ResolvedEvents(cycle.result.target.name, resolved);
    var sortedActive := SortedSet(newActive);
    state := TargetState(
      if Truthy(cycle.result.fingerprint) then cycle.result.fingerprint else cycle.previous.fingerprint,
      Some(cycle.result.status), sortedActive, notified, newPending, None);
  }

  lemma NotifiedMap(rules: Rules, p: TargetState, o: Observation, now: Time, notified: map<string, Time>)
    requires notified.Keys == NewActive(rules, p, o)
    requires forall k :: k in notified ==>
               notified[k] == if k in Alerted(rules, p, o, now) then now else LastNotified(p, now, k)
    ensures notified == NextNotified(rules, p, o, now)
  {
  }

  /** Promotes each problem seen often enough; the others stay pending. */
  method ConfirmAll(cycle: Cycle, problems: seq<Event>)
    returns (newActive: set<string>, newPending: map<string, int>)
    ensures newActive == set k | k in IndexByKey(problems) && Confirms(cycle.rules, cycle.previous, k)
    ensures newPending == map k | k in IndexByKey(problems) && !Confirms(cycle.rules, cycle.previous, k)
                            :: PendingCount(cycle.previous, k) + 1
  {
    hide IndexByKey, AlertKey;
    newActive, newPending := {}, map[];
    ghost var seen: set<string> := {};
    IndexByKeyEmpty();
    for i := 0 to |problems|
      invariant seen == IndexByKey(problems[..i]).Keys
      invariant forall k :: k in newActive <==> k in seen && Confirms(cycle.rules, cycle.previous, k)
      invariant forall k :: k in newPending <==> k in seen && !Confirms(cycle.rules, cycle.previous, k)
      invariant forall k :: k in newPending ==> newPending[k] == PendingCount(cycle.previous, k) + 1
    {
      IndexByKeySnoc(problems, i);
      var key := problems[i].Key();
      seen := seen + {key};
      var (confirmed, count) := cycle.Confirm(key);
      if confirmed {
        newActive := newActive + {key};
      } else {
        newPending := newPending[key := count];
      }
    }
    assert problems[..|problems|] == problems;
  }

  lemma IndexByKeyEmpty()
    ensures IndexByKey([]) == map[]
  {
  }

  lemma IndexByKeySnoc(problems: seq<Event>, i: nat)
    requires i < |problems|
    ensures IndexByKey(problems[..i + 1]).Keys == IndexByKey(problems[..i]).Keys + {problems[i].Key()}
  {
    assert problems[..i + 1][..i] == problems[..i];
  }

  /** Emits the active problems that are new or due, in key order, and stamps them. */
  method Announce(cycle: Cycle, byKey: map<string, Event>, newActive: set<string>, forceFull: bool, ghost alerted: set<string>)
    returns (alerts: seq<Event>, notified: map<string, Time>)
    requires alerted <= newActive <= byKey.Keys
    requires forall k :: k in newActive ==>
               (k in alerted <==> forceFull || Due(cycle.rules, cycle.previous, cycle.now, k))
    ensures alerts == EventsOf(byKey, SortSet(alerted))
    ensures notified.Keys == newActive
    ensures forall k :: k in newActive ==>
              notified[k] == if k in alerted then cycle.now else LastNotified(cycle.previous, cycle.now, k)
  {
    alerts, notified := [], map[];
    var keys := SortedSet(newActive);
    ghost var kept: seq<string> := [];
    for i := 0 to |keys|
      invariant kept == Keep(keys[..i], alerted)
      invariant alerts == EventsOf(byKey, kept)
      invariant notified.Keys == Elements(keys[..i])
      invariant forall k :: k in notified ==>
                  notified[k] == if k in alerted then cycle.now else LastNotified(cycle.previous, cycle.now, k)
    {
      var key := keys[i];
      KeepSnoc(keys, i, alerted);
      if forceFull || Due(cycle.rules, cycle.previous, cycle.now, key) {
        EventsOfSnoc(byKey, kept, key);
        alerts := alerts + [byKey[key]];
        kept := kept + [key];
        notified := notified[key := cycle.now];
      } else {
        notified := notified[key := LastNotified(cycle.previous, cycle.now, key)];
      }
    }
    assert keys[..|keys|] == keys;
    KeepSortSet(newActive, alerted);
  }
}
