/** One inspection cycle: check, evaluate, deliver, roll back what was not delivered, prune, save. */
module Scheduler {
  import opened Common
  import opened Models
  import opened State
  import opened Evaluator
  import opened Notifiers
  import opened Atomic

  /** A week, in seconds. */
  const STATE_RETENTION_SECONDS: Time := 7.0 * 24.0 * 3600.0

  /** What a cycle works on once its targets have been checked. */
  datatype Inspection = Inspection(rules: Rules, reportAll: bool, now: Time, sightings: seq<Observation>)

  // ---- Targets ----

  function NamesOf(targets: seq<Target>): set<string> {
    set t | t in targets :: t.name
  }

  ghost predicate DistinctNames(targets: seq<Target>) {
    forall i, j :: 0 <= i < j < |targets| ==> targets[i].name != targets[j].name
  }

  /** The hosts of every source whose query succeeded, in source order; a failed source is skipped. */
  function Discovered(outcomes: seq<Option<seq<Target>>>): seq<Target> {
    if outcomes == [] then []
    else
      var n := |outcomes| - 1;
      Discovered(outcomes[..n]) + if outcomes[n].Some? then outcomes[n].value else []
  }

  method ResolveDiscovered(outcomes: seq<Option<seq<Target>>>) returns (targets: seq<Target>)
    ensures targets == Discovered(outcomes)
  {
    targets := [];
    for i := 0 to |outcomes|
      invariant targets == Discovered(outcomes[..i])
    {
      assert outcomes[..i + 1][..i] == outcomes[..i];
      if outcomes[i].Some? {
        targets := targets + outcomes[i].value;
      }
    }
    assert outcomes[..|outcomes|] == outcomes;
  }

  /** The targets whose name is neither known nor borne by an earlier one. */
  function Newcomers(known: set<string>, discovered: seq<Target>): seq<Target> {
    if discovered == [] then []
    else
      var n := |discovered| - 1;
      Newcomers(known, discovered[..n])
      + if discovered[n].name in known + NamesOf(discovered[..n]) then [] else [discovered[n]]
  }

  /** Every new name is kept exactly once. */
  lemma {:induction false} NewcomersMeaning(known: set<string>, discovered: seq<Target>)
    ensures DistinctNames(Newcomers(known, discovered))
    ensures NamesOf(Newcomers(known, discovered)) == NamesOf(discovered) - known
  {
    if discovered == [] {
    } else {
      var n := |discovered| - 1;
      var front, last := discovered[..n], discovered[n];
      NewcomersMeaning(known, front);
      assert discovered == front + [last];
      NamesOfSnoc(front, last);
      var kept := Newcomers(known, front);
      NewcomersLater(known, front, last);
      NamesOfSnoc(kept, last);
      OneMore(NamesOf(front), known, last.name);
      hide NamesOf, Newcomers, DistinctNames;
      if last.name in known + NamesOf(front) {
        assert kept + [] == kept;
      } else {
        NewestName(kept, last);
      }
    }
  }

  lemma OneMore<T>(a: set<T>, known: set<T>, x: T)
    ensures a + {x} - known == if x in known + a then a - known else a - known + {x}
  {
  }

  lemma NewcomersLater(known: set<string>, front: seq<Target>, last: Target)
    ensures Newcomers(known, front + [last])
            == Newcomers(known, front) + if last.name in known + NamesOf(front) then [] else [last]
  {
    hide NamesOf;
    assert (front + [last])[..|front|] == front;
  }

  /** A name is kept by its first bearer. */
  lemma NewcomersFirst(known: set<string>, discovered: seq<Target>, t: Target)
    requires t in Newcomers(known, discovered)
    ensures exists i :: 0 <= i < |discovered| && discovered[i] == t
                        && forall j :: 0 <= j < i ==> discovered[j].name != t.name
  {
    hide NamesOf, Newcomers;
    var i := FirstBearer(known, discovered, t);
  }

  lemma {:induction false} FirstBearer(known: set<string>, discovered: seq<Target>, t: Target) returns (i: nat)
    requires t in Newcomers(known, discovered)
    ensures i < |discovered| && discovered[i] == t
    ensures forall j :: 0 <= j < i ==> discovered[j].name != t.name
    decreases |discovered|
  {
    hide NamesOf, Newcomers;
    NewcomersLast(known, discovered, t);
    i := |discovered| - 1;
    var front := discovered[..i];
    if t in Newcomers(known, front) {
      i := FirstBearer(known, front, t);
    } else {
      forall j | 0 <= j < i ensures discovered[j].name != t.name {
        NameListed(front, j);
      }
    }
  }

  lemma NewcomersLast(known: set<string>, discovered: seq<Target>, t: Target)
    requires t in Newcomers(known, discovered)
    ensures discovered != []
    ensures var n := |discovered| - 1;
            || t in Newcomers(known, discovered[..n])
            || (t == discovered[n] && t.name !in NamesOf(discovered[..n]))
  {
    hide NamesOf;
  }

  lemma NameListed(targets: seq<Target>, i: nat)
    requires i < |targets|
    ensures targets[i].name in NamesOf(targets)
  {
  }

  lemma NamesOfSnoc(targets: seq<Target>, t: Target)
    ensures NamesOf(targets + [t]) == NamesOf(targets) + {t.name}
  {
    assert forall u :: u in targets + [t] <==> u in targets || u == t;
  }

  lemma NewestName(targets: seq<Target>, t: Target)
    requires DistinctNames(targets) && t.name !in NamesOf(targets)
    ensures DistinctNames(targets + [t])
  {
    forall i | 0 <= i < |targets| ensures targets[i].name != t.name {
      assert targets[i] in targets;
    }
  }

  lemma NewcomersEmpty(known: set<string>)
    ensures Newcomers(known, []) == [] && NamesOf([]) == {}
  {
  }

  lemma NewcomersSnoc(known: set<string>, discovered: seq<Target>, i: nat)
    requires i < |discovered|
    ensures Newcomers(known, discovered[..i + 1])
            == Newcomers(known, discovered[..i])
               + if discovered[i].name in known + NamesOf(discovered[..i]) then [] else [discovered[i]]
    ensures NamesOf(discovered[..i + 1]) == NamesOf(discovered[..i]) + {discovered[i].name}
  {
    assert discovered[..i + 1][..i] == discovered[..i];
    assert discovered[..i + 1] == discovered[..i] + [discovered[i]];
    NamesOfSnoc(discovered[..i], discovered[i]);
  }

  /** The targets of a cycle: the configured ones, then the newcomers among the discovered ones. */
  function Targets(configured: seq<Target>, outcomes: seq<Option<seq<Target>>>): seq<Target> {
    configured + Newcomers(NamesOf(configured), Discovered(outcomes))
  }

  method AllTargets(configured: seq<Target>, outcomes: seq<Option<seq<Target>>>) returns (targets: seq<Target>)
    ensures targets == Targets(configured, outcomes)
  {
    hide Newcomers, NamesOf, Discovered;
    NewcomersEmpty(NamesOf(configured));
    targets := configured;
    var known := NamesOf(configured);
    var discovered := ResolveDiscovered(outcomes);
    for i := 0 to |discovered|
      invariant discovered[..0] == [] && targets == configured + Newcomers(NamesOf(configured), discovered[..i])
      invariant known == NamesOf(configured) + NamesOf(discovered[..i])
    {
      var target := discovered[i];
      NewcomersSnoc(NamesOf(configured), discovered, i);
      if target.name !in known {
        targets := targets + [target];
        known := known + {target.name};
      }
    }
    assert discovered[..|discovered|] == discovered;
  }

  // ---- The targets of a cycle, on the outcomes of the queries ----

  /** Where something was discovered: the source, and the place in its answer. */
  type Spot = (nat, nat)

  predicate Precedes(a: Spot, b: Spot) {
    a.0 < b.0 || (a.0 == b.0 && a.1 < b.1)
  }

  predicate FoundAt(outcomes: seq<Option<seq<Target>>>, at: Spot, t: Target) {
    && at.0 < |outcomes| && outcomes[at.0].Some?
    && at.1 < |outcomes[at.0].value| && outcomes[at.0].value[at.1] == t
  }

  /** The place of every discovered target. */
  ghost function Spots(outcomes: seq<Option<seq<Target>>>): seq<Spot> {
    if outcomes == [] then []
    else
      var n := |outcomes| - 1;
      Spots(outcomes[..n])
      + if outcomes[n].Some? then seq(|outcomes[n].value|, j requires 0 <= j < |outcomes[n].value| => (n, j)) else []
  }

  /** Each target with its place, in increasing order. */
  ghost predicate Placed(outcomes: seq<Option<seq<Target>>>, spots: seq<Spot>, targets: seq<Target>) {
    && |spots| == |targets|
    && (forall m :: 0 <= m < |spots| ==> FoundAt(outcomes, spots[m], targets[m]))
    && (forall m, n :: 0 <= m < n < |spots| ==> Precedes(spots[m], spots[n]))
  }

  lemma PlacedMore(
    front: seq<Option<seq<Target>>>, last: Option<seq<Target>>, spots: seq<Spot>, targets: seq<Target>, more: seq<Spot>)
    requires Placed(front, spots, targets)
    requires |more| == (if last.Some? then |last.value| else 0)
    requires forall j :: 0 <= j < |more| ==> more[j] == (|front|, j)
    ensures Placed(front + [last], spots + more, targets + if last.Some? then last.value else [])
  {
    var all, found := spots + more, targets + if last.Some? then last.value else [];
    forall m | 0 <= m < |all| ensures FoundAt(front + [last], all[m], found[m]) {
      if m < |spots| {
        assert FoundAt(front, spots[m], targets[m]);
      }
    }
    forall m, n | 0 <= m < n < |all| ensures Precedes(all[m], all[n]) {
      if m < |spots| {
        assert FoundAt(front, spots[m], targets[m]);
      }
    }
  }

  lemma {:induction false} SpotsMeaning(outcomes: seq<Option<seq<Target>>>)
    ensures Placed(outcomes, Spots(outcomes), Discovered(outcomes))
  {
    if outcomes == [] {
    } else {
      var n := |outcomes| - 1;
      SpotsMeaning(outcomes[..n]);
      hide Placed;
      var more :=
        if outcomes[n].Some? then seq(|outcomes[n].value|, j requires 0 <= j < |outcomes[n].value| => (n, j)) else [];
      PlacedMore(outcomes[..n], outcomes[n], Spots(outcomes[..n]), Discovered(outcomes[..n]), more);
      assert outcomes == outcomes[..n] + [outcomes[n]];
    }
  }

  /** Every answer of every source that answered is among them. */
  lemma {:induction false} SpotOf(outcomes: seq<Option<seq<Target>>>, at: Spot, t: Target) returns (m: nat)
    requires FoundAt(outcomes, at, t)
    ensures m < |Spots(outcomes)| == |Discovered(outcomes)| && Spots(outcomes)[m] == at && Discovered(outcomes)[m] == t
    decreases |outcomes|
  {
    var n := |outcomes| - 1;
    SpotsMeaning(outcomes[..n]);
    if at.0 == n {
      m := |Spots(outcomes[..n])| + at.1;
    } else {
      m := SpotOf(outcomes[..n], at, t);
    }
  }

  /** The places of the newcomers in the list they come from. */
  ghost function Picked(known: set<string>, discovered: seq<Target>): seq<nat> {
    if discovered == [] then []
    else
      var n := |discovered| - 1;
      Picked(known, discovered[..n]) + if discovered[n].name in known + NamesOf(discovered[..n]) then [] else [n]
  }

  /** The kept targets stand at these places, each the first bearer of a name that is not known. */
  ghost predicate Picks(known: set<string>, discovered: seq<Target>, at: seq<nat>, kept: seq<Target>) {
    && |at| == |kept|
    && (forall k :: 0 <= k < |at| ==> at[k] < |discovered| && discovered[at[k]] == kept[k])
    && (forall k, l :: 0 <= k < l < |at| ==> at[k] < at[l])
    && (forall k, j :: 0 <= k < |at| && 0 <= j < at[k] && j < |discovered| ==> discovered[j].name != kept[k].name)
    && (forall k :: 0 <= k < |at| ==> kept[k].name !in known)
  }

  lemma PicksLonger(known: set<string>, front: seq<Target>, at: seq<nat>, kept: seq<Target>, last: Target)
    requires Picks(known, front, at, kept)
    ensures Picks(known, front + [last], at, kept)
  {
  }

  lemma PicksNext(known: set<string>, front: seq<Target>, at: seq<nat>, kept: seq<Target>, last: Target)
    requires Picks(known, front + [last], at, kept) && last.name !in known
    requires forall k :: 0 <= k < |at| ==> at[k] < |front|
    requires forall j :: 0 <= j < |front| ==> front[j].name != last.name
    ensures Picks(known, front + [last], at + [|front|], kept + [last])
  {
  }

  lemma {:induction false} PickedMeaning(known: set<string>, discovered: seq<Target>)
    ensures Picks(known, discovered, Picked(known, discovered), Newcomers(known, discovered))
  {
    if discovered == [] {
    } else {
      var n := |discovered| - 1;
      var front, last := discovered[..n], discovered[n];
      PickedMeaning(known, front);
      assert discovered == front + [last];
      var at, kept := Picked(known, front), Newcomers(known, front);
      assert forall k :: 0 <= k < |at| ==> at[k] < |front|;
      PicksLonger(known, front, at, kept, last);
      hide Picks, NamesOf;
      if last.name in known + NamesOf(front) {
        assert at + [] == at && kept + [] == kept;
      } else {
        forall j | 0 <= j < n ensures front[j].name != last.name {
          NameListed(front, j);
        }
        PicksNext(known, front, at, kept, last);
      }
    }
  }

  /** The targets added by discovery, each with the place it was found at. */
  ghost predicate Added(
    configured: seq<Target>, outcomes: seq<Option<seq<Target>>>, added: seq<Target>, at: seq<Spot>)
  {
    && |at| == |added|
    && (forall k :: 0 <= k < |at| ==> FoundAt(outcomes, at[k], added[k]))
    && (forall k, l :: 0 <= k < l < |at| ==> Precedes(at[k], at[l]))
    && (forall k, t :: 0 <= k < |at| && t in configured ==> added[k].name != t.name)
    && (forall k, spot, t :: 0 <= k < |at| && FoundAt(outcomes, spot, t) && Precedes(spot, at[k]) ==>
          t.name != added[k].name)
  }

  /**
   * A cycle checks the configured targets and then, in the order of the sources and of their answers,
   * every answer of every source that did answer whose name is new: not configured and not borne by an
   * earlier answer. A source that fails takes nothing from the others.
   */
  lemma TargetsExactly(configured: seq<Target>, outcomes: seq<Option<seq<Target>>>)
    ensures configured <= Targets(configured, outcomes)
    ensures exists at :: Added(configured, outcomes, Targets(configured, outcomes)[|configured|..], at)
    ensures forall spot, t :: FoundAt(outcomes, spot, t) ==>
              exists u :: u in Targets(configured, outcomes) && u.name == t.name
  {
    hide Discovered, NamesOf, Newcomers, FoundAt;
    var added := Newcomers(NamesOf(configured), Discovered(outcomes));
    assert Targets(configured, outcomes)[|configured|..] == added;
    var at := AddedAt(configured, outcomes);
    forall spot, t | FoundAt(outcomes, spot, t)
      ensures exists u :: u in Targets(configured, outcomes) && u.name == t.name
    {
      NothingMissed(configured, outcomes, spot, t);
    }
  }

  lemma NothingMissed(configured: seq<Target>, outcomes: seq<Option<seq<Target>>>, spot: Spot, t: Target)
    requires FoundAt(outcomes, spot, t)
    ensures exists u :: u in Targets(configured, outcomes) && u.name == t.name
  {
    hide Discovered, Newcomers, FoundAt, Spots;
    var known, discovered := NamesOf(configured), Discovered(outcomes);
    var added := Newcomers(known, discovered);
    var m := SpotOf(outcomes, spot, t);
    NewcomersMeaning(known, discovered);
    NameListed(discovered, m);
    if t.name in known {
      var u :| u in configured && u.name == t.name;
      assert u in configured + added;
    } else {
      assert t.name in NamesOf(added);
      var u :| u in added && u.name == t.name;
      assert u in configured + added;
    }
  }

  lemma AddedAt(configured: seq<Target>, outcomes: seq<Option<seq<Target>>>) returns (at: seq<Spot>)
    ensures Added(configured, outcomes, Newcomers(NamesOf(configured), Discovered(outcomes)), at)
  {
    var known, discovered := NamesOf(configured), Discovered(outcomes);
    var added, picked, spots := Newcomers(known, discovered), Picked(known, discovered), Spots(outcomes);
    SpotsMeaning(outcomes);
    PickedMeaning(known, discovered);
    hide Discovered, Newcomers, Picked, Spots, FoundAt, Precedes;
    at := seq(|picked|, k requires 0 <= k < |picked| => spots[picked[k]]);
    forall k, t | 0 <= k < |at| && t in configured ensures added[k].name != t.name {
      assert t.name in known;
    }
    forall k, spot, t | 0 <= k < |at| && FoundAt(outcomes, spot, t) && Precedes(spot, at[k])
      ensures t.name != added[k].name
    {
      var m := SpotOf(outcomes, spot, t);
      Asymmetric(spot, at[k]);
      InOrder(spots, m, picked[k]);
    }
  }

  lemma InOrder(spots: seq<Spot>, m: nat, n: nat)
    requires m < |spots| && n < |spots| && !Precedes(spots[n], spots[m]) && spots[n] != spots[m]
    requires forall i, j :: 0 <= i < j < |spots| ==> Precedes(spots[i], spots[j])
    ensures m < n
  {
  }

  lemma Asymmetric(a: Spot, b: Spot)
    requires Precedes(a, b)
    ensures !Precedes(b, a) && a != b
  {
  }

  /** Discovery never introduces a clash: only the configured list can. */
  lemma AllTargetsDistinct(configured: seq<Target>, outcomes: seq<Option<seq<Target>>>)
    ensures DistinctNames(Targets(configured, outcomes)) <==> DistinctNames(configured)
  {
    var added := Newcomers(NamesOf(configured), Discovered(outcomes));
    var all := Targets(configured, outcomes);
    NewcomersMeaning(NamesOf(configured), Discovered(outcomes));
    if DistinctNames(configured) {
      forall i, j | 0 <= i < j < |all| ensures all[i].name != all[j].name {
        if j >= |configured| {
          assert all[j] == added[j - |configured|];
          assert added[j - |configured|].name in NamesOf(added);
          if i < |configured| {
            assert configured[i].name in NamesOf(configured);
          } else {
            assert all[i] == added[i - |configured|];
          }
        }
      }
    }
    if DistinctNames(all) {
      forall i, j | 0 <= i < j < |configured| ensures configured[i].name != configured[j].name {
        assert all[i] == configured[i] && all[j] == configured[j];
      }
    }
  }

  // ---- The evaluation of all results ----

  /** What the results of the checks show, target by target. */
  function Observations(results: seq<CheckResult>): seq<Observation> {
    seq(|results|, i requires 0 <= i < |results| => Observe(results[i]))
  }

  /** A digest confirms at once; flap dampening is for the change-driven cycles. */
  function RulesOf(c: Inspection): Rules {
    if c.reportAll then c.rules.(failureThreshold := 1) else c.rules
  }

  /** A digest ignores what is stored when it decides what to report. */
  function PreviousOf(c: Inspection, stored: TargetState): TargetState {
    if c.reportAll then NEW_STATE else stored
  }

  ghost function EventsFor(c: Inspection, stored: TargetState, o: Observation): seq<Event> {
    Emitted(RulesOf(c), PreviousOf(c, stored), o, c.now)
  }

  ghost function StateFor(c: Inspection, stored: TargetState, o: Observation): TargetState {
    NextState(RulesOf(c), PreviousOf(c, stored), o, c.now).(lastSeen := Some(c.now))
  }

  /** The store, the states it held before, and the events, after some of the results. */
  datatype Fold = Fold(store: States, stored: States, events: seq<Event>)

  ghost function FoldResults(c: Inspection, start: States, n: nat): Fold
    requires n <= |c.sightings|
  {
    if n == 0 then Fold(start, map[], [])
    else
      var f := FoldResults(c, start, n - 1);
      var o := c.sightings[n - 1];
      var s := Lookup(f.store, o.name);
      Fold(f.store[o.name := StateFor(c, s, o)], f.stored[o.name := s], f.events + EventsFor(c, s, o))
  }

  ghost function Folded(c: Inspection, start: States): Fold {
    FoldResults(c, start, |c.sightings|)
  }

  function EventTargets(events: seq<Event>): set<string> {
    set e | e in events :: e.target
  }

  /** The targets that produced events get back the state they had before, as seen just now. */
  function RolledBack(f: Fold, now: Time): States {
    map name | name in f.store + f.stored
      :: if name in f.stored && name in EventTargets(f.events) then f.stored[name].(lastSeen := Some(now))
         else if name in f.store then f.store[name] else f.stored[name]
  }

  /** The store a cycle saves, given whether the sinks accepted its events. */
  ghost function After(c: Inspection, start: States, accepted: bool): States {
    var f := Folded(c, start);
    Pruned(if f.events == [] || accepted then f.store else RolledBack(f, c.now), c.now - STATE_RETENTION_SECONDS)
  }

  ghost predicate Delivered(c: Inspection, start: States, accepted: bool) {
    Folded(c, start).events == [] || accepted
  }

  lemma {:induction false} StoredWithinStore(c: Inspection, start: States, n: nat)
    requires n <= |c.sightings|
    ensures FoldResults(c, start, n).stored.Keys <= FoldResults(c, start, n).store.Keys
  {
    hide EventsFor, StateFor, Lookup;
    if n == 0 {
    } else {
      StoredWithinStore(c, start, n - 1);
    }
  }

  // ---- The cycle itself ----

  datatype Report = Report(results: seq<CheckResult>, events: seq<Event>, delivered: bool, calls: seq<Call>)

  /** What the state file is written with: only the owner may read it. */
  const STATE_MODE: nat := 384

  /** What raises during a cycle: a query or check, a step of saving the state, or writing the metrics after it. */
  datatype Faults = Faults(early: bool, save: Option<Step>, metrics: bool)

  /** One result per target, in the same order. */
  function Checked(targets: seq<Target>, check: Target -> CheckResult): seq<CheckResult> {
    seq(|targets|, i requires 0 <= i < |targets| => check(targets[i]))
  }

  /**
   * run_once: afterwards the file holds exactly the store After describes, and the report says
   * what was emitted and whether every sink took it. The cycle raises when saving fails, and then
   * the file is as it was though the events have gone out, and when writing the metrics fails, and
   * then the new file is in place. When a query or a check raises, or the state file is not text,
   * the cycle is over before it has changed or sent anything.
   */
  method RunOnce(
    disk: FileSystem<map<string, Entry>>, configured: seq<Target>, outcomes: seq<Option<seq<Target>>>,
    check: Target -> CheckResult, rules: Rules, reportAll: bool, now: Time, notifiers: seq<Notifier>,
    outside: Outside, faults: Faults)
    returns (raised: bool, report: Report)
    requires Durable(disk.dir)
    modifies disk
    ensures !Readable(old(disk.Content())) || faults.early ==>
              raised && disk.dir == old(disk.dir) && report.calls == []
    ensures Readable(old(disk.Content())) && !faults.early ==>
              var c := Inspection(rules, reportAll, now, Observations(report.results));
              var start := Loaded(old(disk.Content()));
              var accepted := AllAccept(notifiers, report.events, outside);
              && report.results == Checked(Targets(configured, outcomes), check)
              && (|report.results| == |Targets(configured, outcomes)|
                  && forall i :: 0 <= i < |report.results| ==>
                       report.results[i] == check(Targets(configured, outcomes)[i]))
              && report.events == Folded(c, start).events
              && report.delivered == Delivered(c, start, accepted)
              && report.calls == (if report.events == [] then [] else OwedCalls(notifiers, report.events))
              && raised == (faults.save.Some? || faults.metrics)
              && disk.dir == Written(old(disk.dir), Payload(After(c, start, accepted)), STATE_MODE, faults.save)
    ensures !raised ==> disk.dir.file.Some? && disk.dir.file.value.mode == 6 * 8 * 8
    ensures Durable(disk.dir)
  {
    hide FoldResults, RolledBack, Pruned, Payload, Loaded, OwedCalls, AllAccept, Observe;
    hide Newcomers, Discovered, NamesOf;
    if !Readable(disk.Content()) || faults.early {
      return true, Report([], [], true, []);
    }
    var store := new StateStore(disk.Content());
    ghost var start := store.states;
    var targets := AllTargets(configured, outcomes);
    var results := Checked(targets, check);
    ghost var c := Inspection(rules, reportAll, now, Observations(results));
    var events, stored := EvaluateAll(store, results, rules, reportAll, now);
    var delivered, calls := true, [];
    if events != [] {
      delivered, calls := Deliver(notifiers, events, outside);
    }
    StoredWithinStore(c, start, |results|);
    if !delivered {
      RollBack(store, stored, events, now);
    }
    ghost var unpruned := store.states;
    store.Prune(now - STATE_RETENTION_SECONDS);
    PrunedMeans(unpruned, store.states, now - STATE_RETENTION_SECONDS);
    var written := disk.AtomicWrite(Payload(store.states), STATE_MODE, faults.save);
    raised := !written || faults.metrics;
    report := Report(results, events, delivered, calls);
  }

  lemma SetMeans(before: States, after: States, name: string, state: TargetState)
    requires name in after && after[name] == state
    requires forall n :: n != name ==> (n in after <==> n in before)
    requires forall n :: n != name && n in after ==> after[n] == before[n]
    ensures after == before[name := state]
  {
  }

  lemma PrunedMeans(before: States, after: States, cutoff: Time)
    requires forall n :: n in after <==>
               n in before && before[n].lastSeen.Some? && before[n].lastSeen.value >= cutoff
    requires forall n :: n in after ==> after[n] == before[n]
    ensures after == Pruned(before, cutoff)
  {
  }

  lemma ObserveName(r: CheckResult)
    ensures Observe(r).name == r.target.name
  {
  }

  lemma FoldStep(c: Inspection, start: States, i: nat, o: Observation)
    requires i < |c.sightings| && c.sightings[i] == o
    ensures var f := FoldResults(c, start, i);
            var s := Lookup(f.store, o.name);
            FoldResults(c, start, i + 1)
            == Fold(f.store[o.name := StateFor(c, s, o)], f.stored[o.name := s], f.events + EventsFor(c, s, o))
  {
  }

  method EvaluateAll(store: StateStore, results: seq<CheckResult>, rules: Rules, reportAll: bool, now: Time)
    returns (events: seq<Event>, stored: States)
    modifies store
    ensures Fold(store.states, stored, events)
            == Folded(Inspection(rules, reportAll, now, Observations(results)), old(store.states))
  {
    hide Emitted, NextState, Observe;
    ghost var c := Inspection(rules, reportAll, now, Observations(results));
    events, stored := [], map[];
    for i := 0 to |results|
      invariant Fold(store.states, stored, events) == FoldResults(c, old(store.states), i)
    {
      FoldStep(c, old(store.states), i, Observe(results[i]));
      var name := results[i].target.name;
      var before, emitted := EvaluateOne(store, results[i], rules, reportAll, now, c);
      stored := stored[name := before];
      events := events + emitted;
    }
  }

  method EvaluateOne(
    store: StateStore, result: CheckResult, rules: Rules, reportAll: bool, now: Time, ghost c: Inspection)
    returns (stored: TargetState, events: seq<Event>)
    requires c.rules == rules && c.reportAll == reportAll && c.now == now
    modifies store
    ensures result.target.name == Observe(result).name
    ensures stored == Lookup(old(store.states), result.target.name)
    ensures store.states == old(store.states)[result.target.name := StateFor(c, stored, Observe(result))]
    ensures events == EventsFor(c, stored, Observe(result))
  {
    var state;
    stored := store.Get(result.target.name);
    var previous := if reportAll then NEW_STATE else stored;
    var threshold := if reportAll then 1 else rules.failureThreshold;
    events, state := Evaluate(result, previous, now, rules.(failureThreshold := threshold));
    ghost var before := store.states;
    store.Set(result.target.name, state.(lastSeen := Some(now)));
    SetMeans(before, store.states, result.target.name, state.(lastSeen := Some(now)));
    ObserveName(result);
  }

  /** The targets in `done` have their remembered state back. */
  ghost predicate BackSoFar(current: States, before: States, stored: States, done: set<string>, now: Time) {
    && current.Keys == before.Keys
    && forall name :: name in current ==>
         current[name] == if name in stored && name in done then stored[name].(lastSeen := Some(now)) else before[name]
  }

  lemma BackStep(
    current: States, next: States, before: States, stored: States, done: set<string>, name: string, now: Time)
    requires BackSoFar(current, before, stored, done, now) && stored.Keys <= before.Keys
    requires next == if name in stored then current[name := stored[name].(lastSeen := Some(now))] else current
    ensures BackSoFar(next, before, stored, done + {name}, now)
  {
  }

  lemma BackAll(current: States, before: States, stored: States, events: seq<Event>, now: Time)
    requires BackSoFar(current, before, stored, EventTargets(events), now) && stored.Keys <= before.Keys
    ensures current == RolledBack(Fold(before, stored, events), now)
  {
    hide EventTargets;
  }

  method RollBack(store: StateStore, stored: States, events: seq<Event>, now: Time)
    requires stored.Keys <= store.states.Keys
    modifies store
    ensures store.states == RolledBack(Fold(old(store.states), stored, events), now)
  {
    var left := EventTargets(events);
    assert EventTargets(events) - left == {};
    assert BackSoFar(store.states, old(store.states), stored, {}, now);
    hide EventTargets, BackSoFar, RolledBack;
    while left != {}
      invariant left <= EventTargets(events)
      invariant BackSoFar(store.states, old(store.states), stored, EventTargets(events) - left, now)
    {
      ghost var before, done := store.states, EventTargets(events) - left;
      var name :| name in left;
      left := left - {name};
      if name in stored {
        store.Set(name, stored[name].(lastSeen := Some(now)));
        SetMeans(before, store.states, name, stored[name].(lastSeen := Some(now)));
      }
      BackStep(before, store.states, old(store.states), stored, done, name, now);
      assert done + {name} == EventTargets(events) - left;
    }
    assert EventTargets(events) - left == EventTargets(events);
    BackAll(store.states, old(store.states), stored, events, now);
  }
}
