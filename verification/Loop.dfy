/**
 * The daemon itself: each cycle that RunOnce performs, however it ends, is a run of the protocol's
 * steps, and so is any number of them under run_loop.
 */
module Loop {
  import opened Common
  import opened Models
  import opened State
  import opened Evaluator
  import opened Notifiers
  import opened Atomic
  import opened Scheduler
  import opened Honesty
  import opened Protocol
  import Persistence
  import Runs

  // ---- The digest flag of the daemon ----

  /** How one attempt at a cycle ended for the daemon's loop. */
  datatype Attempt = Raised | Finished(delivered: bool)

  /** The flag run_loop passes to its n-th cycle. */
  function ReportAll(startup: bool, attempts: seq<Attempt>): bool {
    if attempts == [] then startup
    else
      var before := ReportAll(startup, attempts[..|attempts| - 1]);
      match attempts[|attempts| - 1]
      case Raised => before
      case Finished(delivered) => before && !delivered
  }

  /** Digests are repeated until the first one that is delivered, and never after it. */
  lemma {:induction false} DigestUntilDelivered(startup: bool, attempts: seq<Attempt>)
    ensures ReportAll(startup, attempts) <==> startup && Finished(true) !in attempts
  {
    if attempts == [] {
    } else {
      var n := |attempts| - 1;
      assert attempts == attempts[..n] + [attempts[n]];
      DigestUntilDelivered(startup, attempts[..n]);
    }
  }

  // ---- Runs of protocol steps ----

  ghost predicate Reaches(w: World, w': World) {
    exists b :: Path(b) && b[0] == w && b[|b| - 1] == w'
  }

  lemma ReachesSelf(w: World)
    ensures Reaches(w, w)
  {
    assert Path([w]);
  }

  lemma ReachesNext(w: World, via: World, w': World)
    requires Reaches(w, via) && Next(via, w')
    ensures Reaches(w, w')
  {
    hide Next;
    var b :| Path(b) && b[0] == w && b[|b| - 1] == via;
    var longer := b + [w'];
    forall i | 0 <= i < |longer| - 1 ensures Next(longer[i], longer[i + 1]) {
      assert longer[i] == b[i] && longer[i + 1] == if i + 1 < |b| then b[i + 1] else w';
    }
    assert Path(longer);
  }

  lemma ReachesTrans(w: World, via: World, w': World)
    requires Reaches(w, via) && Reaches(via, w')
    ensures Reaches(w, w')
  {
    hide Next;
    var a :| Path(a) && a[0] == w && a[|a| - 1] == via;
    var b :| Path(b) && b[0] == via && b[|b| - 1] == w';
    var whole := a + b[1..];
    forall i | 0 <= i < |whole| - 1 ensures Next(whole[i], whole[i + 1]) {
      if i + 1 < |a| {
        assert whole[i] == a[i] && whole[i + 1] == a[i + 1];
      } else {
        assert whole[i] == b[i + 1 - |a|] && whole[i + 1] == b[i + 1 - |a| + 1];
      }
    }
    assert Path(whole) && whole[|whole| - 1] == w';
  }

  lemma ReachesKeeps(w: World, w': World)
    requires Reaches(w, w') && Invariant(w)
    ensures Invariant(w')
  {
    hide Next, Invariant;
    var b :| Path(b) && b[0] == w && b[|b| - 1] == w';
    PathKeeps(b, |b| - 1);
  }

  /** The sinks answer one by one; together they say `ok`. */
  lemma {:induction false} AnswersReach(w: World, via: World, c: Inspection, left: nat, sofar: bool, ok: bool)
    requires Reaches(w, via) && via.phase == Delivering(c, left, sofar)
    requires (ok ==> sofar) && (left == 0 ==> ok == sofar)
    ensures Reaches(w, via.(phase := Delivering(c, 0, ok)))
    decreases left
  {
    hide Reaches;
    if left == 0 {
    } else {
      var next := via.(phase := Delivering(c, left - 1, sofar && ok));
      assert Answers(via, next, ok);
      ReachesNext(w, via, next);
      AnswersReach(w, next, c, left - 1, sofar && ok, ok);
    }
  }

  /** The save after n of its steps. */
  function SavedUpTo(w: World, next: map<string, Entry>, n: nat, delivered: bool): World
    requires n <= |STEPS|
  {
    w.(dir := Progress(w.dir, next, STATE_MODE, n), phase := Saving(next, n, delivered))
  }

  lemma {:induction false} WritesReach(w: World, via: World, next: map<string, Entry>, n: nat, delivered: bool)
    requires n <= |STEPS| && Reaches(w, SavedUpTo(via, next, 0, delivered))
    ensures Reaches(w, SavedUpTo(via, next, n, delivered))
  {
    hide Reaches, Apply;
    if n == 0 {
    } else {
      WritesReach(w, via, next, n - 1, delivered);
      assert Writes(SavedUpTo(via, next, n - 1, delivered), SavedUpTo(via, next, n, delivered));
      ReachesNext(w, SavedUpTo(via, next, n - 1, delivered), SavedUpTo(via, next, n, delivered));
    }
  }

  function Position(step: Step): (n: nat)
    ensures n < |STEPS| && STEPS[n] == step
  {
    match step
    case CreateTemp => 0
    case WriteBuffer => 1
    case Flush => 2
    case Chmod => 3
    case Fsync => 4
    case Replace => 5
  }

  /** A save that has begun ends with the cycle returning or raising, and leaves what the write leaves. */
  lemma SaveReaches(w: World, via: World, next: map<string, Entry>, delivered: bool, faults: Faults)
    requires Reaches(w, via.(phase := Saving(next, 0, delivered)))
    ensures Reaches(w, via.(dir := Written(via.dir, next, STATE_MODE, faults.save), phase := Idle,
                            digest := via.digest && (!delivered || faults.save.Some? || faults.metrics)))
  {
    hide Reaches, Apply;
    var n := if faults.save.Some? then Position(faults.save.value) else |STEPS|;
    WritesReach(w, via, next, n, delivered);
    ProgressMeaning(via.dir, next, STATE_MODE, n);
    var before := SavedUpTo(via, next, n, delivered);
    var end := via.(dir := Written(via.dir, next, STATE_MODE, faults.save), phase := Idle,
                    digest := via.digest && (!delivered || faults.save.Some? || faults.metrics));
    if faults.save.Some? || faults.metrics {
      assert Raises(before, end);
    } else {
      assert Returns(before, end);
    }
    ReachesNext(w, before, end);
  }

  /** What a cycle that was not cut short by a crash leaves. */
  ghost function CycleEnds(w: World, c: Inspection, accepted: bool, faults: Faults): World {
    var start := StoreIn(w.dir);
    World(Written(w.dir, Payload(After(c, start, accepted)), STATE_MODE, faults.save),
          LogAfter(c, start, accepted, w.log), Idle,
          w.digest && (!Delivered(c, start, accepted) || faults.save.Some? || faults.metrics))
  }

  /** Such a cycle is a run of protocol steps, whichever sinks and whatever else failed. */
  lemma CycleReaches(w: World, c: Inspection, accepted: bool, sinks: nat, faults: Faults)
    requires w.phase.Idle? && Admissible(c) && c.reportAll == w.digest
    requires !accepted ==> sinks > 0
    ensures Reaches(w, CycleEnds(w, c, accepted, faults))
  {
    hide Reaches, Folded, Payload, Loaded, Written, Admissible;
    var start := StoreIn(w.dir);
    var next, delivered := Payload(After(c, start, accepted)), Delivered(c, start, accepted);
    ReachesSelf(w);
    var begun := w.(phase := if Folded(c, start).events == [] then Saving(next, 0, true)
                             else Delivering(c, sinks, true));
    assert Begins(w, begun, c, sinks);
    ReachesNext(w, w, begun);
    var via := w.(log := LogAfter(c, start, accepted, w.log));
    if Folded(c, start).events != [] {
      AnswersReach(w, begun, c, sinks, true, accepted);
      var answered := begun.(phase := Delivering(c, 0, accepted));
      assert Decides(answered, via.(phase := Saving(next, 0, accepted)));
      ReachesNext(w, answered, via.(phase := Saving(next, 0, accepted)));
    }
    SaveReaches(w, via, next, delivered, faults);
  }

  // ---- The methods ----

  /** What the outside world does during one cycle. */
  datatype Input = Input(
    outcomes: seq<Option<seq<Target>>>, check: Target -> CheckResult, now: Time, outside: Outside, faults: Faults)

  /** A check answers for the target it was given, and no target of the cycle expects to be unreachable. */
  ghost predicate Watchable(configured: seq<Target>, input: Input) {
    && (forall t: Target :: input.check(t).target == t)
    && (forall t :: t in Targets(configured, input.outcomes) ==> !ExpectsUnreachable(t))
  }

  lemma InputIsAdmissible(configured: seq<Target>, input: Input, rules: Rules, reportAll: bool)
    requires DistinctNames(configured) && Watchable(configured, input)
    ensures Admissible(Inspection(rules, reportAll, input.now,
                                  Observations(Checked(Targets(configured, input.outcomes), input.check))))
  {
    hide Observe, Targets;
    var targets := Targets(configured, input.outcomes);
    var results := Checked(targets, input.check);
    AllTargetsDistinct(configured, input.outcomes);
    SafeSightings(targets, Inspection(rules, reportAll, input.now, Observations(results)), results);
  }

  lemma InvariantIsReadable(w: World)
    requires Invariant(w)
    ensures Durable(w.dir) && (w.dir.file.Some? ==> w.dir.file.value.cached.Whole?)
  {
    hide Honest, Durable;
    assert Holds(w.dir, w.dir.file);
  }

  // ---- The run of completed cycles behind the loop ----

  /** The cycle as the theorems about runs see it. */
  ghost function Performed(
    configured: seq<Target>, rules: Rules, reportAll: bool, notifiers: seq<Notifier>, input: Input, start: States)
    : Runs.Completed
  {
    var results := Checked(Targets(configured, input.outcomes), input.check);
    var c := Inspection(rules, reportAll, input.now, Observations(results));
    Runs.Completed(c, AllAccept(notifiers, Folded(c, start).events, input.outside))
  }

  /** The cycle comes to replace the file. */
  predicate Saves(input: Input) {
    !input.faults.early && input.faults.save.None?
  }

  /** The cycles of the loop that replaced the file. */
  ghost function Ran(
    configured: seq<Target>, rules: Rules, notifiers: seq<Notifier>, inputs: seq<Input>, flags: seq<bool>,
    start: States)
    : Runs.Schedule
    requires |flags| == |inputs|
  {
    if inputs == [] then []
    else
      var n := |inputs| - 1;
      var h := Ran(configured, rules, notifiers, inputs[..n], flags[..n], start);
      if Saves(inputs[n]) then
        h + [Performed(configured, rules, flags[n], notifiers, inputs[n], Runs.Saved(start, h))]
      else h
  }

  /** The events of a log, in order. */
  function Flat(log: Log): seq<Event> {
    if log == [] then [] else Flat(log[..|log| - 1]) + log[|log| - 1].events
  }

  lemma FlatLogAfter(c: Inspection, start: States, accepted: bool, log: Log)
    ensures Flat(LogAfter(c, start, accepted, log)) == Flat(log) + if accepted then Folded(c, start).events else []
  {
    hide Folded;
    var next := LogAfter(c, start, accepted, log);
    if next != log {
      assert next[..|next| - 1] == log;
    }
  }

  /** What has been stored, and what delivered, is that of the run h of completed cycles. */
  ghost predicate KeepsUp(w: World, start: States, log: Log, h: Runs.Schedule, lossless: bool) {
    && StoreIn(w.dir) == Runs.Saved(start, h) && Persistence.AllSorted(StoreIn(w.dir))
    && (lossless ==> Flat(w.log) == Flat(log) + Runs.DeliveredLog(start, h))
  }

  /** A cycle that replaces the file extends the run. */
  lemma SavedFollows(
    w: World, w': World, p: Runs.Completed, start: States, log: Log, h: Runs.Schedule, lossless: bool)
    requires KeepsUp(w, start, log, h, lossless)
    requires StoreIn(w'.dir) == Loaded(Some(Whole(Payload(After(p.c, StoreIn(w.dir), p.accepted)))))
    requires w'.log == LogAfter(p.c, StoreIn(w.dir), p.accepted, w.log)
    ensures KeepsUp(w', start, log, h + [p], lossless)
  {
    hide After, Folded, Payload, Loaded, Persistence.AllSorted, LogAfter;
    assert Runs.Earlier(h + [p]) == h;
    var next := After(p.c, StoreIn(w.dir), p.accepted);
    Persistence.AfterSorted(p.c, StoreIn(w.dir), p.accepted);
    SortedReloads(next);
    FlatLogAfter(p.c, StoreIn(w.dir), p.accepted, w.log);
  }

  lemma SortedReloads(states: States)
    requires Persistence.AllSorted(states)
    ensures Loaded(Some(Whole(Payload(states)))) == states
  {
    hide Loaded, Payload;
    StoreRoundTrip(states);
  }

  /** A cycle that does not replace the file, and delivers nothing that counts, does not. */
  lemma UnsavedFollows(w: World, w': World, start: States, log: Log, h: Runs.Schedule, lossless: bool)
    requires KeepsUp(w, start, log, h, lossless)
    requires StoreIn(w'.dir) == StoreIn(w.dir) && (lossless ==> w'.log == w.log)
    ensures KeepsUp(w', start, log, h, lossless)
  {
  }

  lemma NothingRan(w: World, configured: seq<Target>, rules: Rules, notifiers: seq<Notifier>)
    ensures Persistence.AllSorted(StoreIn(w.dir)) ==>
              forall lossless :: KeepsUp(w, StoreIn(w.dir), w.log,
                                         Ran(configured, rules, notifiers, [], [], StoreIn(w.dir)), lossless)
  {
    hide Persistence.AllSorted;
    assert Flat(w.log) + [] == Flat(w.log);
  }

  lemma RanNext(
    configured: seq<Target>, rules: Rules, notifiers: seq<Notifier>, inputs: seq<Input>, n: nat, flags: seq<bool>,
    flag: bool, start: States)
    requires n < |inputs| && |flags| == n
    ensures var h := Ran(configured, rules, notifiers, inputs[..n], flags, start);
            Ran(configured, rules, notifiers, inputs[..n + 1], flags + [flag], start)
            == if Saves(inputs[n]) then
                 h + [Performed(configured, rules, flag, notifiers, inputs[n], Runs.Saved(start, h))]
               else h
  {
    hide Performed, Saves;
    assert inputs[..n + 1][..n] == inputs[..n] && (flags + [flag])[..n] == flags;
  }

  /** Either way the run keeps up with the cycle. */
  lemma CycleFollows(
    w: World, w': World, configured: seq<Target>, rules: Rules, reportAll: bool, notifiers: seq<Notifier>,
    input: Input, start: States, log: Log, h: Runs.Schedule, lossless: bool)
    requires KeepsUp(w, start, log, h, lossless) && (lossless ==> input.faults.save.None?)
    requires var p := Performed(configured, rules, reportAll, notifiers, input, StoreIn(w.dir));
             && StoreIn(w'.dir) == (if Saves(input) then
                                      Loaded(Some(Whole(Payload(After(p.c, StoreIn(w.dir), p.accepted)))))
                                    else StoreIn(w.dir))
             && w'.log == if input.faults.early then w.log else LogAfter(p.c, StoreIn(w.dir), p.accepted, w.log)
    ensures var p := Performed(configured, rules, reportAll, notifiers, input, Runs.Saved(start, h));
            KeepsUp(w', start, log, if Saves(input) then h + [p] else h, lossless)
  {
    hide Performed, Loaded, Payload, After, LogAfter, Flat, Persistence.AllSorted;
    var p := Performed(configured, rules, reportAll, notifiers, input, StoreIn(w.dir));
    if Saves(input) {
      SavedFollows(w, w', p, start, log, h, lossless);
    } else {
      UnsavedFollows(w, w', start, log, h, lossless);
    }
  }

  lemma EndMeans(w: World, c: Inspection, accepted: bool, faults: Faults)
    ensures var w', start := CycleEnds(w, c, accepted, faults), StoreIn(w.dir);
            && w'.phase.Idle? && w'.log == LogAfter(c, start, accepted, w.log)
            && w'.dir == Written(w.dir, Payload(After(c, start, accepted)), STATE_MODE, faults.save)
            && w'.digest == (w.digest && (!Delivered(c, start, accepted) || faults.save.Some? || faults.metrics))
            && StoreIn(w'.dir) == if faults.save.None? then Loaded(Some(Whole(Payload(After(c, start, accepted)))))
                                  else start
  {
    hide After, Payload, Loaded, LogAfter, Delivered;
  }

  lemma NobodyRefuses(events: seq<Event>, outside: Outside)
    ensures AllAccept([], events, outside)
  {
  }

  /** One cycle of the daemon, and the world it leaves. */
  method RunCycle(
    disk: FileSystem<map<string, Entry>>, configured: seq<Target>, rules: Rules, reportAll: bool,
    notifiers: seq<Notifier>, input: Input, ghost w: World)
    returns (attempt: Attempt, ghost w': World)
    requires Invariant(w) && w.phase.Idle? && w.dir == disk.dir && w.digest == reportAll
    requires DistinctNames(configured) && Watchable(configured, input)
    modifies disk
    ensures Reaches(w, w') && Invariant(w') && w'.phase.Idle? && w'.dir == disk.dir
    ensures w'.digest == (reportAll && attempt != Finished(true))
    ensures var p := Performed(configured, rules, reportAll, notifiers, input, StoreIn(w.dir));
            && StoreIn(w'.dir) == (if Saves(input) then
                                     Loaded(Some(Whole(Payload(After(p.c, StoreIn(w.dir), p.accepted)))))
                                   else StoreIn(w.dir))
            && w'.log == if input.faults.early then w.log else LogAfter(p.c, StoreIn(w.dir), p.accepted, w.log)
  {
    InvariantIsReadable(w);
    InputIsAdmissible(configured, input, rules, reportAll);
    hide Reaches, Invariant, Watchable, Targets, Checked, Observations, AllAccept, CycleEnds, Admissible;
    hide Folded, After, Payload, Loaded, Written, OwedCalls, LogAfter;
    ghost var start := StoreIn(w.dir);
    assert Readable(disk.Content()) && Loaded(disk.Content()) == start;
    hide StoreIn, Delivered, Readable;
    ghost var p := Performed(configured, rules, reportAll, notifiers, input, start);
    var raised, report := RunOnce(disk, configured, input.outcomes, input.check, rules, reportAll, input.now,
                                  notifiers, input.outside, input.faults);
    attempt := if raised then Attempt.Raised else Finished(report.delivered);
    if input.faults.early {
      w' := w;
      ReachesSelf(w);
      return;
    }
    w' := CycleEnds(w, p.c, p.accepted, input.faults);
    EndMeans(w, p.c, p.accepted, input.faults);
    NobodyRefuses(Folded(p.c, start).events, input.outside);
    CycleReaches(w, p.c, p.accepted, |notifiers|, input.faults);
    ReachesKeeps(w, w');
  }

  /**
   * run_loop over as many cycles as are given: each is handed the flag the digest rule gives, and
   * the store it leaves behind, wherever it fails, claims only alerts that were delivered. The store
   * is that of the run of the cycles that replaced the file, and so is the log if no save failed.
   */
  method RunLoop(
    disk: FileSystem<map<string, Entry>>, configured: seq<Target>, rules: Rules, startup: bool,
    notifiers: seq<Notifier>, inputs: seq<Input>, ghost w: World)
    returns (attempts: seq<Attempt>, flags: seq<bool>, ghost w': World)
    requires Invariant(w) && w.phase.Idle? && w.dir == disk.dir && w.digest == startup
    requires DistinctNames(configured) && forall i :: 0 <= i < |inputs| ==> Watchable(configured, inputs[i])
    modifies disk
    ensures |attempts| == |flags| == |inputs|
    ensures forall i :: 0 <= i < |inputs| ==> flags[i] == ReportAll(startup, attempts[..i])
    ensures Reaches(w, w') && w'.dir == disk.dir && Honest(StoreIn(disk.dir), w'.log)
    ensures Persistence.AllSorted(StoreIn(w.dir)) ==>
              KeepsUp(w', StoreIn(w.dir), w.log, Ran(configured, rules, notifiers, inputs, flags, StoreIn(w.dir)),
                      forall i :: 0 <= i < |inputs| ==> inputs[i].faults.save.None?)
  {
    hide Reaches, Watchable, Invariant, Honest, KeepsUp, Ran, Performed, Loaded, StoreIn, LogAfter;
    ghost var start := StoreIn(w.dir);
    ghost var lossless := forall i :: 0 <= i < |inputs| ==> inputs[i].faults.save.None?;
    var reportAll := startup;
    attempts, flags, w' := [], [], w;
    ReachesSelf(w);
    NothingRan(w, configured, rules, notifiers);
    assert inputs[..0] == [];
    for n := 0 to |inputs|
      invariant |attempts| == |flags| == n
      invariant Invariant(w') && w'.phase.Idle? && w'.dir == disk.dir && w'.digest == reportAll
      invariant Reaches(w, w')
      invariant reportAll == ReportAll(startup, attempts)
      invariant forall i :: 0 <= i < n ==> flags[i] == ReportAll(startup, attempts[..i])
      invariant Persistence.AllSorted(start) ==>
                  KeepsUp(w', start, w.log, Ran(configured, rules, notifiers, inputs[..n], flags, start), lossless)
    {
      ghost var before, tried := w', attempts;
      ghost var h := Ran(configured, rules, notifiers, inputs[..n], flags, start);
      RanNext(configured, rules, notifiers, inputs, n, flags, reportAll, start);
      var attempt;
      flags := flags + [reportAll];
      attempt, w' := RunCycle(disk, configured, rules, reportAll, notifiers, inputs[n], w');
      ReachesTrans(w, before, w');
      if Persistence.AllSorted(start) {
        CycleFollows(before, w', configured, rules, reportAll, notifiers, inputs[n], start, w.log, h, lossless);
      }
      attempts := attempts + [attempt];
      assert attempts[..n] == tried && forall i :: 0 <= i < n ==> attempts[..i] == tried[..i];
      match attempt
      case Raised =>
      case Finished(delivered) => reportAll := reportAll && !delivered;
    }
    assert inputs[..|inputs|] == inputs;
    InvariantIsHonest(w');
  }

  lemma InvariantIsHonest(w: World)
    requires Invariant(w)
    ensures Honest(StoreIn(w.dir), w.log)
  {
    StoreIsHonest(w.dir, w.log);
  }
}
