/**
 * The cycle as a protocol that can be cut short anywhere: sinks answer one by one, the save is a
 * sequence of file-system steps, and between any two steps the cycle may raise or the machine crash.
 */
module Protocol {
  import opened Common
  import opened Strings
  import opened State
  import opened Scheduler
  import opened Cycles
  import opened Honesty
  import opened Atomic

  datatype Phase =
    | Idle
    | Delivering(c: Inspection, left: nat, ok: bool)
    | Saving(next: map<string, Entry>, done: nat, delivered: bool)

  /**
   * `log` holds the cycles whose events no sink refused: every notifier that admits an event of
   * such a cycle accepted it. `digest` says whether the next cycle of the daemon is a startup digest.
   */
  datatype World = World(dir: Disk, log: Log, phase: Phase, digest: bool)

  type Disk = Directory<map<string, Entry>>

  /** A file the path may name. */
  type Named = Option<Inode<map<string, Entry>>>

  function StatesIn(file: Named): States {
    Loaded(if file.None? then None else Some(file.value.cached))
  }

  function StoreIn(dir: Disk): States {
    StatesIn(dir.file)
  }

  ghost predicate Admissible(c: Inspection) {
    Genuine(c) && Distinct(c) && forall i :: 0 <= i < |c.sightings| ==> !c.sightings[i].muted
  }

  // ---- The steps ----

  /** Load, check and evaluate; with no events there is nothing to deliver. */
  ghost predicate Begins(w: World, w': World, c: Inspection, sinks: nat) {
    && w.phase.Idle? && Admissible(c) && c.reportAll == w.digest
    && w' == w.(phase := if Folded(c, StoreIn(w.dir)).events == []
                         then Saving(Payload(After(c, StoreIn(w.dir), true)), 0, true)
                         else Delivering(c, sinks, true))
  }

  /** One sink answers; the others are still attempted whatever it says. */
  ghost predicate Answers(w: World, w': World, accepted: bool) {
    && w.phase.Delivering? && w.phase.left > 0
    && w' == w.(phase := Delivering(w.phase.c, w.phase.left - 1, w.phase.ok && accepted))
  }

  /** All sinks have answered: log the events or roll back, and start saving. */
  ghost predicate Decides(w: World, w': World) {
    && w.phase.Delivering? && w.phase.left == 0
    && var c, ok := w.phase.c, w.phase.ok;
       w' == w.(log := LogAfter(c, StoreIn(w.dir), ok, w.log),
                phase := Saving(Payload(After(c, StoreIn(w.dir), ok)), 0, ok))
  }

  /** One step of the atomic write. */
  ghost predicate Writes(w: World, w': World) {
    && w.phase.Saving? && w.phase.done < |STEPS|
    && w' == w.(dir := Apply(w.dir, STEPS[w.phase.done], w.phase.next, STATE_MODE),
                phase := Saving(w.phase.next, w.phase.done + 1, w.phase.delivered))
  }

  /** The cycle returns; a delivered digest is not repeated. */
  ghost predicate Returns(w: World, w': World) {
    && w.phase.Saving? && w.phase.done == |STEPS|
    && w' == w.(phase := Idle, digest := w.digest && !w.phase.delivered)
  }

  /** The cycle raises, at any point; the daemon goes on with the same `digest`. */
  ghost predicate Raises(w: World, w': World) {
    && !w.phase.Idle?
    && w' == w.(phase := Idle, dir := if w.phase.Saving? && w.phase.done > 0 then Cleanup(w.dir) else w.dir)
  }

  /** The machine crashes and the daemon starts again, under whatever configuration. */
  ghost predicate Crashes(w: World, w': World) {
    Recovers(w.dir, w'.dir) && w'.log == w.log && w'.phase.Idle?
  }

  ghost predicate Next(w: World, w': World) {
    || (exists c, sinks :: Begins(w, w', c, sinks))
    || (exists accepted :: Answers(w, w', accepted))
    || Decides(w, w')
    || Writes(w, w')
    || Returns(w, w')
    || Raises(w, w')
    || Crashes(w, w')
  }

  /** Nothing has ever been stored or delivered. */
  ghost predicate Initial(w: World) {
    w.dir == Directory(None, None, []) && w.log == [] && w.phase.Idle?
  }

  ghost predicate Path(b: seq<World>) {
    b != [] && forall i :: 0 <= i < |b| - 1 ==> Next(b[i], b[i + 1])
  }

  ghost predicate Behaviour(b: seq<World>) {
    Path(b) && Initial(b[0])
  }

  // ---- The invariant ----

  /** Every file the path may name is complete, and claims only alerts that were delivered. */
  ghost predicate Sound(dir: Disk, log: Log) {
    Durable(dir) && forall file :: Holds(dir, file) ==> SoundFile(file, log)
  }

  ghost predicate SoundFile(file: Named, log: Log) {
    (file.Some? ==> file.value.cached.Whole?) && Honest(StatesIn(file), log)
  }

  /** How far the temporary file has come after n steps of the write. */
  ghost predicate Underway(dir: Disk, next: map<string, Entry>, n: nat) {
    && n <= |STEPS|
    && (0 < n < |STEPS| ==> dir.temp.Some?)
    && (3 <= n < |STEPS| ==> dir.temp.value.cached == Whole(next))
    && (5 <= n < |STEPS| ==> dir.temp.value.durable == Whole(next))
  }

  ghost predicate Invariant(w: World) {
    && Sound(w.dir, w.log)
    && (w.phase.Delivering? ==> Admissible(w.phase.c))
    && (w.phase.Saving? ==>
          && Underway(w.dir, w.phase.next, w.phase.done)
          && Honest(Loaded(Some(Whole(w.phase.next))), w.log))
  }

  /** Writing a store and reading it back keeps each entry's alerts and stamps. */
  lemma HonestPayload(states: States, log: Log)
    requires Honest(states, log)
    ensures Honest(Loaded(Some(Whole(Payload(states)))), log)
  {
    hide AlertedAt, SortSeq;
    var back := Loaded(Some(Whole(Payload(states))));
    forall name | name in back ensures Truthful(back[name], log) {
      SortSeqActive(states[name].activeAlerts);
      assert states[name].notifiedAt == back[name].notifiedAt;
    }
  }

  lemma SortSeqActive(keys: seq<string>)
    ensures forall k :: k in SortSeq(keys) <==> k in keys
  {
    assert forall k :: k in SortSeq(keys) <==> k in multiset(SortSeq(keys));
    assert forall k :: k in keys <==> k in multiset(keys);
  }

  lemma HonestLonger(states: States, log: Log, more: Log)
    requires Honest(states, log)
    ensures Honest(states, log + more)
  {
    hide Truthful;
    forall name | name in states ensures Truthful(states[name], log + more) {
      TruthfulLonger(states[name], log, more);
    }
  }

  lemma SoundLonger(dir: Disk, log: Log, more: Log)
    requires Sound(dir, log)
    ensures Sound(dir, log + more)
  {
    hide Durable, Holds, Honest;
    forall file | Holds(dir, file) ensures SoundFile(file, log + more) {
      assert SoundFile(file, log);
      HonestLonger(StatesIn(file), log, more);
    }
  }

  lemma StoreIsHonest(dir: Disk, log: Log)
    requires Sound(dir, log)
    ensures Honest(StoreIn(dir), log)
  {
    hide Honest, Durable;
    assert Holds(dir, dir.file);
  }

  lemma BeginsKeeps(w: World, w': World, c: Inspection, sinks: nat)
    requires Invariant(w) && Begins(w, w', c, sinks)
    ensures Invariant(w')
  {
    hide Honest, After, Folded, Payload, Loaded, Sound;
    var start := StoreIn(w.dir);
    if Folded(c, start).events == [] {
      StoreIsHonest(w.dir, w.log);
      HonestCycle(c, start, true, w.log);
      HonestPayload(After(c, start, true), w.log);
    }
  }

  lemma DecidesKeeps(w: World, w': World)
    requires Invariant(w) && Decides(w, w')
    ensures Invariant(w')
  {
    hide Honest, After, Folded, Payload, Loaded, Sound;
    var c, ok, start := w.phase.c, w.phase.ok, StoreIn(w.dir);
    StoreIsHonest(w.dir, w.log);
    HonestCycle(c, start, ok, w.log);
    HonestPayload(After(c, start, ok), w'.log);
    LogGrows(c, start, ok, w.log);
    SoundLonger(w.dir, w.log, w'.log[|w.log|..]);
  }

  lemma WritesKeeps(w: World, w': World)
    requires Invariant(w) && Writes(w, w')
    ensures Invariant(w')
  {
    hide Honest, Loaded;
    forall file | Holds(w'.dir, file) ensures Settled(file) && SoundFile(file, w.log) {
      assert Holds(w.dir, file) || file == w.dir.temp;
    }
  }

  lemma CrashesKeeps(w: World, w': World)
    requires Sound(w.dir, w.log) && Crashes(w, w')
    ensures Invariant(w')
  {
    hide Honest, Loaded;
    forall g | Holds(w'.dir, g) ensures Settled(g) && SoundFile(g, w.log) {
      assert RecoversTo(w.dir, g);
      var f :| Holds(w.dir, f) && InodeRecovers(f, g);
      assert Settled(f) && SoundFile(f, w.log);
      assert g == f;
    }
  }

  /** Every step keeps the invariant. */
  lemma NextKeeps(w: World, w': World)
    requires Invariant(w) && Next(w, w')
    ensures Invariant(w')
  {
    if c, sinks :| Begins(w, w', c, sinks) {
      BeginsKeeps(w, w', c, sinks);
    } else if Decides(w, w') {
      DecidesKeeps(w, w');
    } else if Writes(w, w') {
      WritesKeeps(w, w');
    } else if Crashes(w, w') {
      CrashesKeeps(w, w');
    } else {
      hide Honest, Loaded, Begins, Decides, Writes, Crashes, SoundFile;
      assert forall file :: Holds(w'.dir, file) <==> Holds(w.dir, file);
    }
  }

  lemma {:induction false} PathKeeps(b: seq<World>, i: nat)
    requires Path(b) && Invariant(b[0]) && i < |b|
    ensures Invariant(b[i])
  {
    hide Next, Invariant;
    if i == 0 {
    } else {
      PathKeeps(b, i - 1);
      NextKeeps(b[i - 1], b[i - 1 + 1]);
    }
  }

  lemma InitialIsSound(w: World)
    requires Initial(w)
    ensures Invariant(w)
  {
    assert Loaded(None) == map[];
  }

  /**
   * In every reachable state, and in whatever a crash there leaves behind, the file is complete and
   * each alert it claims to have sent is stamped with the time of a cycle that delivered it. A crash
   * may even bring back the file of an earlier cycle.
   */
  lemma PersistedNeverOverclaims(b: seq<World>, i: nat, after: World)
    requires Behaviour(b) && i < |b| && (after == b[i] || Crashes(b[i], after))
    ensures after.dir.file.Some? ==> after.dir.file.value.cached.Whole?
    ensures Honest(StoreIn(after.dir), after.log)
  {
    hide Honest, Crashes, Begins, Decides, Writes, Durable;
    InitialIsSound(b[0]);
    PathKeeps(b, i);
    if after != b[i] {
      CrashesKeeps(b[i], after);
    }
    assert Holds(after.dir, after.dir.file);
  }
}
