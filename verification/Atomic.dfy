/** Writing a file through a temporary one, as a sequence of steps that can be cut short anywhere. */
module Atomic {
  import opened Common
  import opened State

  /** A file as readers see it (`cached`) and as it would be found after a power loss (`durable`). */
  datatype Inode<+T> = Inode(cached: Data<T>, durable: Data<T>, mode: nat)

  /**
   * The target path and the temporary path of the write. The directory itself is never forced to
   * disk: after a power loss the path may name one of the `stale` files it named before.
   */
  datatype Directory<+T> = Directory(file: Option<Inode<T>>, temp: Option<Inode<T>>, stale: seq<Option<Inode<T>>>)

  datatype Step = CreateTemp | WriteBuffer | Flush | Chmod | Fsync | Replace

  const STEPS: seq<Step> := [CreateTemp, WriteBuffer, Flush, Chmod, Fsync, Replace]

  /** mkstemp creates its file readable by the owner only. */
  const TEMP_MODE: nat := 384

  /** One step of writing `value` with permissions `mode`. */
  function Apply<T>(d: Directory<T>, step: Step, value: T, mode: nat): Directory<T> {
    match step
    case CreateTemp => d.(temp := Some(Inode(Torn, Torn, TEMP_MODE)))
    case Replace => if d.temp.Some? then Directory(d.temp, None, d.stale + [d.file]) else d
    case _ =>
      match d.temp
      case None => d
      case Some(t) =>
        d.(temp := Some(
          match step
          case Flush => t.(cached := Whole(value))
          case Chmod => t.(mode := mode)
          case Fsync => t.(durable := t.cached)
          case _ => t))
  }

  /** The `finally` clause: no temporary file is left behind. */
  function Cleanup<T>(d: Directory<T>): Directory<T> {
    d.(temp := None)
  }

  function Progress<T>(d: Directory<T>, value: T, mode: nat, n: nat): Directory<T>
    requires n <= |STEPS|
  {
    if n == 0 then d else Apply(Progress(d, value, mode, n - 1), STEPS[n - 1], value, mode)
  }

  /** What a write of `value` leaves, given the step that fails, if any. */
  function Written<T>(d: Directory<T>, value: T, mode: nat, failing: Option<Step>): Directory<T> {
    match failing
    case None => Directory(Some(Inode(Whole(value), Whole(value), mode)), None, d.stale + [d.file])
    case Some(CreateTemp) => d
    case Some(_) => Cleanup(d)
  }

  predicate Settled<T(==)>(i: Option<Inode<T>>) {
    i.Some? ==> i.value.cached == i.value.durable
  }

  /** The path names this file, or may again after a power loss. */
  ghost predicate Holds<T>(d: Directory<T>, f: Option<Inode<T>>) {
    f == d.file || f in d.stale
  }

  /** Every file the path may name is on disk as readers see it. */
  ghost predicate Durable<T(!new)>(d: Directory<T>) {
    forall f :: Holds(d, f) ==> Settled(f)
  }

  /** What a file may look like after a crash: whatever was not forced to disk may be lost or cut. */
  ghost predicate InodeRecovers<T>(before: Option<Inode<T>>, after: Option<Inode<T>>) {
    && (before.None? <==> after.None?)
    && (before.Some? ==>
          && after.value.mode == before.value.mode
          && after.value.cached == after.value.durable
          && (|| after.value.cached == before.value.cached
              || after.value.cached == before.value.durable
              || (after.value.cached == Torn && before.value.cached != before.value.durable)))
  }

  /**
   * What a crash may leave: the path names some file it could name before, and what it may name
   * after yet another crash is again among those.
   */
  ghost predicate Recovers<T(!new)>(before: Directory<T>, after: Directory<T>) {
    forall g :: Holds(after, g) ==> RecoversTo(before, g)
  }

  ghost predicate RecoversTo<T(!new)>(before: Directory<T>, g: Option<Inode<T>>) {
    exists f :: Holds(before, f) && InodeRecovers(f, g)
  }

  /** After n steps the path still holds the old file, or, once all are done, the complete new one. */
  lemma ProgressMeaning<T>(d: Directory<T>, value: T, mode: nat, n: nat)
    requires n <= |STEPS|
    ensures n < |STEPS| ==> Progress(d, value, mode, n).file == d.file && Progress(d, value, mode, n).stale == d.stale
    ensures n == |STEPS| ==> Progress(d, value, mode, n) == Written(d, value, mode, None)
    ensures 0 < n < |STEPS| ==>
              var temp := Progress(d, value, mode, n).temp;
              temp.Some? && (temp.value.mode == 6 * 8 * 8 || temp.value.mode == mode)
  {
    var d0 := Progress(d, value, mode, 0);
    var d1 := Apply(d0, CreateTemp, value, mode);
    var d2 := Apply(d1, WriteBuffer, value, mode);
    var d3 := Apply(d2, Flush, value, mode);
    var d4 := Apply(d3, Chmod, value, mode);
    var d5 := Apply(d4, Fsync, value, mode);
    var d6 := Apply(d5, Replace, value, mode);
    if n >= 1 { assert Progress(d, value, mode, 1) == d1; }
    if n >= 2 { assert Progress(d, value, mode, 2) == d2; }
    if n >= 3 { assert Progress(d, value, mode, 3) == d3; }
    if n >= 4 { assert Progress(d, value, mode, 4) == d4; }
    if n >= 5 { assert Progress(d, value, mode, 5) == d5; }
    if n >= 6 { assert Progress(d, value, mode, 6) == d6; }
  }

  /**
   * A crash between any two steps, power loss included, leaves the path with a file it has held or
   * exactly the complete new one with its permissions: never a torn or empty one. Before the rename
   * it is never the new one.
   */
  lemma CrashIsAtomic<T(!new)>(d: Directory<T>, value: T, mode: nat, n: nat, after: Directory<T>)
    requires Durable(d) && n <= |STEPS| && Recovers(Progress(d, value, mode, n), after)
    ensures forall g :: Holds(after, g) ==>
              Holds(d, g) || (n == |STEPS| && g == Some(Inode(Whole(value), Whole(value), mode)))
  {
    ProgressMeaning(d, value, mode, n);
    forall g | Holds(after, g)
      ensures Holds(d, g) || (n == |STEPS| && g == Some(Inode(Whole(value), Whole(value), mode)))
    {
      assert RecoversTo(Progress(d, value, mode, n), g);
      var f :| Holds(Progress(d, value, mode, n), f) && InodeRecovers(f, g);
      assert n == |STEPS| ==> f == Some(Inode(Whole(value), Whole(value), mode)) || Holds(d, f);
    }
  }

  /** A directory that remembers every state it has been through. */
  class FileSystem<T(!new, ==)> {
    var dir: Directory<T>
    ghost var history: seq<Directory<T>>

    constructor (dir: Directory<T>)
      ensures this.dir == dir && history == [dir]
    {
      this.dir := dir;
      history := [dir];
    }

    /** What a reader of the path finds. */
    function Content(): Option<Data<T>>
      reads this
    {
      if dir.file.None? then None else Some(dir.file.value.cached)
    }

    /** One file-system effect, remembered. */
    method Perform(step: Step, value: T, mode: nat)
      modifies this
      ensures dir == Apply(old(dir), step, value, mode) && history == old(history) + [dir]
    {
      dir := Apply(dir, step, value, mode);
      history := history + [dir];
    }

    /** From index `from` on, every state passed through recovers to a file held before or the new one. */
    ghost predicate NeverTorn(from: nat, start: Directory<T>, value: T, mode: nat)
      reads this
    {
      forall i, after, g :: from <= i < |history| && Recovers(history[i], after) && Holds(after, g) ==>
        Holds(start, g) || g == Some(Inode(Whole(value), Whole(value), mode))
    }

    lemma NothingYet(from: nat, start: Directory<T>, value: T, mode: nat)
      requires from == |history|
      ensures NeverTorn(from, start, value, mode)
    {
    }

    /** The `finally` clause. */
    method RemoveTemp(value: T, mode: nat, ghost from: nat, ghost start: Directory<T>)
      requires Durable(start) && NeverTorn(from, start, value, mode)
      requires forall f :: Holds(dir, f) ==> Holds(start, f) || f == Some(Inode(Whole(value), Whole(value), mode))
      modifies this
      ensures dir == Cleanup(old(dir))
      ensures old(history) <= history && NeverTorn(from, start, value, mode)
    {
      if dir.temp.Some? {
        dir := Cleanup(dir);
        history := history + [dir];
        forall after, g | Recovers(dir, after) && Holds(after, g)
          ensures Holds(start, g) || g == Some(Inode(Whole(value), Whole(value), mode))
        {
          assert RecoversTo(dir, g);
          var f :| Holds(dir, f) && InodeRecovers(f, g);
          assert Holds(old(dir), f);
        }
      }
    }

    /** Performs step `n` of the write unless it is the one that fails. */
    method Advance(n: nat, value: T, mode: nat, failing: Option<Step>, ghost from: nat, ghost start: Directory<T>)
      returns (ok: bool)
      requires n < |STEPS| && Durable(start) && dir == Progress(start, value, mode, n)
      requires NeverTorn(from, start, value, mode)
      modifies this
      ensures ok <==> failing != Some(STEPS[n])
      ensures dir == Progress(start, value, mode, if ok then n + 1 else n)
      ensures old(history) <= history && NeverTorn(from, start, value, mode)
    {
      ok := failing != Some(STEPS[n]);
      if ok {
        Perform(STEPS[n], value, mode);
        forall after, g | Recovers(dir, after) && Holds(after, g)
          ensures Holds(start, g) || g == Some(Inode(Whole(value), Whole(value), mode))
        {
          CrashIsAtomic(start, value, mode, n + 1, after);
        }
      }
    }

    /**
     * atomic_write, with the step that fails, if any. A failing write leaves the old file and no
     * temporary; and recovery from a crash at any moment on the way finds the new file or one the
     * path held before.
     */
    method AtomicWrite(value: T, mode: nat, failing: Option<Step>) returns (written: bool)
      requires Durable(dir)
      modifies this
      ensures written <==> failing.None?
      ensures dir == Written(old(dir), value, mode, failing) && Durable(dir)
      ensures old(history) <= history && NeverTorn(|old(history)|, old(dir), value, mode)
    {
      hide Apply, NeverTorn;
      ghost var start, from := dir, |history|;
      NothingYet(from, start, value, mode);
      var ok := Advance(0, value, mode, failing, from, start);
      if !ok {
        return false;
      }
      ghost var n := 1;
      label steps: {
        ok := Advance(1, value, mode, failing, from, start);
        if !ok { break steps; }
        n := 2;
        ok := Advance(2, value, mode, failing, from, start);
        if !ok { break steps; }
        n := 3;
        ok := Advance(3, value, mode, failing, from, start);
        if !ok { break steps; }
        n := 4;
        ok := Advance(4, value, mode, failing, from, start);
        if !ok { break steps; }
        n := 5;
        ok := Advance(5, value, mode, failing, from, start);
        if !ok { break steps; }
        n := 6;
      }
      ProgressMeaning(start, value, mode, n);
      EveryStepListed(failing);
      written := ok;
      RemoveTemp(value, mode, from, start);
    }
  }

  lemma EveryStepListed(failing: Option<Step>)
    ensures failing.None?
            || failing.value == STEPS[0] || failing.value == STEPS[1] || failing.value == STEPS[2]
            || failing.value == STEPS[3] || failing.value == STEPS[4] || failing.value == STEPS[5]
  {
    if failing.Some? {
      match failing.value
      case CreateTemp => assert STEPS[0] == CreateTemp;
      case WriteBuffer => assert STEPS[1] == WriteBuffer;
      case Flush => assert STEPS[2] == Flush;
      case Chmod => assert STEPS[3] == Chmod;
      case Fsync => assert STEPS[4] == Fsync;
      case Replace => assert STEPS[5] == Replace;
    }
  }
}
