/** What is remembered about each target between cycles, and the store that holds it. */
module State {
  import opened Common
  import opened Models
  import opened Strings

  datatype TargetState = TargetState(
    fingerprint: Option<string>,
    status: Option<Status>,
    activeAlerts: seq<string>,
    notifiedAt: map<string, Time>,
    pending: map<string, int>,
    lastSeen: Option<Time>)
  {
    function Active(): set<string> {
      set key | key in activeAlerts
    }
  }

  type States = map<string, TargetState>

  const NEW_STATE := TargetState(None, None, [], map[], map[], None)

  /** One entry of the state file; an option is None when its key is absent. */
  datatype Entry =
    | Malformed
    | Entry(
        fingerprint: Option<string>,
        status: Option<Status>,
        activeAlerts: Option<seq<string>>,
        notifiedAt: Option<map<string, Time>>,
        pending: Option<map<string, int>>,
        lastSeen: Option<Time>)

  /** What a reader finds in a file: a complete document, text that does not parse, or bytes that are no text. */
  datatype Data<+T> = Garbled | Torn | Whole(value: T)

  type StateFile = Option<Data<map<string, Entry>>>

  function ToEntry(s: TargetState): Entry {
    Entry(s.fingerprint, s.status, Some(SortSeq(s.activeAlerts)), Some(s.notifiedAt), Some(s.pending), s.lastSeen)
  }

  function FromEntry(e: Entry): Option<TargetState> {
    match e
    case Malformed => None
    case Entry(fingerprint, status, activeAlerts, notifiedAt, pending, lastSeen) =>
      Some(TargetState(
        fingerprint,
        status,
        if activeAlerts.Some? then activeAlerts.value else [],
        if notifiedAt.Some? then notifiedAt.value else map[],
        if pending.Some? then pending.value else map[],
        lastSeen))
  }

  /** Writing a state and reading it back loses nothing exactly when its alerts are in order. */
  lemma EntryRoundTrip(s: TargetState)
    ensures FromEntry(ToEntry(s)) == Some(s) <==> Sorted(s.activeAlerts)
  {
    SortSeqFixed(s.activeAlerts);
  }

  function Payload(states: States): map<string, Entry> {
    map name | name in states :: ToEntry(states[name])
  }

  /** Loading raises on a file that is not text, and on no other. */
  predicate Readable(file: StateFile) {
    file.Some? ==> !file.value.Garbled?
  }

  /** The states a file holds: well-formed entries only, and none if the file is missing or torn. */
  function Loaded(file: StateFile): States {
    if file.None? || !file.value.Whole? then map[]
    else
      var entries := file.value.value;
      map name | name in entries && FromEntry(entries[name]).Some? :: FromEntry(entries[name]).value
  }

  /** Loading keeps every well-formed entry of a complete file under its name, and nothing else. */
  lemma LoadedExactly(file: StateFile, name: string)
    ensures name in Loaded(file) <==>
              file.Some? && file.value.Whole? && name in file.value.value && file.value.value[name].Entry?
    ensures name in Loaded(file) ==>
              var e, s := file.value.value[name], Loaded(file)[name];
              && s.fingerprint == e.fingerprint && s.status == e.status && s.lastSeen == e.lastSeen
              && s.activeAlerts == (if e.activeAlerts.Some? then e.activeAlerts.value else [])
              && s.notifiedAt == (if e.notifiedAt.Some? then e.notifiedAt.value else map[])
              && s.pending == if e.pending.Some? then e.pending.value else map[]
  {
  }

  /** A saved store loads back unchanged exactly when every alert list is in order. */
  lemma StoreRoundTrip(states: States)
    ensures Loaded(Some(Whole(Payload(states)))) == states
            <==> forall name :: name in states ==> Sorted(states[name].activeAlerts)
  {
    var back := Loaded(Some(Whole(Payload(states))));
    assert back.Keys == states.Keys;
    forall name | name in states
      ensures back[name] == states[name] <==> Sorted(states[name].activeAlerts)
    {
      EntryRoundTrip(states[name]);
    }
    if forall name :: name in states ==> Sorted(states[name].activeAlerts) {
      assert forall name :: name in states ==> back[name] == states[name];
    }
  }

  function Lookup(states: States, name: string): TargetState {
    if name in states then states[name] else NEW_STATE
  }

  /** The entries checked at or after `cutoff`. */
  function Pruned(states: States, cutoff: Time): States {
    map name | name in states && states[name].lastSeen.Some? && states[name].lastSeen.value >= cutoff
      :: states[name]
  }

  function SeenTimes(states: States): set<Time> {
    set name | name in states && states[name].lastSeen.Some? :: states[name].lastSeen.value
  }

  function Latest(times: set<Time>): (latest: Time)
    requires times != {}
    ensures latest in times
    ensures forall t :: t in times ==> t <= latest
  {
    LatestExists(times);
    var m :| m in times && forall t :: t in times ==> t <= m;
    m
  }

  lemma {:induction false} LatestExists(times: set<Time>)
    requires times != {}
    ensures exists m :: m in times && forall t :: t in times ==> t <= m
  {
    var any := Member(times);
    var rest := times - {any};
    if rest == {} {
      assert times == {any};
    } else {
      LatestExists(rest);
      var m :| m in rest && forall t :: t in rest ==> t <= m;
      var top := if m < any then any else m;
      assert forall t :: t in times ==> t == any || t in rest;
      assert top in times && forall t :: t in times ==> t <= top;
    }
  }

  /** The entries sharing the most recent check time; None when no entry has one. */
  function LastCycleOf(states: States): Option<States> {
    if SeenTimes(states) == {} then None
    else
      var latest := Latest(SeenTimes(states));
      Some(map name | name in states && states[name].lastSeen == Some(latest) :: states[name])
  }

  /** last_cycle picks out the entries no other entry is more recent than. */
  lemma LastCycleMeaning(states: States, name: string)
    ensures LastCycleOf(states).None? <==> forall n :: n in states ==> states[n].lastSeen.None?
    ensures LastCycleOf(states).Some? ==>
              (name in LastCycleOf(states).value <==>
                && name in states
                && states[name].lastSeen.Some?
                && forall n :: n in states && states[n].lastSeen.Some? ==>
                     states[n].lastSeen.value <= states[name].lastSeen.value)
    ensures LastCycleOf(states).Some? && name in LastCycleOf(states).value ==>
              LastCycleOf(states).value[name] == states[name]
  {
    forall n | n in states && states[n].lastSeen.Some?
      ensures states[n].lastSeen.value in SeenTimes(states)
    {
    }
    if SeenTimes(states) != {} {
      var latest := Latest(SeenTimes(states));
      var top :| top in states && states[top].lastSeen == Some(latest);
    }
  }

  /** The in-memory store of one cycle. */
  class StateStore {
    var states: States

    constructor (file: StateFile)
      requires Readable(file)
      ensures states == Loaded(file)
    {
      states := map[];
      new;
      if file.Some? && file.value.Whole? {
        var entries := file.value.value;
        var left := entries.Keys;
        while left != {}
          invariant left <= entries.Keys
          invariant states == map name | name in entries && name !in left && FromEntry(entries[name]).Some?
                                :: FromEntry(entries[name]).value
        {
          var name :| name in left;
          left := left - {name};
          var entry := FromEntry(entries[name]);
          if entry.Some? {
            states := states[name := entry.value];
          }
        }
      }
    }

    function Get(name: string): (s: TargetState)
      reads this
      ensures name in states ==> s == states[name]
      ensures name !in states ==> s.fingerprint.None? && s.activeAlerts == [] && s.pending == map[] && s.lastSeen.None?
    {
      Lookup(states, name)
    }

    method Set(name: string, state: TargetState)
      modifies this
      ensures name in states && states[name] == state
      ensures forall n :: n != name ==> (n in states <==> n in old(states))
      ensures forall n :: n != name && n in states ==> states[n] == old(states)[n]
    {
      states := states[name := state];
    }

    method Prune(cutoff: Time)
      modifies this
      ensures forall n :: n in states <==>
                n in old(states) && old(states)[n].lastSeen.Some? && old(states)[n].lastSeen.value >= cutoff
      ensures forall n :: n in states ==> states[n] == old(states)[n]
    {
      states := map name | name in states && states[name].lastSeen.Some? && states[name].lastSeen.value >= cutoff
        :: states[name];
    }
  }
}
