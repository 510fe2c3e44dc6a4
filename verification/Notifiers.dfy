/** Sinks, the filters stacked on them, and the delivery of one batch to all of them. */
module Notifiers {
  import opened Common
  import opened Models

  /** What a sink answers: True or None, False, or an exception. */
  datatype Reply = Accepted | Declined | Raised

  /** How each sink answers each batch: anything at all. */
  type Outside = (nat, seq<Event>) -> Reply

  datatype Notifier =
    | Sink(id: nat)
    | MinSeverity(inner: Notifier, threshold: nat)
    | KindFilter(inner: Notifier, kinds: set<EventKind>)

  /** One batch handed to one sink. */
  datatype Call = Call(sink: nat, batch: seq<Event>)

  function AtLeast(events: seq<Event>, threshold: nat): seq<Event> {
    if events == [] then []
    else (if events[0].severity.Rank() >= threshold then [events[0]] else []) + AtLeast(events[1..], threshold)
  }

  function OfKinds(events: seq<Event>, kinds: set<EventKind>): seq<Event> {
    if events == [] then []
    else (if events[0].kind in kinds then [events[0]] else []) + OfKinds(events[1..], kinds)
  }

  /** Notifier.send: the reply, and the batches that reached a sink on the way. */
  function Send(n: Notifier, events: seq<Event>, outside: Outside): (Reply, seq<Call>) {
    match n
    case Sink(id) => (outside(id, events), [Call(id, events)])
    case MinSeverity(inner, threshold) =>
      var kept := AtLeast(events, threshold);
      if kept != [] then Send(inner, kept, outside) else (Accepted, [])
    case KindFilter(inner, kinds) =>
      var kept := OfKinds(events, kinds);
      if kept != [] then Send(inner, kept, outside) else (Accepted, [])
  }

  // ---- What a stack of filters lets through ----

  predicate Admits(n: Notifier, e: Event) {
    match n
    case Sink(_) => true
    case MinSeverity(inner, threshold) => e.severity.Rank() >= threshold && Admits(inner, e)
    case KindFilter(inner, kinds) => e.kind in kinds && Admits(inner, e)
  }

  function Admitted(n: Notifier, events: seq<Event>): seq<Event> {
    if events == [] then []
    else (if Admits(n, events[0]) then [events[0]] else []) + Admitted(n, events[1..])
  }

  function SinkOf(n: Notifier): nat {
    match n
    case Sink(id) => id
    case MinSeverity(inner, _) => SinkOf(inner)
    case KindFilter(inner, _) => SinkOf(inner)
  }

  lemma {:induction false} AdmittedAfterSeverity(inner: Notifier, threshold: nat, events: seq<Event>)
    ensures Admitted(inner, AtLeast(events, threshold)) == Admitted(MinSeverity(inner, threshold), events)
  {
    if events == [] {
    } else {
      AdmittedAfterSeverity(inner, threshold, events[1..]);
      var rest := AtLeast(events[1..], threshold);
      assert AtLeast(events, threshold) == if events[0].severity.Rank() >= threshold then [events[0]] + rest else rest;
    }
  }

  lemma {:induction false} AdmittedAfterKinds(inner: Notifier, kinds: set<EventKind>, events: seq<Event>)
    ensures Admitted(inner, OfKinds(events, kinds)) == Admitted(KindFilter(inner, kinds), events)
  {
    if events == [] {
    } else {
      AdmittedAfterKinds(inner, kinds, events[1..]);
      var rest := OfKinds(events[1..], kinds);
      assert OfKinds(events, kinds) == if events[0].kind in kinds then [events[0]] + rest else rest;
    }
  }

  lemma {:induction false} SinkAdmitsAll(id: nat, events: seq<Event>)
    ensures Admitted(Sink(id), events) == events
  {
    if events == [] {
    } else {
      SinkAdmitsAll(id, events[1..]);
    }
  }

  /**
   * Whatever the stack, the sink gets one batch: the admitted events in their order. When none is
   * admitted it gets no batch at all and the delivery counts as accepted.
   */
  lemma {:induction false} SendMeaning(n: Notifier, events: seq<Event>, outside: Outside)
    requires events != []
    ensures Send(n, events, outside)
            == if Admitted(n, events) == [] then (Accepted, [])
               else (outside(SinkOf(n), Admitted(n, events)), [Call(SinkOf(n), Admitted(n, events))])
  {
    match n
    case Sink(id) =>
      SinkAdmitsAll(id, events);
    case MinSeverity(inner, threshold) =>
      AdmittedAfterSeverity(inner, threshold, events);
      if AtLeast(events, threshold) != [] {
        SendMeaning(inner, AtLeast(events, threshold), outside);
      }
    case KindFilter(inner, kinds) =>
      AdmittedAfterKinds(inner, kinds, events);
      if OfKinds(events, kinds) != [] {
        SendMeaning(inner, OfKinds(events, kinds), outside);
      }
  }

  lemma {:induction false} SameAdmission(n: Notifier, m: Notifier, events: seq<Event>)
    requires forall e :: Admits(n, e) <==> Admits(m, e)
    ensures Admitted(n, events) == Admitted(m, events)
  {
    if events == [] {
    } else {
      SameAdmission(n, m, events[1..]);
    }
  }

  /** The order in which the two filters are stacked cannot be observed. */
  lemma FilterOrderIrrelevant(n: Notifier, threshold: nat, kinds: set<EventKind>, events: seq<Event>, outside: Outside)
    requires events != []
    ensures Send(MinSeverity(KindFilter(n, kinds), threshold), events, outside)
            == Send(KindFilter(MinSeverity(n, threshold), kinds), events, outside)
  {
    var a, b := MinSeverity(KindFilter(n, kinds), threshold), KindFilter(MinSeverity(n, threshold), kinds);
    SameAdmission(a, b, events);
    SendMeaning(a, events, outside);
    SendMeaning(b, events, outside);
  }

  // ---- Building a notifier from its options ----

  datatype Kinds = One(name: string) | Many(names: seq<string>)

  /** The two filter options, and whether the sink's own constructor takes the remaining ones. */
  datatype Options = Options(minSeverity: Option<string>, kinds: Option<Kinds>, constructs: bool)

  datatype BuildError = UnknownType | Unconstructible | InvalidKind | InvalidSeverity

  const REGISTRY: set<string> := {"console", "email", "slack", "webhook"}

  function Names(kinds: Kinds): seq<string> {
    match kinds
    case One(name) => [name]
    case Many(names) => names
  }

  /** {EventKind(name) for name in names}, or None when some name is no kind. */
  function ParseKinds(names: seq<string>): (parsed: Option<set<EventKind>>)
    ensures parsed.None? <==> exists name :: name in names && ParseKind(name).None?
  {
    if names == [] then Some({})
    else
      assert forall name :: name in names <==> name == names[0] || name in names[1..];
      var head :- ParseKind(names[0]);
      var tail :- ParseKinds(names[1..]);
      Some({head} + tail)
  }

  lemma {:induction false} ParseKindsMeaning(names: seq<string>, kind: EventKind)
    requires ParseKinds(names).Some?
    ensures kind in ParseKinds(names).value <==> kind.Value() in names
  {
    if names == [] {
    } else {
      assert names == [names[0]] + names[1..];
      ParseKindsMeaning(names[1..], kind);
      ParseKindInverse(kind);
      ParseKindSound(names[0]);
    }
  }

  function ParseSeverity(value: string): Option<Severity> {
    if value == "info" then Some(Severity.Info)
    else if value == "warning" then Some(Severity.Warning)
    else if value == "critical" then Some(Severity.Critical)
    else None
  }

  function BuildNotifier(id: nat, kind: string, options: Options): Result<Notifier, BuildError> {
    if kind !in REGISTRY then Err(UnknownType)
    else if !options.constructs then Err(Unconstructible)
    else
      var filtered :- FilterByKind(Sink(id), options.kinds);
      FilterBySeverity(filtered, options.minSeverity)
  }

  function FilterByKind(n: Notifier, kinds: Option<Kinds>): Result<Notifier, BuildError> {
    match kinds
    case None => Ok(n)
    case Some(only) =>
      match ParseKinds(Names(only))
      case None => Err(InvalidKind)
      case Some(allowed) => Ok(KindFilter(n, allowed))
  }

  function FilterBySeverity(n: Notifier, minSeverity: Option<string>): Result<Notifier, BuildError> {
    match minSeverity
    case None => Ok(n)
    case Some(value) =>
      match ParseSeverity(value)
      case None => Err(InvalidSeverity)
      case Some(level) => Ok(MinSeverity(n, level.Rank()))
  }

  /** What the two filter options let through. */
  ghost predicate Passes(options: Options, e: Event) {
    && (match options.kinds
        case None => true
        case Some(One(name)) => e.kind.Value() == name
        case Some(Many(names)) => e.kind.Value() in names)
    && (options.minSeverity == Some("critical") ==> e.severity == Severity.Critical)
    && (options.minSeverity == Some("warning") ==> e.severity != Severity.Info)
  }

  ghost predicate KindsKnown(options: Options) {
    match options.kinds
    case None => true
    case Some(One(name)) => exists kind: EventKind :: kind.Value() == name
    case Some(Many(names)) => forall name :: name in names ==> exists kind: EventKind :: kind.Value() == name
  }

  lemma ParseKindExactly(name: string)
    ensures ParseKind(name).Some? <==> exists kind: EventKind :: kind.Value() == name
  {
    ParseKindSound(name);
    if kind: EventKind :| kind.Value() == name {
      ParseKindInverse(kind);
    }
  }

  /**
   * A notifier is built exactly when its type and every option value are acceptable, the first that is
   * not deciding the error, and then admits exactly the events that pass both of its options:
   * `critical` only critical events, `warning` all but informational ones, `info` all.
   */
  lemma BuildNotifierMeaning(id: nat, kind: string, options: Options, e: Event)
    ensures BuildNotifier(id, kind, options).Ok? ==>
              && SinkOf(BuildNotifier(id, kind, options).value) == id
              && (Admits(BuildNotifier(id, kind, options).value, e) <==> Passes(options, e))
    ensures var known := kind == "console" || kind == "email" || kind == "slack" || kind == "webhook";
            var severe := options.minSeverity.None? || options.minSeverity.value == "info"
                          || options.minSeverity.value == "warning" || options.minSeverity.value == "critical";
            match BuildNotifier(id, kind, options)
            case Ok(_) => known && options.constructs && KindsKnown(options) && severe
            case Err(UnknownType) => !known
            case Err(Unconstructible) => known && !options.constructs
            case Err(InvalidKind) => known && options.constructs && !KindsKnown(options)
            case Err(InvalidSeverity) => known && options.constructs && KindsKnown(options) && !severe
  {
    if options.kinds.Some? {
      var names := Names(options.kinds.value);
      forall name | name in names ensures ParseKind(name).Some? <==> exists k: EventKind :: k.Value() == name {
        ParseKindExactly(name);
      }
      if options.kinds.value.One? {
        assert options.kinds.value.name in names;
      }
      if ParseKinds(names).Some? {
        ParseKindsMeaning(names, e.kind);
      }
    }
    var filtered := FilterByKind(Sink(id), options.kinds);
    if filtered.Ok? {
      var n := filtered.value;
      assert SinkOf(n) == id;
      assert Admits(n, e) <==> match options.kinds
                               case None => true
                               case Some(One(name)) => e.kind.Value() == name
                               case Some(Many(names)) => e.kind.Value() in names;
      SeverityFilter(n, options.minSeverity, e);
    }
  }

  lemma SeverityFilter(n: Notifier, minSeverity: Option<string>, e: Event)
    ensures var built := FilterBySeverity(n, minSeverity);
            && (built.Ok? <==> minSeverity.None? || minSeverity.value == "info" || minSeverity.value == "warning"
                               || minSeverity.value == "critical")
            && (built.Err? ==> built.error == InvalidSeverity)
            && (built.Ok? ==> SinkOf(built.value) == SinkOf(n)
                              && (Admits(built.value, e) <==>
                                    && Admits(n, e)
                                    && (minSeverity == Some("critical") ==> e.severity == Severity.Critical)
                                    && (minSeverity == Some("warning") ==> e.severity != Severity.Info)))
  {
  }

  /** The events that pass the options, in their order. */
  ghost function Passing(options: Options, events: seq<Event>): seq<Event> {
    if events == [] then []
    else (if Passes(options, events[0]) then [events[0]] else []) + Passing(options, events[1..])
  }

  /** So the batch such a notifier hands to its sink is just what passes its options. */
  lemma {:induction false} BuiltBatch(id: nat, kind: string, options: Options, events: seq<Event>)
    requires BuildNotifier(id, kind, options).Ok?
    ensures Admitted(BuildNotifier(id, kind, options).value, events) == Passing(options, events)
  {
    hide BuildNotifier, Passes, Admits;
    if events == [] {
    } else {
      BuildNotifierMeaning(id, kind, options, events[0]);
      BuiltBatch(id, kind, options, events[1..]);
    }
  }

  // ---- Delivery ----

  /** The batches a delivery owes: each notifier's admitted events, to its sink, in notifier order. */
  function OwedCalls(notifiers: seq<Notifier>, events: seq<Event>): seq<Call> {
    if notifiers == [] then []
    else
      var n := notifiers[|notifiers| - 1];
      OwedCalls(notifiers[..|notifiers| - 1], events)
      + if Admitted(n, events) == [] then [] else [Call(SinkOf(n), Admitted(n, events))]
  }

  lemma NothingOwed(events: seq<Event>)
    ensures OwedCalls([], events) == []
  {
  }

  /** A notifier owes its own batch, unless that is empty. */
  lemma OwedOne(n: Notifier, events: seq<Event>)
    ensures OwedCalls([n], events) == if Admitted(n, events) == [] then [] else [Call(SinkOf(n), Admitted(n, events))]
  {
    hide Admitted, SinkOf;
    assert [n][..0] == [];
    NothingOwed(events);
  }

  /** Several notifiers owe their batches one after the other. */
  lemma {:induction false} OwedConcat(a: seq<Notifier>, b: seq<Notifier>, events: seq<Event>)
    ensures OwedCalls(a + b, events) == OwedCalls(a, events) + OwedCalls(b, events)
  {
    hide Admitted, SinkOf;
    if b == [] {
      assert a + b == a;
    } else {
      var n := |b| - 1;
      assert (a + b)[..|a + b| - 1] == a + b[..n];
      OwedConcat(a, b[..n], events);
    }
  }

  lemma OwedSnoc(notifiers: seq<Notifier>, i: nat, events: seq<Event>)
    requires i < |notifiers|
    ensures var n := notifiers[i];
            OwedCalls(notifiers[..i + 1], events)
            == OwedCalls(notifiers[..i], events)
               + if Admitted(n, events) == [] then [] else [Call(SinkOf(n), Admitted(n, events))]
  {
    assert notifiers[..i + 1][..i] == notifiers[..i];
  }

  /** Every sink accepted every event its filters admit. */
  predicate AllAccept(notifiers: seq<Notifier>, events: seq<Event>, outside: Outside) {
    forall n :: n in notifiers ==>
      Admitted(n, events) == [] || outside(SinkOf(n), Admitted(n, events)).Accepted?
  }

  /** Sends the batch to every notifier, whatever the others answer. */
  method Deliver(notifiers: seq<Notifier>, events: seq<Event>, outside: Outside)
    returns (delivered: bool, calls: seq<Call>)
    requires events != []
    ensures calls == OwedCalls(notifiers, events)
    ensures delivered <==> AllAccept(notifiers, events, outside)
    ensures delivered <==>
              forall n :: n in notifiers ==>
                Admitted(n, events) == [] || outside(SinkOf(n), Admitted(n, events)) == Accepted
  {
    hide Send, Admitted, Admits, SinkOf, OwedCalls;
    NothingOwed(events);
    delivered, calls := true, [];
    for i := 0 to |notifiers|
      invariant calls == OwedCalls(notifiers[..i], events)
      invariant delivered <==> forall j :: 0 <= j < i ==>
                  Admitted(notifiers[j], events) == []
                  || outside(SinkOf(notifiers[j]), Admitted(notifiers[j], events)).Accepted?
    {
      OwedSnoc(notifiers, i, events);
      SendMeaning(notifiers[i], events, outside);
      var (reply, made) := Send(notifiers[i], events, outside);
      calls := calls + made;
      match reply
      case Accepted =>
      case Declined => delivered := false;
      case Raised => delivered := false;
    }
    assert notifiers[..|notifiers|] == notifiers;
  }
}
