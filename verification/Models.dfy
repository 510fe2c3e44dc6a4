/** The data passed between the checker, the evaluator, the store and the sinks. */
module Models {
  import opened Common

  /** Epoch seconds. */
  type Time = real

  datatype Severity = Info | Warning | Critical {
    function Rank(): nat {
      match this
      case Info => 0
      case Warning => 1
      case Critical => 2
    }
  }

  datatype Status =
    | Valid | Expiring | Critical | Expired | NotYetValid | HostnameMismatch | Revoked
    | ChainUntrusted | PinMismatch | PolicyViolation | Unreachable | Error

  datatype EventKind =
    | Expiring | Critical | Expired | NotYetValid | Revoked | ChainUntrusted
    | HostnameMismatch | PolicyViolation | WeakCrypto | ChainExpiring
    | FingerprintChanged | Unreachable | Recovered
  {
    function Value(): string {
      match this
      case Expiring => "expiring"
      case Critical => "critical"
      case Expired => "expired"
      case NotYetValid => "not_yet_valid"
      case Revoked => "revoked"
      case ChainUntrusted => "chain_untrusted"
      case HostnameMismatch => "hostname_mismatch"
      case PolicyViolation => "policy_violation"
      case WeakCrypto => "weak_crypto"
      case ChainExpiring => "chain_expiring"
      case FingerprintChanged => "fingerprint_changed"
      case Unreachable => "unreachable"
      case Recovered => "recovered"
    }

    /** A problem that is tracked as an alert, as opposed to a rotation or a recovery. */
    predicate Alertable() {
      !FingerprintChanged? && !Recovered?
    }
  }

  /** EventKind(value): the kind with this value, if there is one. */
  function ParseKind(value: string): Option<EventKind> {
    if value == "expiring" then Some(EventKind.Expiring)
    else if value == "critical" then Some(EventKind.Critical)
    else if value == "expired" then Some(EventKind.Expired)
    else if value == "not_yet_valid" then Some(EventKind.NotYetValid)
    else if value == "revoked" then Some(EventKind.Revoked)
    else if value == "chain_untrusted" then Some(EventKind.ChainUntrusted)
    else if value == "hostname_mismatch" then Some(EventKind.HostnameMismatch)
    else if value == "policy_violation" then Some(EventKind.PolicyViolation)
    else if value == "weak_crypto" then Some(EventKind.WeakCrypto)
    else if value == "chain_expiring" then Some(EventKind.ChainExpiring)
    else if value == "fingerprint_changed" then Some(EventKind.FingerprintChanged)
    else if value == "unreachable" then Some(EventKind.Unreachable)
    else if value == "recovered" then Some(EventKind.Recovered)
    else None
  }

  /** The documented names of the kinds. */
  lemma DocumentedKinds()
    ensures EventKind.Expiring.Value() == "expiring" && EventKind.Critical.Value() == "critical"
    ensures EventKind.Expired.Value() == "expired" && EventKind.NotYetValid.Value() == "not_yet_valid"
    ensures EventKind.Revoked.Value() == "revoked" && EventKind.ChainUntrusted.Value() == "chain_untrusted"
    ensures EventKind.HostnameMismatch.Value() == "hostname_mismatch"
    ensures EventKind.PolicyViolation.Value() == "policy_violation" && EventKind.WeakCrypto.Value() == "weak_crypto"
    ensures EventKind.ChainExpiring.Value() == "chain_expiring"
    ensures EventKind.FingerprintChanged.Value() == "fingerprint_changed"
    ensures EventKind.Unreachable.Value() == "unreachable" && EventKind.Recovered.Value() == "recovered"
  {
  }

  lemma ParseKindInverse(kind: EventKind)
    ensures ParseKind(kind.Value()) == Some(kind)
  {
    match kind
    case Expiring =>
    case Critical =>
    case Expired =>
    case NotYetValid =>
    case Revoked =>
    case ChainUntrusted =>
    case HostnameMismatch =>
    case PolicyViolation =>
    case WeakCrypto =>
    case ChainExpiring =>
    case FingerprintChanged =>
    case Unreachable =>
    case Recovered =>
  }

  lemma ParseKindSound(value: string)
    ensures ParseKind(value).Some? ==> ParseKind(value).value.Value() == value
  {
    if ParseKind(value).Some? {
      match ParseKind(value).value
      case Expiring =>
      case Critical =>
      case Expired =>
      case NotYetValid =>
      case Revoked =>
      case ChainUntrusted =>
      case HostnameMismatch =>
      case PolicyViolation =>
      case WeakCrypto =>
      case ChainExpiring =>
      case FingerprintChanged =>
      case Unreachable =>
      case Recovered =>
    }
  }

  /** A watched endpoint. `name` is the identifier the state is stored under. */
  datatype Target = Target(
    name: string,
    isFile: bool,
    verify: bool,
    timeout: real,
    connectTimeout: Option<real>,
    readTimeout: Option<real>,
    retries: int,
    expected: seq<string>)

  /** What certinspect said about one target in one cycle. */
  datatype CheckResult = CheckResult(
    target: Target,
    reachable: bool,
    status: Status,
    exitCode: int,
    daysToExpire: Option<int>,
    fingerprint: Option<string>,
    revocation: Option<string>,
    chainTrusted: Option<bool>,
    hostnameMatch: Option<bool>,
    error: Option<string>,
    raw: Document)

  /** The fields of certinspect's JSON document the evaluator reads; an absent list is []. */
  datatype Document = Document(
    status: Option<string>,
    policyViolations: seq<string>,
    weak: seq<string>,
    chainWarnings: seq<string>)

  datatype Details =
    | NoDetails
    | Days(days: Option<int>)
    | Reasons(reasons: seq<string>)
    | Failure(error: Option<string>, exitCode: int)
    | Rotation(before: string, after: string)
    | Resolved(kindValue: string)

  datatype Event = Event(target: string, kind: EventKind, severity: Severity, details: Details) {
    function Key(): string {
      AlertKey(target, kind)
    }
  }

  /** `<target>|<kind value>` */
  function KeyText(name: string, kindValue: string): string {
    name + "|" + kindValue
  }

  function AlertKey(name: string, kind: EventKind): string {
    KeyText(name, kind.Value())
  }

  /** The part of a key after its last '|', or the whole key when it has none. */
  function AlertKind(key: string): string {
    if key == "" || key[|key| - 1] == '|' then ""
    else AlertKind(key[..|key| - 1]) + [key[|key| - 1]]
  }

  lemma {:induction false} AlertKindOfKeyText(name: string, kindValue: string)
    requires '|' !in kindValue
    ensures AlertKind(KeyText(name, kindValue)) == kindValue
  {
    var key := KeyText(name, kindValue);
    if kindValue == "" {
      assert key == name + "|";
    } else {
      var n := |kindValue| - 1;
      assert key[..|key| - 1] == KeyText(name, kindValue[..n]);
      assert key[|key| - 1] == kindValue[n];
      AlertKindOfKeyText(name, kindValue[..n]);
      assert kindValue == kindValue[..n] + [kindValue[n]];
    }
  }

  lemma KindValueHasNoBar(kind: EventKind)
    ensures '|' !in kind.Value()
  {
    match kind
    case Expiring =>
    case Critical =>
    case Expired =>
    case NotYetValid =>
    case Revoked =>
    case ChainUntrusted =>
    case HostnameMismatch =>
    case PolicyViolation =>
    case WeakCrypto =>
    case ChainExpiring =>
    case FingerprintChanged =>
    case Unreachable =>
    case Recovered =>
  }

  /** alert_kind inverts alert_key, whatever the target is called. */
  lemma AlertKindOfAlertKey(name: string, kind: EventKind)
    ensures AlertKind(AlertKey(name, kind)) == kind.Value()
  {
    KindValueHasNoBar(kind);
    AlertKindOfKeyText(name, kind.Value());
  }

  lemma KeyTextInjective(name: string, value: string, name': string, value': string)
    requires '|' !in value && '|' !in value'
    requires KeyText(name, value) == KeyText(name', value')
    ensures name == name' && value == value'
  {
    AlertKindOfKeyText(name, value);
    AlertKindOfKeyText(name', value');
    var key := KeyText(name, value);
    assert key[..|name|] == name;
    assert key[..|name'|] == name';
  }

  lemma KindValueInjective(kind: EventKind, kind': EventKind)
    requires kind.Value() == kind'.Value()
    ensures kind == kind'
  {
    ParseKindInverse(kind);
    ParseKindInverse(kind');
  }

  /** Distinct (target, kind) pairs never share a key, even when names contain '|'. */
  lemma AlertKeyInjective(name: string, kind: EventKind, name': string, kind': EventKind)
    requires AlertKey(name, kind) == AlertKey(name', kind')
    ensures name == name' && kind == kind'
  {
    KindValueHasNoBar(kind);
    KindValueHasNoBar(kind');
    KeyTextInjective(name, kind.Value(), name', kind'.Value());
    KindValueInjective(kind, kind');
  }
}
