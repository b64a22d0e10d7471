/** The payload model of the engine: one variant per kind of configuration the
    engine knows, each with its identity key (`get_ids`) and its value blob (the
    `payload` attribute). Equality of payloads compares identities only. */
module Payloads {
  import opened PyValue

  const TCC_POLICY: string := "com.apple.TCC.configuration-profile-policy"
  const KEXT_POLICY: string := "com.apple.syspolicy.kernel-extension-policy"
  const SYSEXT_POLICY: string := "com.apple.system-extension-policy"
  const WEB_CONTENT_FILTER: string := "com.apple.webcontent-filter"
  const NOTIFICATION_SETTINGS: string := "com.apple.notificationsettings"
  const MANAGED_PREFERENCES: string := "com.apple.ManagedClient.preferences"

  /** The one TCC service the engine understands. */
  const SYSTEM_POLICY_ALL_FILES: string := "SystemPolicyAllFiles"

  /** The keys a web-content-filter payload copies into its `properties`. */
  const FILTER_PROPERTY_KEYS: seq<string> :=
    ["FilterDataProviderDesignatedRequirement", "FilterGrade", "FilterSockets", "FilterType", "PluginBundleID"]

  /** The fields of each payload kind beyond the common type tag and value blob. */
  datatype Kind =
    | SystemPolicyAllFiles(serviceType: string, identifier: Value)
    | Kext(teamId: Value)
    | SysExt(teamId: Value, bundleId: Value)
    | WebContentFilter(bundleId: Value, properties: seq<(string, Value)>)
    | Notifications(bundleId: Value)
    | OnboardingInfo

  /** A payload: its type tag, its value blob (None for extension policies) and
      the fields of its kind. */
  datatype Payload = Payload(payloadType: string, payload: Value, kind: Kind)

  /** The kind-specific identity key (`get_ids`). */
  function Ids(k: Kind): seq<Value> {
    match k
    case SystemPolicyAllFiles(serviceType, identifier) => [identifier, Str(serviceType)]
    case Kext(teamId) => [teamId]
    case SysExt(teamId, bundleId) => [teamId, bundleId]
    case WebContentFilter(bundleId, _) => [bundleId]
    case Notifications(bundleId) => [bundleId]
    case OnboardingInfo => []
  }

  /** The full identity: the type tag followed by the kind's key (`get_all_ids`). */
  function AllIds(p: Payload): seq<Value> {
    [Str(p.payloadType)] + Ids(p.kind)
  }

  /** Python `==` on identity tuples. */
  predicate IdEq(a: seq<Value>, b: seq<Value>) {
    |a| == |b| && forall i :: 0 <= i < |a| ==> PyEq(a[i], b[i])
  }

  /** Payload equality (`__eq__`): the identities are equal. */
  predicate PayloadEq(p: Payload, q: Payload) {
    IdEq(AllIds(p), AllIds(q))
  }

  /** `hash(p)` succeeds: no part of the identity is a list or dictionary. */
  predicate Hashable(p: Payload) {
    forall i :: 0 <= i < |AllIds(p)| ==> HashableValue(AllIds(p)[i])
  }

  /** The type tag extraction gives to each kind. */
  function TagOf(k: Kind): string {
    match k
    case SystemPolicyAllFiles(_, _) => TCC_POLICY
    case Kext(_) => KEXT_POLICY
    case SysExt(_, _) => SYSEXT_POLICY
    case WebContentFilter(_, _) => WEB_CONTENT_FILTER
    case Notifications(_) => NOTIFICATION_SETTINGS
    case OnboardingInfo => MANAGED_PREFERENCES
  }

  /** The shape of every payload extraction produces: the tag fits the kind, the
      TCC service is the one understood, extension policies carry no value. */
  predicate Conforms(p: Payload) {
    p.payloadType == TagOf(p.kind) &&
    match p.kind
    case SystemPolicyAllFiles(serviceType, _) => serviceType == SYSTEM_POLICY_ALL_FILES && p.payload.Dict?
    case Kext(_) => p.payload == Null
    case SysExt(_, _) => p.payload == Null
    case WebContentFilter(_, _) => p.payload.Dict?
    case Notifications(_) => true
    case OnboardingInfo => true
  }

  // Constructors of the source's payload classes.

  function NewSystemPolicyAllFiles(payloadType: string, serviceType: string, payload: Value): (r: Result<Payload>)
    ensures r.Ok? <==> HasKey(payload, "Identifier")
    ensures r.Ok? ==> r.value.payload == payload && r.value.payloadType == payloadType
    ensures r.Ok? ==> AllIds(r.value) == [Str(payloadType), GetItem(payload, "Identifier").value, Str(serviceType)]
  {
    var identifier :- GetItem(payload, "Identifier");
    Ok(Payload(payloadType, payload, SystemPolicyAllFiles(serviceType, identifier)))
  }

  /** A kernel-extension policy stores no value and is keyed by its team. */
  function NewKext(payloadType: string, id: Value): (r: Payload)
    ensures r.payload == Null && AllIds(r) == [Str(payloadType), id]
    ensures payloadType == KEXT_POLICY ==> Conforms(r)
  {
    Payload(payloadType, Null, Kext(id))
  }

  /** A system-extension policy stores no value and is keyed by its team and bundle. */
  function NewSysExt(payloadType: string, teamId: Value, bundleId: Value): (r: Payload)
    ensures r.payload == Null && AllIds(r) == [Str(payloadType), teamId, bundleId]
    ensures payloadType == SYSEXT_POLICY ==> Conforms(r)
  {
    Payload(payloadType, Null, SysExt(teamId, bundleId))
  }

  /** `payload[k]` for each of `keys`, in order. */
  function Properties(payload: Value, keys: seq<string>): (r: Result<seq<(string, Value)>>)
    ensures r.Ok? <==> forall i :: 0 <= i < |keys| ==> HasKey(payload, keys[i])
    ensures r.Ok? ==> (|r.value| == |keys| &&
      forall i :: 0 <= i < |keys| ==> r.value[i] == (keys[i], GetItem(payload, keys[i]).value))
  {
    if keys == [] then Ok([])
    else
      var v :- GetItem(payload, keys[0]);
      var rest :- Properties(payload, keys[1..]);
      Ok([(keys[0], v)] + rest)
  }

  function NewWebContentFilter(payloadType: string, payload: Value): (r: Result<Payload>)
    ensures r.Ok? <==> (HasKey(payload, "FilterDataProviderBundleIdentifier") &&
      forall i :: 0 <= i < |FILTER_PROPERTY_KEYS| ==> HasKey(payload, FILTER_PROPERTY_KEYS[i]))
    ensures r.Ok? ==> (r.value.payload == payload &&
      AllIds(r.value) == [Str(payloadType), GetItem(payload, "FilterDataProviderBundleIdentifier").value])
  {
    var id :- GetItem(payload, "FilterDataProviderBundleIdentifier");
    var properties :- Properties(payload, FILTER_PROPERTY_KEYS);
    Ok(Payload(payloadType, payload, WebContentFilter(id, properties)))
  }

  function NewNotifications(payloadType: string, payload: Value): (r: Result<Payload>)
    ensures r.Ok? <==> HasKey(payload, "BundleIdentifier")
    ensures r.Ok? ==> (r.value.payload == payload &&
      AllIds(r.value) == [Str(payloadType), GetItem(payload, "BundleIdentifier").value])
  {
    var id :- GetItem(payload, "BundleIdentifier");
    Ok(Payload(payloadType, payload, Notifications(id)))
  }

  /** An onboarding payload keeps its blob and is keyed by its tag alone. */
  function NewOnboardingInfo(payloadType: string, payload: Value): (r: Payload)
    ensures r.payload == payload && AllIds(r) == [Str(payloadType)]
    ensures payloadType == MANAGED_PREFERENCES ==> Conforms(r)
  {
    Payload(payloadType, payload, OnboardingInfo)
  }

  // Properties of payload identity.

  /** Two payloads are equal exactly when their type tags are the same string and
      their kind-specific keys are equal element by element. */
  lemma {:induction false} PayloadEqIff(p: Payload, q: Payload)
    ensures PayloadEq(p, q) <==> p.payloadType == q.payloadType && IdEq(Ids(p.kind), Ids(q.kind))
  {
    var a, b := AllIds(p), AllIds(q);
    if PayloadEq(p, q) {
      assert PyEq(a[0], b[0]);
      forall i | 0 <= i < |Ids(p.kind)| ensures PyEq(Ids(p.kind)[i], Ids(q.kind)[i]) {
        assert a[i + 1] == Ids(p.kind)[i] && b[i + 1] == Ids(q.kind)[i];
      }
    }
    if p.payloadType == q.payloadType && IdEq(Ids(p.kind), Ids(q.kind)) {
      forall i | 0 <= i < |a| ensures PyEq(a[i], b[i]) {
        if i == 0 {
          PyEqReflexive(a[0]);
        } else {
          assert a[i] == Ids(p.kind)[i - 1] && b[i] == Ids(q.kind)[i - 1];
        }
      }
    }
  }

  /** The value blob never takes part in equality: payloads with the same tag and
      the same identity key are equal whatever values they carry, including the
      properties a web-content filter copies from its value. */
  lemma {:induction false} ValueDoesNotAffectEquality(p: Payload, q: Payload)
    requires p.payloadType == q.payloadType && Ids(p.kind) == Ids(q.kind)
    ensures PayloadEq(p, q)
  {
    forall i | 0 <= i < |AllIds(p)| ensures PyEq(AllIds(p)[i], AllIds(q)[i]) {
      PyEqReflexive(AllIds(p)[i]);
    }
  }

  lemma {:induction false} PayloadEqReflexive(p: Payload)
    ensures PayloadEq(p, p)
  {
    ValueDoesNotAffectEquality(p, p);
  }

  lemma {:induction false} PayloadEqSymmetric(p: Payload, q: Payload)
    requires PayloadEq(p, q)
    ensures PayloadEq(q, p)
  {
    forall i | 0 <= i < |AllIds(q)| ensures PyEq(AllIds(q)[i], AllIds(p)[i]) {
      PyEqSymmetric(AllIds(p)[i], AllIds(q)[i]);
    }
  }

  lemma {:induction false} PayloadEqTransitive(p: Payload, q: Payload, s: Payload)
    requires PayloadEq(p, q) && PayloadEq(q, s)
    ensures PayloadEq(p, s)
  {
    forall i | 0 <= i < |AllIds(p)| ensures PyEq(AllIds(p)[i], AllIds(s)[i]) {
      PyEqTransitive(AllIds(p)[i], AllIds(q)[i], AllIds(s)[i]);
    }
  }

  /** Onboarding payloads have an empty key: any two with the same tag are equal. */
  lemma {:induction false} OnboardingSingleIdentity(p: Payload, q: Payload)
    requires p.kind.OnboardingInfo? && q.kind.OnboardingInfo?
    ensures PayloadEq(p, q) <==> p.payloadType == q.payloadType
  {
    PayloadEqIff(p, q);
  }

  /** Equal conforming payloads are of the same kind. */
  lemma {:induction false} EqualConformingSameKind(p: Payload, q: Payload)
    requires Conforms(p) && Conforms(q) && PayloadEq(p, q)
    ensures TagOf(p.kind) == TagOf(q.kind)
    ensures p.kind.SystemPolicyAllFiles? == q.kind.SystemPolicyAllFiles?
    ensures p.kind.Kext? == q.kind.Kext? && p.kind.SysExt? == q.kind.SysExt?
    ensures p.kind.WebContentFilter? == q.kind.WebContentFilter?
    ensures p.kind.Notifications? == q.kind.Notifications? && p.kind.OnboardingInfo? == q.kind.OnboardingInfo?
  {
    PayloadEqIff(p, q);
  }

  /** Kernel- and system-extension payloads carry no value, so comparing the
      values of two equal ones always succeeds. */
  lemma {:induction false} ExtensionValuesAlwaysMatch(p: Payload, q: Payload)
    requires Conforms(p) && Conforms(q) && PayloadEq(p, q)
    requires p.kind.Kext? || p.kind.SysExt?
    ensures PyEq(p.payload, q.payload)
  {
    EqualConformingSameKind(p, q);
  }
}
