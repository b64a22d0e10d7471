/** Extraction: from a payload-type tag and the raw content of one profile item
    to the typed payloads it defines (`get_payloads`), with the diagnostics the
    engine prints along the way. */
module Extraction {
  import opened PyValue
  import opened Payloads

  /** What the engine prints besides verdicts. */
  datatype Diagnostic =
    | UnexpectedServiceType(payloadType: string, serviceType: string)  // warning
    | MalformedOnboardingBlob                                          // error
    | UnexpectedTemplateItem(itemType: Value, item: Value)             // warning
    | OverrideStoreMissing                                             // warning

  /** The payloads an item yields, in order, and the diagnostics printed meanwhile. */
  datatype Extraction = Extraction(payloads: seq<Payload>, log: seq<Diagnostic>)

  const NOTHING: Extraction := Extraction([], [])

  function Join(a: Extraction, b: Extraction): Extraction {
    Extraction(a.payloads + b.payloads, a.log + b.log)
  }

  /** A TCC policy definition carries the four value fields. */
  predicate HasTccFields(definition: Value) {
    HasKey(definition, "Allowed") && HasKey(definition, "CodeRequirement") &&
    HasKey(definition, "IdentifierType") && HasKey(definition, "Identifier")
  }

  /** `a` and `b` agree on the four value fields of a TCC policy definition. */
  predicate SameTccFields(a: Value, b: Value) {
    GetItem(a, "Allowed") == GetItem(b, "Allowed") &&
    GetItem(a, "CodeRequirement") == GetItem(b, "CodeRequirement") &&
    GetItem(a, "IdentifierType") == GetItem(b, "IdentifierType") &&
    GetItem(a, "Identifier") == GetItem(b, "Identifier")
  }

  /** The SystemPolicyAllFiles payload of one TCC policy definition
      (`get_SystemPolicyAllFiles`). */
  function GetSystemPolicyAllFiles(definition: Value): (r: Result<Payload>)
    ensures r.Ok? <==> HasTccFields(definition)
    ensures r.Ok? ==> Conforms(r.value) && r.value.kind.SystemPolicyAllFiles?
    ensures r.Ok? ==>
      AllIds(r.value) == [Str(TCC_POLICY), GetItem(definition, "Identifier").value, Str(SYSTEM_POLICY_ALL_FILES)]
    ensures r.Ok? ==> |r.value.payload.entries| == 4 && SameTccFields(r.value.payload, definition)
  {
    var allowed :- GetItem(definition, "Allowed");
    var codeRequirement :- GetItem(definition, "CodeRequirement");
    var identifierType :- GetItem(definition, "IdentifierType");
    var identifier :- GetItem(definition, "Identifier");
    var blob := Dict([
      ("Allowed", allowed), ("CodeRequirement", codeRequirement),
      ("IdentifierType", identifierType), ("Identifier", identifier)]);
    LookupFindsFirst(blob.entries, 0); LookupFindsFirst(blob.entries, 1);
    LookupFindsFirst(blob.entries, 2); LookupFindsFirst(blob.entries, 3);
    NewSystemPolicyAllFiles(TCC_POLICY, SYSTEM_POLICY_ALL_FILES, blob)
  }

  // com.apple.TCC.configuration-profile-policy

  /** The definitions listed under one TCC service: one payload each under
      SystemPolicyAllFiles, one warning each under any other service. */
  function TccDefinitions(serviceType: string, definitions: seq<Value>): (r: Result<Extraction>)
    ensures serviceType != SYSTEM_POLICY_ALL_FILES ==>
      r.Ok? && r.value.payloads == [] && |r.value.log| == |definitions| &&
      forall d <- r.value.log :: d == UnexpectedServiceType(TCC_POLICY, serviceType)
    ensures serviceType == SYSTEM_POLICY_ALL_FILES ==>
      (r.Ok? <==> forall i :: 0 <= i < |definitions| ==> HasTccFields(definitions[i]))
    ensures serviceType == SYSTEM_POLICY_ALL_FILES && r.Ok? ==>
      r.value.log == [] && |r.value.payloads| == |definitions|
    ensures r.Ok? ==> forall p <- r.value.payloads :: Conforms(p) && p.kind.SystemPolicyAllFiles?
    decreases |definitions|
  {
    if definitions == [] then Ok(NOTHING)
    else
      var head :- TccDefinition(serviceType, definitions[0]);
      var rest :- TccDefinitions(serviceType, definitions[1..]);
      Ok(Join(head, rest))
  }

  /** Under SystemPolicyAllFiles, payload `i` is the one `get_SystemPolicyAllFiles`
      builds from definition `i`. */
  lemma {:induction false} TccDefinitionsMeaning(definitions: seq<Value>)
    ensures TccDefinitions(SYSTEM_POLICY_ALL_FILES, definitions).Ok? ==>
      forall i :: 0 <= i < |definitions| ==>
        GetSystemPolicyAllFiles(definitions[i]) == Ok(TccDefinitions(SYSTEM_POLICY_ALL_FILES, definitions).value.payloads[i])
    decreases |definitions|
  {
    if definitions != [] && TccDefinitions(SYSTEM_POLICY_ALL_FILES, definitions).Ok? {
      var head := TccDefinition(SYSTEM_POLICY_ALL_FILES, definitions[0]).value;
      var rest := TccDefinitions(SYSTEM_POLICY_ALL_FILES, definitions[1..]).value;
      assert TccDefinitions(SYSTEM_POLICY_ALL_FILES, definitions).value.payloads == head.payloads + rest.payloads;
      TccDefinitionsMeaning(definitions[1..]);
      PoliciesCons(definitions, TccDefinitions(SYSTEM_POLICY_ALL_FILES, definitions).value.payloads, head.payloads, rest.payloads);
    }
  }

  /** Payload `i` comes from definition `i` for the whole list when it does
      for the first definition and for the rest of the list. */
  lemma {:induction false} PoliciesCons(definitions: seq<Value>, payloads: seq<Payload>, head: seq<Payload>, rest: seq<Payload>)
    requires definitions != [] && payloads == head + rest && |head| == 1 && |rest| == |definitions| - 1
    requires GetSystemPolicyAllFiles(definitions[0]) == Ok(head[0])
    requires forall i :: 0 <= i < |definitions[1..]| ==> GetSystemPolicyAllFiles(definitions[1..][i]) == Ok(rest[i])
    ensures forall i :: 0 <= i < |definitions| ==> GetSystemPolicyAllFiles(definitions[i]) == Ok(payloads[i])
  {
    forall i | 0 <= i < |definitions|
      ensures GetSystemPolicyAllFiles(definitions[i]) == Ok(payloads[i])
    {
      if i > 0 {
        assert definitions[i] == definitions[1..][i - 1];
        assert payloads[i] == rest[i - 1];
      }
    }
  }

  /** The loop body for one definition. */
  function TccDefinition(serviceType: string, definition: Value): (r: Result<Extraction>)
    ensures serviceType != SYSTEM_POLICY_ALL_FILES ==>
      r == Ok(Extraction([], [UnexpectedServiceType(TCC_POLICY, serviceType)]))
    ensures serviceType == SYSTEM_POLICY_ALL_FILES ==>
      (r.Ok? <==> HasTccFields(definition)) &&
      (r.Ok? ==> r.value.log == [] && |r.value.payloads| == 1 && GetSystemPolicyAllFiles(definition) == Ok(r.value.payloads[0]))
  {
    if serviceType == SYSTEM_POLICY_ALL_FILES then
      var p :- GetSystemPolicyAllFiles(definition);
      Ok(Extraction([p], []))
    else Ok(Extraction([], [UnexpectedServiceType(TCC_POLICY, serviceType)]))
  }

  /** How many objects a `for` loop over `v` visits (0 when it raises). */
  function IterLength(v: Value): nat {
    if Iter(v).Ok? then |Iter(v).value| else 0
  }

  /** The number of definitions under the SystemPolicyAllFiles service
      (`underSystemPolicy`) or under the other services (`!underSystemPolicy`). */
  function DefinitionCount(services: seq<(string, Value)>, underSystemPolicy: bool): nat {
    if services == [] then 0
    else
      (if (services[0].0 == SYSTEM_POLICY_ALL_FILES) == underSystemPolicy then IterLength(services[0].1) else 0)
      + DefinitionCount(services[1..], underSystemPolicy)
  }

  function TccServices(services: seq<(string, Value)>): (r: Result<Extraction>)
    ensures r.Ok? ==> forall p <- r.value.payloads :: Conforms(p) && p.kind.SystemPolicyAllFiles?
    ensures r.Ok? ==> |r.value.payloads| == DefinitionCount(services, true)
    ensures r.Ok? ==> |r.value.log| == DefinitionCount(services, false)
    ensures r.Ok? ==> forall d <- r.value.log ::
      d.UnexpectedServiceType? && d.payloadType == TCC_POLICY && d.serviceType != SYSTEM_POLICY_ALL_FILES &&
      exists i :: 0 <= i < |services| && services[i].0 == d.serviceType
  {
    if services == [] then Ok(NOTHING)
    else
      var definitions :- Iter(services[0].1);
      var head :- TccDefinitions(services[0].0, definitions);
      var rest :- TccServices(services[1..]);
      assert forall d <- rest.log :: exists i :: 0 <= i < |services| && services[i].0 == d.serviceType by {
        forall d <- rest.log ensures exists i :: 0 <= i < |services| && services[i].0 == d.serviceType {
          var i :| 0 <= i < |services[1..]| && services[1..][i].0 == d.serviceType;
          assert services[i + 1].0 == d.serviceType;
        }
      }
      Ok(Join(head, rest))
  }

  /** The extraction of the first service, then that of the others. */
  lemma {:induction false} TccServicesFirst(services: seq<(string, Value)>)
    requires services != [] && TccServices(services).Ok?
    ensures Iter(services[0].1).Ok? && TccDefinitions(services[0].0, Iter(services[0].1).value).Ok?
    ensures TccServices(services[1..]).Ok?
    ensures TccServices(services).value ==
      Join(TccDefinitions(services[0].0, Iter(services[0].1).value).value, TccServices(services[1..]).value)
  {
  }

  /** When the whole run succeeds, so does the run over the services after the first. */
  lemma {:induction false} TccServicesRest(services: seq<(string, Value)>)
    requires services != [] && TccServices(services).Ok?
    ensures TccServices(services[1..]).Ok?
  {
  }

  /** The definitions of the first `i` services: those of the first service,
      then those of the next `i - 1`. */
  lemma {:induction false} DefinitionCountPrefix(services: seq<(string, Value)>, i: nat, underSystemPolicy: bool)
    requires 0 < i <= |services|
    ensures DefinitionCount(services[..i], underSystemPolicy) ==
      (if (services[0].0 == SYSTEM_POLICY_ALL_FILES) == underSystemPolicy then IterLength(services[0].1) else 0) +
      DefinitionCount(services[1..][..i - 1], underSystemPolicy)
  {
    assert services[..i][0] == services[0];
    assert services[..i][1..] == services[1..][..i - 1];
  }

  /** Definition `j` of service `i` (a SystemPolicyAllFiles service) gives the
      payload that follows those of the SystemPolicyAllFiles services before it. */
  predicate TccPayloadAt(services: seq<(string, Value)>, payloads: seq<Payload>, i: nat, j: nat)
    requires i < |services|
  {
    Iter(services[i].1).Ok? && j < |Iter(services[i].1).value| &&
    DefinitionCount(services[..i], true) + j < |payloads| &&
    GetSystemPolicyAllFiles(Iter(services[i].1).value[j]) == Ok(payloads[DefinitionCount(services[..i], true) + j])
  }

  /** Definition `j` of service `i` (any other service) gives the warning that
      follows those of the other services before it. */
  predicate TccWarningAt(services: seq<(string, Value)>, log: seq<Diagnostic>, i: nat, j: nat)
    requires i < |services|
  {
    DefinitionCount(services[..i], false) + j < |log| &&
    log[DefinitionCount(services[..i], false) + j] == UnexpectedServiceType(TCC_POLICY, services[i].0)
  }

  /** Payload `j` of the first service is payload `j` of the whole run. */
  lemma {:induction false} TccPayloadHead(services: seq<(string, Value)>, payloads: seq<Payload>,
                                          head: seq<Payload>, rest: seq<Payload>, j: nat)
    requires 0 < |services| && payloads == head + rest && j < |head|
    requires Iter(services[0].1).Ok? && j < |Iter(services[0].1).value|
    requires GetSystemPolicyAllFiles(Iter(services[0].1).value[j]) == Ok(head[j])
    ensures TccPayloadAt(services, payloads, 0, j)
  {
    assert DefinitionCount(services[..0], true) == 0 by { assert services[..0] == []; }
    assert payloads[j] == head[j];
  }

  /** A payload of service `i > 0` sits after the first service's payloads. */
  lemma {:induction false} TccPayloadShift(services: seq<(string, Value)>, payloads: seq<Payload>,
                                           head: seq<Payload>, rest: seq<Payload>, i: nat, j: nat)
    requires 0 < i < |services| && payloads == head + rest
    requires |head| == (if services[0].0 == SYSTEM_POLICY_ALL_FILES then IterLength(services[0].1) else 0)
    requires TccPayloadAt(services[1..], rest, i - 1, j)
    ensures TccPayloadAt(services, payloads, i, j)
  {
    var k := DefinitionCount(services[1..][..i - 1], true) + j;
    assert services[1..][i - 1] == services[i];
    DefinitionCountPrefix(services, i, true);
    assert payloads[|head| + k] == rest[k];
  }

  /** Payload `j` of the first service, when that service is SystemPolicyAllFiles. */
  lemma {:induction false} TccPayloadFirst(services: seq<(string, Value)>, j: nat)
    requires TccServices(services).Ok?
    requires 0 < |services| && services[0].0 == SYSTEM_POLICY_ALL_FILES && j < IterLength(services[0].1)
    ensures TccPayloadAt(services, TccServices(services).value.payloads, 0, j)
  {
    TccServicesFirst(services);
    var definitions := Iter(services[0].1).value;
    var head := TccDefinitions(services[0].0, definitions).value;
    TccDefinitionsMeaning(definitions);
    TccPayloadHead(services, TccServices(services).value.payloads, head.payloads, TccServices(services[1..]).value.payloads, j);
  }

  /** From the payloads of the services after the first to those of all of them. */
  lemma {:induction false} TccPayloadNext(services: seq<(string, Value)>, i: nat, j: nat)
    requires TccServices(services).Ok? && 0 < i < |services|
    requires TccServices(services[1..]).Ok? && TccPayloadAt(services[1..], TccServices(services[1..]).value.payloads, i - 1, j)
    ensures TccPayloadAt(services, TccServices(services).value.payloads, i, j)
  {
    TccServicesFirst(services);
    var head := TccDefinitions(services[0].0, Iter(services[0].1).value).value;
    TccPayloadShift(services, TccServices(services).value.payloads, head.payloads, TccServices(services[1..]).value.payloads, i, j);
  }

  lemma {:induction false} TccPayloadOrder(services: seq<(string, Value)>, i: nat, j: nat)
    requires TccServices(services).Ok?
    requires i < |services| && services[i].0 == SYSTEM_POLICY_ALL_FILES && j < IterLength(services[i].1)
    ensures TccPayloadAt(services, TccServices(services).value.payloads, i, j)
    decreases i
  {
    if i == 0 {
      TccPayloadFirst(services, j);
    } else {
      TccServicesRest(services);
      assert services[1..][i - 1] == services[i];
      TccPayloadOrder(services[1..], i - 1, j);
      TccPayloadNext(services, i, j);
    }
  }

  /** Warning `j` of the first service is warning `j` of the whole run. */
  lemma {:induction false} TccWarningHead(services: seq<(string, Value)>, log: seq<Diagnostic>,
                                          head: seq<Diagnostic>, rest: seq<Diagnostic>, j: nat)
    requires 0 < |services| && log == head + rest && j < |head|
    requires head[j] == UnexpectedServiceType(TCC_POLICY, services[0].0)
    ensures TccWarningAt(services, log, 0, j)
  {
    assert DefinitionCount(services[..0], false) == 0 by { assert services[..0] == []; }
    assert log[j] == head[j];
  }

  /** A warning of service `i > 0` sits after the first service's warnings. */
  lemma {:induction false} TccWarningShift(services: seq<(string, Value)>, log: seq<Diagnostic>,
                                           head: seq<Diagnostic>, rest: seq<Diagnostic>, i: nat, j: nat)
    requires 0 < i < |services| && log == head + rest
    requires |head| == (if services[0].0 != SYSTEM_POLICY_ALL_FILES then IterLength(services[0].1) else 0)
    requires TccWarningAt(services[1..], rest, i - 1, j)
    ensures TccWarningAt(services, log, i, j)
  {
    var k := DefinitionCount(services[1..][..i - 1], false) + j;
    assert services[1..][i - 1] == services[i];
    DefinitionCountPrefix(services, i, false);
    assert log[|head| + k] == rest[k];
  }

  /** Warning `j` of the first service, when that service is another one. */
  lemma {:induction false} TccWarningFirst(services: seq<(string, Value)>, j: nat)
    requires TccServices(services).Ok?
    requires 0 < |services| && services[0].0 != SYSTEM_POLICY_ALL_FILES && j < IterLength(services[0].1)
    ensures TccWarningAt(services, TccServices(services).value.log, 0, j)
  {
    TccServicesFirst(services);
    var head := TccDefinitions(services[0].0, Iter(services[0].1).value).value;
    assert head.log[j] in head.log;
    TccWarningHead(services, TccServices(services).value.log, head.log, TccServices(services[1..]).value.log, j);
  }

  /** From the warnings of the services after the first to those of all of them. */
  lemma {:induction false} TccWarningNext(services: seq<(string, Value)>, i: nat, j: nat)
    requires TccServices(services).Ok? && 0 < i < |services|
    requires TccServices(services[1..]).Ok? && TccWarningAt(services[1..], TccServices(services[1..]).value.log, i - 1, j)
    ensures TccWarningAt(services, TccServices(services).value.log, i, j)
  {
    TccServicesFirst(services);
    var head := TccDefinitions(services[0].0, Iter(services[0].1).value).value;
    TccWarningShift(services, TccServices(services).value.log, head.log, TccServices(services[1..]).value.log, i, j);
  }

  lemma {:induction false} TccWarningOrder(services: seq<(string, Value)>, i: nat, j: nat)
    requires TccServices(services).Ok?
    requires i < |services| && services[i].0 != SYSTEM_POLICY_ALL_FILES && j < IterLength(services[i].1)
    ensures TccWarningAt(services, TccServices(services).value.log, i, j)
    decreases i
  {
    if i == 0 {
      TccWarningFirst(services, j);
    } else {
      TccServicesRest(services);
      assert services[1..][i - 1] == services[i];
      TccWarningOrder(services[1..], i - 1, j);
      TccWarningNext(services, i, j);
    }
  }

  /** The order of the TCC extraction over the whole `Services` dictionary:
      service by service in document order, and within a service definition by
      definition, each SystemPolicyAllFiles definition giving the payload
      `get_SystemPolicyAllFiles` builds from it, and each definition of another
      service giving one warning naming that service. */
  predicate TccInOrder(services: seq<(string, Value)>, x: Extraction) {
    (forall i: nat, j: nat :: i < |services| && services[i].0 == SYSTEM_POLICY_ALL_FILES && j < IterLength(services[i].1) ==>
      TccPayloadAt(services, x.payloads, i, j)) &&
    (forall i: nat, j: nat :: i < |services| && services[i].0 != SYSTEM_POLICY_ALL_FILES && j < IterLength(services[i].1) ==>
      TccWarningAt(services, x.log, i, j))
  }

  lemma {:induction false} TccServicesOrdered(services: seq<(string, Value)>)
    requires TccServices(services).Ok?
    ensures TccInOrder(services, TccServices(services).value)
  {
    forall i: nat, j: nat | i < |services| && services[i].0 == SYSTEM_POLICY_ALL_FILES && j < IterLength(services[i].1)
      ensures TccPayloadAt(services, TccServices(services).value.payloads, i, j)
    {
      TccPayloadOrder(services, i, j);
    }
    forall i: nat, j: nat | i < |services| && services[i].0 != SYSTEM_POLICY_ALL_FILES && j < IterLength(services[i].1)
      ensures TccWarningAt(services, TccServices(services).value.log, i, j)
    {
      TccWarningOrder(services, i, j);
    }
  }

  /** The definitions listed under `content['Services']`, service by service. */
  function TccPayloads(content: Value): (r: Result<Extraction>)
    ensures r.Ok? <==> (HasKey(content, "Services") && GetItem(content, "Services").value.Dict? &&
      TccServices(GetItem(content, "Services").value.entries).Ok?)
    ensures r.Ok? ==> (var services := GetItem(content, "Services").value.entries;
      |r.value.payloads| == DefinitionCount(services, true) && |r.value.log| == DefinitionCount(services, false))
    ensures r.Ok? ==> forall p <- r.value.payloads :: Conforms(p) && p.payloadType == TCC_POLICY
    ensures r.Ok? ==> forall d <- r.value.log :: d.UnexpectedServiceType?
    ensures r.Ok? ==> TccInOrder(GetItem(content, "Services").value.entries, r.value)
  {
    var services :- GetItem(content, "Services");
    var entries :- Items(services);
    var x :- TccServices(entries);
    TccServicesOrdered(entries);
    Ok(x)
  }

  // com.apple.syspolicy.kernel-extension-policy

  /** One payload per allowed team identifier, in order. */
  function KextPayloads(content: Value): (r: Result<Extraction>)
    ensures r.Ok? <==> (HasKey(content, "AllowedTeamIdentifiers") &&
      Iter(GetItem(content, "AllowedTeamIdentifiers").value).Ok?)
    ensures r.Ok? ==> (var ids := Iter(GetItem(content, "AllowedTeamIdentifiers").value).value;
      r.value.log == [] && |r.value.payloads| == |ids| &&
      forall i :: 0 <= i < |ids| ==>
        Conforms(r.value.payloads[i]) && AllIds(r.value.payloads[i]) == [Str(KEXT_POLICY), ids[i]])
  {
    var ids :- GetItem(content, "AllowedTeamIdentifiers");
    var teamIds :- Iter(ids);
    Ok(Extraction(seq(|teamIds|, i requires 0 <= i < |teamIds| => NewKext(KEXT_POLICY, teamIds[i])), []))
  }

  // com.apple.system-extension-policy

  /** The number of bundle identifiers listed over all teams. */
  function BundleCount(teams: seq<(string, Value)>): nat {
    if teams == [] then 0 else IterLength(teams[0].1) + BundleCount(teams[1..])
  }

  /** The payloads of one team: one per bundle, in order. */
  function TeamBundles(teamId: string, bundles: seq<Value>): (r: seq<Payload>)
    ensures |r| == |bundles|
    ensures forall j :: 0 <= j < |bundles| ==> r[j] == NewSysExt(SYSEXT_POLICY, Str(teamId), bundles[j])
  {
    seq(|bundles|, j requires 0 <= j < |bundles| => NewSysExt(SYSEXT_POLICY, Str(teamId), bundles[j]))
  }

  /** One payload per (team, bundle) pair, team by team. */
  function SysExtTeams(teams: seq<(string, Value)>): (r: Result<seq<Payload>>)
    ensures r.Ok? <==> forall i :: 0 <= i < |teams| ==> Iter(teams[i].1).Ok?
    ensures r.Ok? ==> |r.value| == BundleCount(teams)
    ensures r.Ok? ==> forall p <- r.value :: Conforms(p) && p.kind.SysExt?
  {
    if teams == [] then Ok([])
    else
      var bundles :- Iter(teams[0].1);
      var rest :- SysExtTeams(teams[1..]);
      Ok(TeamBundles(teams[0].0, bundles) + rest)
  }

  /** Every system-extension payload names a listed team and one of its
      bundles, and every (team, bundle) pair has its payload. */
  lemma {:induction false} SysExtTeamsMeaning(teams: seq<(string, Value)>)
    ensures SysExtTeams(teams).Ok? ==> forall p <- SysExtTeams(teams).value ::
      exists i :: 0 <= i < |teams| && p.kind.teamId == Str(teams[i].0) &&
        Iter(teams[i].1).Ok? && p.kind.bundleId in Iter(teams[i].1).value
    ensures SysExtTeams(teams).Ok? ==> forall i, j :: 0 <= i < |teams| && Iter(teams[i].1).Ok? && 0 <= j < |Iter(teams[i].1).value| ==>
      NewSysExt(SYSEXT_POLICY, Str(teams[i].0), Iter(teams[i].1).value[j]) in SysExtTeams(teams).value
    decreases |teams|
  {
    if teams != [] && SysExtTeams(teams).Ok? {
      var bundles := Iter(teams[0].1).value;
      var rest := SysExtTeams(teams[1..]).value;
      var head := TeamBundles(teams[0].0, bundles);
      assert SysExtTeams(teams).value == head + rest;
      SysExtTeamsMeaning(teams[1..]);
      forall p: Payload | p in head + rest
        ensures exists i :: (0 <= i < |teams| && p.kind.teamId == Str(teams[i].0) &&
          Iter(teams[i].1).Ok? && p.kind.bundleId in Iter(teams[i].1).value)
      {
        if p in head {
          var j :| 0 <= j < |head| && head[j] == p;
          assert p.kind.bundleId == bundles[j];
        } else {
          assert p in rest;
          var i :| 0 <= i < |teams[1..]| && p.kind.teamId == Str(teams[1..][i].0) &&
            Iter(teams[1..][i].1).Ok? && p.kind.bundleId in Iter(teams[1..][i].1).value;
          assert teams[1..][i] == teams[i + 1];
        }
      }
      forall i, j | 0 <= i < |teams| && Iter(teams[i].1).Ok? && 0 <= j < |Iter(teams[i].1).value|
        ensures NewSysExt(SYSEXT_POLICY, Str(teams[i].0), Iter(teams[i].1).value[j]) in head + rest
      {
        if i == 0 {
          assert head[j] == NewSysExt(SYSEXT_POLICY, Str(teams[0].0), bundles[j]);
        } else {
          assert teams[1..][i - 1] == teams[i];
        }
      }
    }
  }

  /** The payloads of the first team, then those of the others. */
  lemma {:induction false} SysExtTeamsFirst(teams: seq<(string, Value)>)
    requires teams != [] && SysExtTeams(teams).Ok?
    ensures Iter(teams[0].1).Ok? && SysExtTeams(teams[1..]).Ok?
    ensures SysExtTeams(teams).value ==
      TeamBundles(teams[0].0, Iter(teams[0].1).value) + SysExtTeams(teams[1..]).value
  {
  }

  /** The bundles of the first `i` teams: those of the first team, then those of the next `i - 1`. */
  lemma {:induction false} BundleCountPrefix(teams: seq<(string, Value)>, i: nat)
    requires 0 < i <= |teams|
    ensures BundleCount(teams[..i]) == IterLength(teams[0].1) + BundleCount(teams[1..][..i - 1])
  {
    assert teams[..i][0] == teams[0];
    assert teams[..i][1..] == teams[1..][..i - 1];
  }

  /** Bundle `j` of team `i` has its payload right after the bundles of the
      teams before it and the first `j` bundles of its own team. */
  predicate BundleAt(teams: seq<(string, Value)>, payloads: seq<Payload>, i: nat, j: nat)
    requires i < |teams|
  {
    Iter(teams[i].1).Ok? && j < |Iter(teams[i].1).value| && BundleCount(teams[..i]) + j < |payloads| &&
    payloads[BundleCount(teams[..i]) + j] == NewSysExt(SYSEXT_POLICY, Str(teams[i].0), Iter(teams[i].1).value[j])
  }

  /** When the whole run succeeds, so does the run over the teams after the first. */
  lemma {:induction false} SysExtTeamsRest(teams: seq<(string, Value)>)
    requires teams != [] && SysExtTeams(teams).Ok?
    ensures SysExtTeams(teams[1..]).Ok?
  {
  }

  /** Payload `j` of the first team is payload `j` of the whole run. */
  lemma {:induction false} BundleHead(teams: seq<(string, Value)>, payloads: seq<Payload>,
                                      head: seq<Payload>, rest: seq<Payload>, j: nat)
    requires 0 < |teams| && payloads == head + rest
    requires Iter(teams[0].1).Ok? && j < |Iter(teams[0].1).value| && j < |head|
    requires head[j] == NewSysExt(SYSEXT_POLICY, Str(teams[0].0), Iter(teams[0].1).value[j])
    ensures BundleAt(teams, payloads, 0, j)
  {
    assert BundleCount(teams[..0]) == 0 by { assert teams[..0] == []; }
    assert payloads[j] == head[j];
  }

  /** A payload of team `i > 0` sits after the first team's payloads. */
  lemma {:induction false} BundleShift(teams: seq<(string, Value)>, payloads: seq<Payload>,
                                       head: seq<Payload>, rest: seq<Payload>, i: nat, j: nat)
    requires 0 < i < |teams| && payloads == head + rest && |head| == IterLength(teams[0].1)
    requires BundleAt(teams[1..], rest, i - 1, j)
    ensures BundleAt(teams, payloads, i, j)
  {
    var k := BundleCount(teams[1..][..i - 1]) + j;
    assert teams[1..][i - 1] == teams[i];
    BundleCountPrefix(teams, i);
    assert payloads[|head| + k] == rest[k];
  }

  /** Bundle `j` of the first team. */
  lemma {:induction false} SysExtTeamsHead(teams: seq<(string, Value)>, j: nat)
    requires SysExtTeams(teams).Ok? && 0 < |teams| && j < IterLength(teams[0].1)
    ensures BundleAt(teams, SysExtTeams(teams).value, 0, j)
  {
    SysExtTeamsFirst(teams);
    var head := TeamBundles(teams[0].0, Iter(teams[0].1).value);
    assert head[j] == NewSysExt(SYSEXT_POLICY, Str(teams[0].0), Iter(teams[0].1).value[j]);
    BundleHead(teams, SysExtTeams(teams).value, head, SysExtTeams(teams[1..]).value, j);
  }

  /** From the payloads of the teams after the first to those of all of them. */
  lemma {:induction false} SysExtTeamsNext(teams: seq<(string, Value)>, i: nat, j: nat)
    requires SysExtTeams(teams).Ok? && 0 < i < |teams|
    requires SysExtTeams(teams[1..]).Ok? && BundleAt(teams[1..], SysExtTeams(teams[1..]).value, i - 1, j)
    ensures BundleAt(teams, SysExtTeams(teams).value, i, j)
  {
    SysExtTeamsFirst(teams);
    var head := TeamBundles(teams[0].0, Iter(teams[0].1).value);
    BundleShift(teams, SysExtTeams(teams).value, head, SysExtTeams(teams[1..]).value, i, j);
  }

  /** The order of the system-extension payloads: team by team in document
      order, and within a team bundle by bundle, so bundle `j` of team `i`
      comes after all the bundles of the teams before it. */
  lemma {:induction false} SysExtTeamsOrder(teams: seq<(string, Value)>, i: nat, j: nat)
    requires SysExtTeams(teams).Ok?
    requires i < |teams| && j < IterLength(teams[i].1)
    ensures BundleAt(teams, SysExtTeams(teams).value, i, j)
    decreases i
  {
    if i == 0 {
      SysExtTeamsHead(teams, j);
    } else {
      SysExtTeamsRest(teams);
      assert teams[1..][i - 1] == teams[i];
      SysExtTeamsOrder(teams[1..], i - 1, j);
      SysExtTeamsNext(teams, i, j);
    }
  }

  /** Every team and bundle of `SysExtTeamsOrder` at once. */
  lemma {:induction false} SysExtTeamsOrdered(teams: seq<(string, Value)>)
    requires SysExtTeams(teams).Ok?
    ensures forall i: nat, j: nat :: i < |teams| && j < IterLength(teams[i].1) ==>
      BundleAt(teams, SysExtTeams(teams).value, i, j)
  {
    forall i: nat, j: nat | i < |teams| && j < IterLength(teams[i].1)
      ensures BundleAt(teams, SysExtTeams(teams).value, i, j)
    {
      SysExtTeamsOrder(teams, i, j);
    }
  }

  /** One payload per bundle listed under `content['AllowedSystemExtensions']`,
      team by team and bundle by bundle. */
  function SysExtPayloads(content: Value): (r: Result<Extraction>)
    ensures r.Ok? <==> (HasKey(content, "AllowedSystemExtensions") &&
      GetItem(content, "AllowedSystemExtensions").value.Dict? &&
      forall i :: 0 <= i < |GetItem(content, "AllowedSystemExtensions").value.entries| ==>
        Iter(GetItem(content, "AllowedSystemExtensions").value.entries[i].1).Ok?)
    ensures r.Ok? ==> (var teams := GetItem(content, "AllowedSystemExtensions").value.entries;
      |r.value.payloads| == BundleCount(teams) &&
      forall i: nat, j: nat :: i < |teams| && j < IterLength(teams[i].1) ==> BundleAt(teams, r.value.payloads, i, j))
    ensures r.Ok? ==> r.value.log == [] && forall p <- r.value.payloads :: Conforms(p) && p.payloadType == SYSEXT_POLICY
  {
    var allowed :- GetItem(content, "AllowedSystemExtensions");
    var teams :- Items(allowed);
    var payloads :- SysExtTeams(teams);
    SysExtTeamsOrdered(teams);
    Ok(Extraction(payloads, []))
  }

  // com.apple.webcontent-filter

  /** `blob` holds, under each of the six filter fields, what `content.get` gives for it. */
  predicate FilterFieldsFrom(blob: Value, content: Value) {
    GetItem(blob, "FilterType") == GetOrNull(content, "FilterType") &&
    GetItem(blob, "PluginBundleID") == GetOrNull(content, "PluginBundleID") &&
    GetItem(blob, "FilterSockets") == GetOrNull(content, "FilterSockets") &&
    GetItem(blob, "FilterDataProviderBundleIdentifier") == GetOrNull(content, "FilterDataProviderBundleIdentifier") &&
    GetItem(blob, "FilterDataProviderDesignatedRequirement") == GetOrNull(content, "FilterDataProviderDesignatedRequirement") &&
    GetItem(blob, "FilterGrade") == GetOrNull(content, "FilterGrade")
  }

  /** The value blob of a web-content-filter payload: the six fields of the
      content, each `None` when absent. */
  function FilterBlob(content: Value): (blob: Value)
    requires content.Dict?
    ensures FilterFieldsFrom(blob, content)
    ensures HasKey(blob, "FilterDataProviderBundleIdentifier")
    ensures forall i :: 0 <= i < |FILTER_PROPERTY_KEYS| ==> HasKey(blob, FILTER_PROPERTY_KEYS[i])
    ensures blob.Dict? && |blob.entries| == 6
  {
    var es := content.entries;
    var blob := Dict([
      ("FilterType", Field(es, "FilterType")), ("PluginBundleID", Field(es, "PluginBundleID")),
      ("FilterSockets", Field(es, "FilterSockets")),
      ("FilterDataProviderBundleIdentifier", Field(es, "FilterDataProviderBundleIdentifier")),
      ("FilterDataProviderDesignatedRequirement", Field(es, "FilterDataProviderDesignatedRequirement")),
      ("FilterGrade", Field(es, "FilterGrade"))]);
    LookupFindsFirst(blob.entries, 0); LookupFindsFirst(blob.entries, 1); LookupFindsFirst(blob.entries, 2);
    LookupFindsFirst(blob.entries, 3); LookupFindsFirst(blob.entries, 4); LookupFindsFirst(blob.entries, 5);
    blob
  }

  /** Exactly one payload, absent fields reading as None; only a non-dictionary
      content raises. */
  function WebContentFilterPayloads(content: Value): (r: Result<Extraction>)
    ensures r.Ok? <==> content.Dict?
    ensures r.Ok? ==> |r.value.payloads| == 1 && r.value.log == [] && Conforms(r.value.payloads[0])
    ensures r.Ok? ==> r.value.payloads[0].payloadType == WEB_CONTENT_FILTER
    ensures r.Ok? ==>
      AllIds(r.value.payloads[0]) == [Str(WEB_CONTENT_FILTER), GetOrNull(content, "FilterDataProviderBundleIdentifier").value]
    ensures r.Ok? ==> FilterFieldsFrom(r.value.payloads[0].payload, content)
    ensures r.Ok? ==> r.value.payloads[0].payload.Dict? && |r.value.payloads[0].payload.entries| == 6
  {
    if !content.Dict? then Err(AttributeError)  // the first `content.get` raises
    else Ok(Extraction([NewWebContentFilter(WEB_CONTENT_FILTER, FilterBlob(content)).value], []))
  }

  // com.apple.notificationsettings

  /** One payload per notification definition, keyed by its BundleIdentifier. */
  function NotificationsEach(definitions: seq<Value>): (r: Result<seq<Payload>>)
    ensures r.Ok? <==> forall i :: 0 <= i < |definitions| ==> HasKey(definitions[i], "BundleIdentifier")
    ensures r.Ok? ==> forall p <- r.value :: Conforms(p) && p.payloadType == NOTIFICATION_SETTINGS
    ensures r.Ok? ==> (|r.value| == |definitions| &&
      forall i :: 0 <= i < |definitions| ==>
        Conforms(r.value[i]) && r.value[i].payload == definitions[i] &&
        AllIds(r.value[i]) == [Str(NOTIFICATION_SETTINGS), GetItem(definitions[i], "BundleIdentifier").value])
  {
    if definitions == [] then Ok([])
    else
      var p :- NewNotifications(NOTIFICATION_SETTINGS, definitions[0]);
      var rest :- NotificationsEach(definitions[1..]);
      Ok([p] + rest)
  }

  /** One payload per definition listed under `content['NotificationSettings']`. */
  function NotificationPayloads(content: Value): (r: Result<Extraction>)
    ensures r.Ok? <==> (HasKey(content, "NotificationSettings") &&
      Iter(GetItem(content, "NotificationSettings").value).Ok? &&
      forall i :: 0 <= i < |Iter(GetItem(content, "NotificationSettings").value).value| ==>
        HasKey(Iter(GetItem(content, "NotificationSettings").value).value[i], "BundleIdentifier"))
    ensures r.Ok? ==> (var definitions := Iter(GetItem(content, "NotificationSettings").value).value;
      |r.value.payloads| == |definitions| &&
      forall i :: 0 <= i < |definitions| ==>
        r.value.payloads[i].payload == definitions[i] &&
        AllIds(r.value.payloads[i]) == [Str(NOTIFICATION_SETTINGS), GetItem(definitions[i], "BundleIdentifier").value])
    ensures r.Ok? ==> r.value.log == [] && forall p <- r.value.payloads :: Conforms(p) && p.payloadType == NOTIFICATION_SETTINGS
  {
    var settings :- GetItem(content, "NotificationSettings");
    var definitions :- Iter(settings);
    var payloads :- NotificationsEach(definitions);
    Ok(Extraction(payloads, []))
  }

  // com.apple.ManagedClient.preferences

  const PREFERENCES_KEY: string := "PayloadContentManagedPreferences"
  const DEFENDER_DOMAIN: string := "com.microsoft.wdav.atp"

  /** The four-level lookup of the onboarding blob; any failure is caught. */
  function OnboardingBlob(content: Value): Result<Value> {
    var preferences :- GetItem(content, PREFERENCES_KEY);
    var domain :- GetItem(preferences, DEFENDER_DOMAIN);
    var forced :- GetItem(domain, "Forced");
    var first :- GetIndex(forced, 0);
    var settings :- GetItem(first, "mcx_preference_settings");
    GetItem(settings, "OnboardingInfo")
  }

  /** Content and its preferences are dictionaries and the vendor domain is there. */
  predicate DomainPresent(content: Value) {
    HasKey(content, PREFERENCES_KEY) && HasKey(GetItem(content, PREFERENCES_KEY).value, DEFENDER_DOMAIN)
  }

  /** At most one onboarding payload: none without the vendor domain, none (and an
      error printed) when the nested lookup fails. */
  function OnboardingPayloads(content: Value): (r: Result<Extraction>)
    ensures r.Ok? ==> |r.value.payloads| <= 1
    ensures r.Ok? ==> forall p <- r.value.payloads :: Conforms(p) && p.payloadType == MANAGED_PREFERENCES
    ensures r.Ok? && |r.value.payloads| == 1 ==>
      r.value.log == [] && OnboardingBlob(content).Ok? &&
      r.value.payloads[0] == NewOnboardingInfo(MANAGED_PREFERENCES, OnboardingBlob(content).value)
    ensures r.Ok? && r.value.log != [] ==> r.value.log == [MalformedOnboardingBlob] && OnboardingBlob(content).Err?
    ensures content.Dict? && !HasKey(content, PREFERENCES_KEY) ==> r == Ok(NOTHING)
    ensures content.Dict? && HasKey(content, PREFERENCES_KEY) && GetItem(content, PREFERENCES_KEY).value.Dict? ==>
      r.Ok? && (|r.value.payloads| == 1 <==> DomainPresent(content) && OnboardingBlob(content).Ok?)
    ensures (content.Dict? && HasKey(content, PREFERENCES_KEY) && GetItem(content, PREFERENCES_KEY).value.Dict? &&
             DomainPresent(content) && OnboardingBlob(content).Err?) ==> r == Ok(Extraction([], [MalformedOnboardingBlob]))
    ensures (content.Dict? && HasKey(content, PREFERENCES_KEY) && GetItem(content, PREFERENCES_KEY).value.Dict? &&
             !DomainPresent(content)) ==> r == Ok(NOTHING)
  {
    var hasPreferences :- Contains(content, PREFERENCES_KEY);
    if !hasPreferences then Ok(NOTHING)
    else
      var preferences :- GetItem(content, PREFERENCES_KEY);
      var hasDomain :- Contains(preferences, DEFENDER_DOMAIN);
      if !hasDomain then Ok(NOTHING)
      else
        match OnboardingBlob(content)
        case Ok(info) => Ok(Extraction([NewOnboardingInfo(MANAGED_PREFERENCES, info)], []))
        case Err(_) => Ok(Extraction([], [MalformedOnboardingBlob]))
  }

  // Dispatch on the payload-type tag.

  predicate KnownTag(payloadType: Value) {
    payloadType == Str(TCC_POLICY) || payloadType == Str(KEXT_POLICY) || payloadType == Str(SYSEXT_POLICY) ||
    payloadType == Str(WEB_CONTENT_FILTER) || payloadType == Str(NOTIFICATION_SETTINGS) ||
    payloadType == Str(MANAGED_PREFERENCES)
  }

  /** The payloads one item defines (`get_payloads`). */
  function GetPayloads(payloadType: Value, content: Value): (r: Result<Extraction>)
    ensures payloadType == Str(TCC_POLICY) ==> r == TccPayloads(content)
    ensures payloadType == Str(KEXT_POLICY) ==> r == KextPayloads(content)
    ensures payloadType == Str(SYSEXT_POLICY) ==> r == SysExtPayloads(content)
    ensures payloadType == Str(WEB_CONTENT_FILTER) ==> r == WebContentFilterPayloads(content)
    ensures payloadType == Str(NOTIFICATION_SETTINGS) ==> r == NotificationPayloads(content)
    ensures payloadType == Str(MANAGED_PREFERENCES) ==> r == OnboardingPayloads(content)
    ensures !KnownTag(payloadType) ==> r == Ok(NOTHING)
    ensures r.Ok? ==> forall p <- r.value.payloads :: Conforms(p) && payloadType == Str(p.payloadType)
    ensures r.Ok? ==> forall d <- r.value.log :: d.UnexpectedServiceType? || d.MalformedOnboardingBlob?
  {
    if payloadType == Str(TCC_POLICY) then TccPayloads(content)
    else if payloadType == Str(KEXT_POLICY) then KextPayloads(content)
    else if payloadType == Str(SYSEXT_POLICY) then SysExtPayloads(content)
    else if payloadType == Str(WEB_CONTENT_FILTER) then WebContentFilterPayloads(content)
    else if payloadType == Str(NOTIFICATION_SETTINGS) then NotificationPayloads(content)
    else if payloadType == Str(MANAGED_PREFERENCES) then OnboardingPayloads(content)
    else Ok(NOTHING)
  }
}
