/** Reconciliation (`report`): each expected payload gets one verdict, in
    template order, from the installed-profiles map and the TCC override map;
    then the onboarding payloads are counted. Printing is replaced by the
    returned verdicts. */
module Reconciliation {
  import opened PyValue
  import opened Payloads
  import opened Extraction
  import opened Indexing
  import opened Parsing

  /** One listed candidate of a duplicate definition: its number (the counter
      `n`), where it was found, the Match/Mismatch label and, for TCC
      SystemPolicyAllFiles payloads only, the In TCC/Not in TCC label. */
  datatype Candidate = Candidate(number: nat, at: ProfileEntry, matches: bool, inTcc: Option<bool>)

  datatype Verdict =
    | NotProvided(expected: Payload)
    | Found(expected: Payload, at: ProfileEntry)
    | FoundNotInTcc(expected: Payload, at: ProfileEntry)
    | Mismatch(expected: Payload, at: ProfileEntry)
    | Duplicate(expected: Payload, candidates: seq<Candidate>)

  datatype OnboardingVerdict = OnboardingFound | OnboardingMissing | OnboardingMultiple(infos: seq<ProfileEntry>)

  /** Everything a run reports: the diagnostics of the three parsers, the
      verdicts in template order and the onboarding verdict. */
  datatype Outcome = Outcome(diagnostics: seq<Diagnostic>, verdicts: seq<Verdict>, onboarding: OnboardingVerdict)

  /** Whether the override store is consulted for `e`. Expected payloads
      conform, so a TCC-tagged one always has a service type. */
  predicate ChecksTcc(e: Payload) {
    e.payloadType == TCC_POLICY && e.kind.SystemPolicyAllFiles? && e.kind.serviceType == SYSTEM_POLICY_ALL_FILES
  }

  /** `t`: the override fields stored for `e`, or None. */
  function TccValue(tcc: TccMap, e: Payload): Value {
    match Stored(tcc, e)
    case Some(v) => v
    case None => Null
  }

  /** The labels of one candidate `c`, numbered `n`. */
  function Label(e: Payload, c: ProfileEntry, n: nat, check: bool, t: Value): Candidate {
    Candidate(n, c, PyEq(e.payload, c.payload.payload), if check then Some(PyEq(t, c.payload.payload)) else None)
  }

  /** Each candidate is labelled with its own number, its own entry and its own
      comparisons. */
  function Labels(e: Payload, m: seq<ProfileEntry>, check: bool, t: Value): (cs: seq<Candidate>)
    ensures |cs| == |m|
    ensures forall i :: 0 <= i < |cs| ==>
      cs[i].number == i + 1 && cs[i].at == m[i] &&
      (cs[i].matches <==> PyEq(e.payload, m[i].payload.payload)) &&
      (cs[i].inTcc.Some? <==> check) &&
      (cs[i].inTcc.Some? ==> (cs[i].inTcc.value <==> PyEq(t, m[i].payload.payload)))
  {
    seq(|m|, i requires 0 <= i < |m| => Label(e, m[i], i + 1, check, t))
  }

  /** The verdict for one expected payload; looking it up hashes it, which is
      the only way it fails. The verdict is about `e`, and says "not provided"
      exactly when no key equals `e`. */
  function VerdictFor(profiles: ProfileMap, tcc: TccMap, e: Payload): (r: Result<Verdict>)
    ensures r.Err? <==> !Hashable(e)
    ensures r.Err? ==> r.fault == Unhashable
    ensures r.Ok? ==> r.value.expected == e
    ensures r.Ok? ==> (r.value.NotProvided? <==> FindKey(profiles, e).None?)
  {
    if !Hashable(e) then Err(Unhashable)
    else
      match FindKey(profiles, e)
      case None => Ok(NotProvided(e))
      case Some(k) =>
        var m := profiles[k].1;
        var check := ChecksTcc(e);
        var t := if check then TccValue(tcc, e) else Null;
        if |m| == 1 then
          var found := m[0].payload.payload;
          if PyEq(e.payload, found) then
            if !check || PyEq(t, found) then Ok(Found(e, m[0])) else Ok(FoundNotInTcc(e, m[0]))
          else Ok(Mismatch(e, m[0]))
        else Ok(Duplicate(e, Labels(e, m, check, t)))
  }

  function VerdictsFor(profiles: ProfileMap, tcc: TccMap, expected: seq<Payload>): Result<seq<Verdict>>
    decreases |expected|
  {
    if expected == [] then Ok([])
    else
      var v :- VerdictFor(profiles, tcc, expected[0]);
      var rest :- VerdictsFor(profiles, tcc, expected[1..]);
      Ok([v] + rest)
  }

  lemma VerdictsStep(profiles: ProfileMap, tcc: TccMap, expected: seq<Payload>, i: nat, done: seq<Verdict>)
    requires i < |expected|
    ensures Prepend(done, VerdictsFor(profiles, tcc, expected[i..])) ==
      match VerdictFor(profiles, tcc, expected[i])
      case Err(f) => Err(f)
      case Ok(v) => Prepend(done + [v], VerdictsFor(profiles, tcc, expected[i + 1..]))
  {
    assert expected[i..][0] == expected[i] && expected[i..][1..] == expected[i + 1..];
    var rest := VerdictsFor(profiles, tcc, expected[i + 1..]);
    if VerdictFor(profiles, tcc, expected[i]).Ok? && rest.Ok? {
      var v := VerdictFor(profiles, tcc, expected[i]).value;
      assert done + ([v] + rest.value) == (done + [v]) + rest.value;
    }
  }

  /** The candidate loop of a duplicate definition, with its counter `n`. */
  method ListCandidates(e: Payload, m: seq<ProfileEntry>, check: bool, t: Value) returns (labels: seq<Candidate>)
    ensures labels == Labels(e, m, check, t)
  {
    labels := [];
    var n := 1;
    for j := 0 to |m|
      invariant n == j + 1
      invariant labels == Labels(e, m[..j], check, t)
    {
      var d := m[j];
      var matches := PyEq(e.payload, d.payload.payload);
      var inTcc: Option<bool> := None;
      if check {
        inTcc := Some(PyEq(t, d.payload.payload));
      }
      labels := labels + [Candidate(n, d, matches, inTcc)];
      n := n + 1;
      assert m[..j + 1][..j] == m[..j];
    }
    assert m[..|m|] == m;
  }

  /** The loop of `report` over the expected payloads. */
  method Reconcile(profiles: ProfileMap, tcc: TccMap, expected: seq<Payload>) returns (r: Result<seq<Verdict>>)
    ensures r == VerdictsFor(profiles, tcc, expected)
  {
    var verdicts: seq<Verdict> := [];
    assert expected[0..] == expected;
    assert Prepend([], VerdictsFor(profiles, tcc, expected)) == VerdictsFor(profiles, tcc, expected) by {
      if VerdictsFor(profiles, tcc, expected).Ok? {
        assert [] + VerdictsFor(profiles, tcc, expected).value == VerdictsFor(profiles, tcc, expected).value;
      }
    }
    for i := 0 to |expected|
      invariant VerdictsFor(profiles, tcc, expected) == Prepend(verdicts, VerdictsFor(profiles, tcc, expected[i..]))
    {
      VerdictsStep(profiles, tcc, expected, i, verdicts);
      var e := expected[i];
      if !Hashable(e) {
        return Err(Unhashable);
      }
      var v: Verdict;
      var found := FindKey(profiles, e);
      if found.None? {
        v := NotProvided(e);
      } else {
        var m := profiles[found.value].1;
        var t := Null;
        var check := false;
        if ChecksTcc(e) {
          t := TccValue(tcc, e);
          check := true;
        }
        if |m| == 1 {
          if PyEq(e.payload, m[0].payload.payload) {
            if !check || PyEq(t, m[0].payload.payload) {
              v := Found(e, m[0]);
            } else {
              v := FoundNotInTcc(e, m[0]);
            }
          } else {
            v := Mismatch(e, m[0]);
          }
        } else {
          var labels := ListCandidates(e, m, check, t);
          v := Duplicate(e, labels);
        }
      }
      assert VerdictFor(profiles, tcc, e) == Ok(v);
      verdicts := verdicts + [v];
    }
    assert verdicts + [] == verdicts;
    return Ok(verdicts);
  }

  // The onboarding count.

  /** `onboarding_infos`: the lists of every key of the managed-preferences
      type, concatenated in map order. */
  function OnboardingInfos(profiles: ProfileMap): seq<ProfileEntry>
    decreases |profiles|
  {
    if profiles == [] then []
    else
      var last := profiles[|profiles| - 1];
      OnboardingInfos(profiles[..|profiles| - 1]) + (if last.0.payloadType == MANAGED_PREFERENCES then last.1 else [])
  }

  function OnboardingVerdictOf(infos: seq<ProfileEntry>): (v: OnboardingVerdict)
    ensures v == OnboardingFound <==> |infos| == 1
    ensures v == OnboardingMissing <==> |infos| == 0
    ensures v.OnboardingMultiple? <==> |infos| > 1
  {
    if |infos| == 1 then OnboardingFound
    else if |infos| == 0 then OnboardingMissing
    else OnboardingMultiple(infos)
  }

  /** The loop of `report` over the map's items that gathers the onboarding
      payloads. */
  method CollectOnboarding(profiles: ProfileMap) returns (infos: seq<ProfileEntry>)
    ensures infos == OnboardingInfos(profiles)
  {
    infos := [];
    for i := 0 to |profiles|
      invariant infos == OnboardingInfos(profiles[..i])
    {
      var (k, v) := profiles[i];
      assert profiles[..i + 1][..i] == profiles[..i];
      if k.payloadType == MANAGED_PREFERENCES {
        infos := infos + v;
      }
    }
    assert profiles[..|profiles|] == profiles;
  }

  // The whole run.

  /** What `report` produces from the three documents; the first uncaught
      exception ends the run. */
  function ReportSpec(path: string, profilesDoc: Value, templateDoc: Value, store: Option<Value>): Result<Outcome> {
    var installed :- ParseProfilesSpec(path, profilesDoc);
    var expected :- ExpectedSpec(templateDoc);
    var overrides :- ParseTccSpec(store);
    var verdicts :- VerdictsFor(installed.0, overrides.0, expected.payloads);
    Ok(Outcome(installed.1 + expected.log + overrides.1, verdicts, OnboardingVerdictOf(OnboardingInfos(installed.0))))
  }

  /** `report`: the three parsers, the verdict loop and the onboarding count. */
  method Report(path: string, profilesDoc: Value, templateDoc: Value, store: Option<Value>) returns (r: Result<Outcome>)
    ensures r == ReportSpec(path, profilesDoc, templateDoc, store)
  {
    var installed :- ParseProfiles(path, profilesDoc);
    var expected :- ParseExpected(templateDoc);
    var overrides :- ParseTcc(store);
    var verdicts :- Reconcile(installed.0, overrides.0, expected.payloads);
    var infos := CollectOnboarding(installed.0);
    return Ok(Outcome(installed.1 + expected.log + overrides.1, verdicts, OnboardingVerdictOf(infos)));
  }

  // What the verdicts mean, for a map grouped from the traversal `entries`.

  /** An expected payload is reported as not provided exactly when no installed
      payload equals it. */
  lemma NotProvidedIffAbsent(entries: seq<ProfileEntry>, tcc: TccMap, e: Payload)
    requires Hashable(e)
    ensures VerdictFor(Group(entries), tcc, e) == Ok(NotProvided(e)) <==> Candidates(entries, e) == []
  {
    LookupGroup(entries, e);
  }

  /** With exactly one installed payload `c` equal to `e`: found when the values
      are equal and, for a SystemPolicyAllFiles payload, the override fields
      equal them too; found but not in the store when only the values are
      equal; a mismatch otherwise. */
  lemma SingleCandidateVerdict(entries: seq<ProfileEntry>, tcc: TccMap, e: Payload, c: ProfileEntry)
    requires Hashable(e) && Candidates(entries, e) == [c]
    ensures VerdictFor(Group(entries), tcc, e).Ok?
    ensures
      var v := VerdictFor(Group(entries), tcc, e).value;
      var matches := PyEq(e.payload, c.payload.payload);
      var inTcc := !ChecksTcc(e) || PyEq(TccValue(tcc, e), c.payload.payload);
      (v == Found(e, c) <==> matches && inTcc) &&
      (v == FoundNotInTcc(e, c) <==> matches && !inTcc) &&
      (v == Mismatch(e, c) <==> !matches)
  {
    LookupGroup(entries, e);
  }

  /** With several installed payloads equal to `e`, every one of them is listed,
      in traversal order, numbered from 1, with its Match label and, only for a
      SystemPolicyAllFiles payload, its In TCC label. */
  lemma DuplicateVerdict(entries: seq<ProfileEntry>, tcc: TccMap, e: Payload)
    requires Hashable(e) && |Candidates(entries, e)| > 1
    ensures VerdictFor(Group(entries), tcc, e).Ok? && VerdictFor(Group(entries), tcc, e).value.Duplicate?
    ensures
      var cs := VerdictFor(Group(entries), tcc, e).value.candidates;
      var m := Candidates(entries, e);
      var t := TccValue(tcc, e);
      |cs| == |m| &&
      forall i :: 0 <= i < |cs| ==>
        cs[i].number == i + 1 && cs[i].at == m[i] &&
        (cs[i].matches <==> PyEq(e.payload, m[i].payload.payload)) &&
        (cs[i].inTcc.Some? <==> ChecksTcc(e)) &&
        (cs[i].inTcc.Some? ==> (cs[i].inTcc.value <==> PyEq(t, m[i].payload.payload)))
  {
    LookupGroup(entries, e);
    DuplicateLabels(Group(entries), tcc, e, FindKey(Group(entries), e).value);
  }

  lemma DuplicateLabels(profiles: ProfileMap, tcc: TccMap, e: Payload, k: nat)
    requires Hashable(e) && FindKey(profiles, e) == Some(k) && |profiles[k].1| > 1
    ensures VerdictFor(profiles, tcc, e).Ok? && VerdictFor(profiles, tcc, e).value.Duplicate?
    ensures
      var cs := VerdictFor(profiles, tcc, e).value.candidates;
      var m := profiles[k].1;
      var t := TccValue(tcc, e);
      |cs| == |m| &&
      forall i :: 0 <= i < |cs| ==>
        cs[i].number == i + 1 && cs[i].at == m[i] &&
        (cs[i].matches <==> PyEq(e.payload, m[i].payload.payload)) &&
        (cs[i].inTcc.Some? <==> ChecksTcc(e)) &&
        (cs[i].inTcc.Some? ==> (cs[i].inTcc.value <==> PyEq(t, m[i].payload.payload)))
  {
    var m := profiles[k].1;
    var check := ChecksTcc(e);
    var t := if check then TccValue(tcc, e) else Null;
    assert VerdictFor(profiles, tcc, e) == Ok(Duplicate(e, Labels(e, m, check, t)));
  }

  /** Kernel- and system-extension policies carry no value, so an installed
      extension equal to the expected one always matches it. */
  lemma ExtensionsNeverMismatch(entries: seq<ProfileEntry>, tcc: TccMap, e: Payload)
    requires Hashable(e) && Conforms(e) && (e.kind.Kext? || e.kind.SysExt?)
    requires forall x <- entries :: Conforms(x.payload)
    ensures VerdictFor(Group(entries), tcc, e).Ok?
    ensures
      var v := VerdictFor(Group(entries), tcc, e).value;
      !v.Mismatch? && !v.FoundNotInTcc? &&
      (v.Duplicate? ==> forall i :: 0 <= i < |v.candidates| ==> v.candidates[i].matches && v.candidates[i].inTcc.None?)
  {
    var m := Candidates(entries, e);
    forall x <- m ensures PyEq(e.payload, x.payload.payload) {
      CandidatesIn(entries, e, x);
      CandidatesEqual(entries, e, x);
      ExtensionValuesAlwaysMatch(e, x.payload);
    }
    if |m| == 1 {
      SingleCandidateVerdict(entries, tcc, e, m[0]);
    } else if |m| > 1 {
      DuplicateVerdict(entries, tcc, e);
    } else {
      NotProvidedIffAbsent(entries, tcc, e);
    }
  }

  /** Without override fields for a SystemPolicyAllFiles payload, it is never
      reported as found: `t` stays None, and no installed definition's value
      equals None. */
  lemma MissingOverrideNeverFound(entries: seq<ProfileEntry>, tcc: TccMap, e: Payload)
    requires Hashable(e) && ChecksTcc(e) && Stored(tcc, e).None?
    requires forall x <- entries :: Conforms(x.payload)
    ensures VerdictFor(Group(entries), tcc, e).Ok?
    ensures
      var v := VerdictFor(Group(entries), tcc, e).value;
      !v.Found? && (v.Duplicate? ==> forall i :: 0 <= i < |v.candidates| ==> v.candidates[i].inTcc == Some(false))
  {
    var m := Candidates(entries, e);
    forall x <- m ensures x.payload.payload.Dict? {
      CandidatesIn(entries, e, x);
      CandidatesEqual(entries, e, x);
      PayloadEqIff(e, x.payload);
    }
    if |m| == 1 {
      SingleCandidateVerdict(entries, tcc, e, m[0]);
    } else if |m| > 1 {
      DuplicateVerdict(entries, tcc, e);
    } else {
      NotProvidedIffAbsent(entries, tcc, e);
    }
  }

  /** The override fields read from a definition equal that definition's policy
      value although their keys come in another order, so a single installed
      definition whose override was stored from the same definition is found. */
  lemma OverrideOfSameDefinitionFound(entries: seq<ProfileEntry>, tcc: TccMap, e: Payload, c: ProfileEntry, definition: Value)
    requires Hashable(e) && ChecksTcc(e) && Candidates(entries, e) == [c]
    requires HasTccFields(definition) && c.payload == GetSystemPolicyAllFiles(definition).value
    requires Stored(tcc, e) == Some(RecordFields(definition))
    requires PyEq(e.payload, c.payload.payload)
    ensures VerdictFor(Group(entries), tcc, e) == Ok(Found(e, c))
  {
    RecordMatchesPayload(definition);
    SingleCandidateVerdict(entries, tcc, e, c);
  }

  /** Exactly one verdict per expected payload, in template order, each about
      its own payload; the loop fails only when an expected payload cannot be
      hashed. */
  lemma {:induction false} OneVerdictEach(profiles: ProfileMap, tcc: TccMap, expected: seq<Payload>)
    ensures VerdictsFor(profiles, tcc, expected).Ok? <==> forall i :: 0 <= i < |expected| ==> Hashable(expected[i])
    ensures VerdictsFor(profiles, tcc, expected).Err? ==> VerdictsFor(profiles, tcc, expected) == Err(Unhashable)
    ensures VerdictsFor(profiles, tcc, expected).Ok? ==>
      var vs := VerdictsFor(profiles, tcc, expected).value;
      |vs| == |expected| &&
      forall i :: 0 <= i < |vs| ==> Ok(vs[i]) == VerdictFor(profiles, tcc, expected[i]) && vs[i].expected == expected[i]
    decreases |expected|
  {
    if expected != [] {
      var rest := expected[1..];
      OneVerdictEach(profiles, tcc, rest);
      assert forall i :: 1 <= i < |expected| ==> expected[i] == rest[i - 1];
    }
  }

  // The onboarding payloads.

  /** The installed entries of the managed-preferences type, in traversal order. */
  function OnboardingEntries(entries: seq<ProfileEntry>): seq<ProfileEntry>
    decreases |entries|
  {
    if entries == [] then []
    else
      var last := entries[|entries| - 1];
      OnboardingEntries(entries[..|entries| - 1]) + (if last.payload.payloadType == MANAGED_PREFERENCES then [last] else [])
  }

  lemma {:induction false} InfosNone(m: ProfileMap)
    requires forall i :: 0 <= i < |m| ==> m[i].0.payloadType != MANAGED_PREFERENCES
    ensures OnboardingInfos(m) == []
    decreases |m|
  {
    if m != [] {
      InfosNone(m[..|m| - 1]);
    }
  }

  lemma {:induction false} InfosOne(m: ProfileMap, k: nat)
    requires k < |m| && m[k].0.payloadType == MANAGED_PREFERENCES
    requires forall i :: 0 <= i < |m| && i != k ==> m[i].0.payloadType != MANAGED_PREFERENCES
    ensures OnboardingInfos(m) == m[k].1
    decreases |m|
  {
    var n := |m| - 1;
    if k == n {
      InfosNone(m[..n]);
    } else {
      InfosOne(m[..n], k);
    }
  }

  lemma {:induction false} NoOnboardingEntries(entries: seq<ProfileEntry>)
    requires forall t :: 0 <= t < |entries| ==> entries[t].payload.payloadType != MANAGED_PREFERENCES
    ensures OnboardingEntries(entries) == []
    decreases |entries|
  {
    if entries != [] {
      NoOnboardingEntries(entries[..|entries| - 1]);
    }
  }

  /** Onboarding payloads have an empty key, so the entries equal to one are
      exactly the entries of its type. */
  lemma {:induction false} CandidatesOnboarding(entries: seq<ProfileEntry>, q: Payload)
    requires q.kind.OnboardingInfo? && q.payloadType == MANAGED_PREFERENCES
    requires forall x <- entries :: Conforms(x.payload)
    ensures Candidates(entries, q) == OnboardingEntries(entries)
    decreases |entries|
  {
    if entries != [] {
      var n := |entries| - 1;
      var x := entries[n];
      assert forall y <- entries[..n] :: y in entries;
      CandidatesOnboarding(entries[..n], q);
      PayloadEqIff(x.payload, q);
      if x.payload.payloadType == MANAGED_PREFERENCES {
        OnboardingSingleIdentity(x.payload, q);
      }
    }
  }

  /** A map whose keys head lists of conforming entries has conforming keys. */
  lemma HeadsConform(m: ProfileMap, entries: seq<ProfileEntry>)
    requires ListHeads(m) && ListsAre(m, entries) && forall x <- entries :: Conforms(x.payload)
    ensures forall i :: 0 <= i < |m| ==> Conforms(m[i].0)
  {
    forall i | 0 <= i < |m| ensures Conforms(m[i].0) {
      CandidatesIn(entries, m[i].0, m[i].1[0]);
    }
  }

  /** Every key of a grouped map is one of the entries' payloads. */
  lemma KeysConform(entries: seq<ProfileEntry>)
    requires forall x <- entries :: Conforms(x.payload)
    ensures forall i :: 0 <= i < |Group(entries)| ==> Conforms(Group(entries)[i].0)
  {
    GroupSpec(entries);
    HeadsConform(Group(entries), entries);
  }

  /** Pairwise unequal conforming keys include at most one onboarding key. */
  lemma OnlyOnboardingKey(m: ProfileMap, k: nat)
    requires DistinctKeys(m) && k < |m| && m[k].0.payloadType == MANAGED_PREFERENCES
    requires forall i :: 0 <= i < |m| ==> Conforms(m[i].0)
    ensures forall i :: 0 <= i < |m| && i != k ==> m[i].0.payloadType != MANAGED_PREFERENCES
  {
    forall i | 0 <= i < |m| && i != k ensures m[i].0.payloadType != MANAGED_PREFERENCES {
      if m[i].0.payloadType == MANAGED_PREFERENCES {
        OnboardingSingleIdentity(m[i].0, m[k].0);
        OnboardingSingleIdentity(m[k].0, m[i].0);
        assert false;
      }
    }
  }

  /** All onboarding payloads share one identity and so one key: the infos the
      report counts are exactly the installed onboarding entries, in traversal
      order. */
  lemma OnboardingInfosMeaning(entries: seq<ProfileEntry>)
    requires forall x <- entries :: Conforms(x.payload)
    ensures OnboardingInfos(Group(entries)) == OnboardingEntries(entries)
  {
    var m := Group(entries);
    KeysConform(entries);
    if k :| 0 <= k < |m| && m[k].0.payloadType == MANAGED_PREFERENCES {
      GroupKeysApart(entries);
      OnlyOnboardingKey(m, k);
      InfosOne(m, k);
      GroupListsAre(entries);
      CandidatesOnboarding(entries, m[k].0);
    } else {
      InfosNone(m);
      forall t | 0 <= t < |entries| ensures entries[t].payload.payloadType != MANAGED_PREFERENCES {
        EveryEntryGroupedOnce(entries, t);
        PayloadEqIff(m[FindKey(m, entries[t].payload).value].0, entries[t].payload);
      }
      NoOnboardingEntries(entries);
    }
  }

  // The whole run.

  /** A report that completes gives one verdict per template payload, in
      template order; a payload is reported as not provided exactly when no
      installed payload equals it; without an override store no
      SystemPolicyAllFiles payload is reported as found; and onboarding info is
      found exactly when one installed onboarding payload exists. */
  lemma ReportMeaning(path: string, profilesDoc: Value, templateDoc: Value, store: Option<Value>)
    ensures ReportSpec(path, profilesDoc, templateDoc, store).Ok? ==>
      var entries := ProfilesDocTrace(path, profilesDoc).value.entries;
      var expected := ExpectedSpec(templateDoc).value.payloads;
      var out := ReportSpec(path, profilesDoc, templateDoc, store).value;
      |out.verdicts| == |expected| &&
      (forall i :: 0 <= i < |expected| ==>
        out.verdicts[i].expected == expected[i] &&
        (out.verdicts[i].NotProvided? <==> Candidates(entries, expected[i]) == []) &&
        (store.None? && ChecksTcc(expected[i]) ==> !out.verdicts[i].Found?)) &&
      (out.onboarding == OnboardingFound <==> |OnboardingEntries(entries)| == 1) &&
      (out.onboarding == OnboardingMissing <==> OnboardingEntries(entries) == [])
  {
    if ReportSpec(path, profilesDoc, templateDoc, store).Ok? {
      var trace := ProfilesDocTrace(path, profilesDoc).value;
      var entries := trace.entries;
      var expected := ExpectedSpec(templateDoc).value.payloads;
      var tcc := ParseTccSpec(store).value.0;
      InstalledEntriesWellFormed(path, profilesDoc);
      assert forall x <- entries :: Conforms(x.payload);
      OneVerdictEach(Group(entries), tcc, expected);
      forall i | 0 <= i < |expected|
        ensures VerdictFor(Group(entries), tcc, expected[i]).value.NotProvided? <==> Candidates(entries, expected[i]) == []
        ensures store.None? && ChecksTcc(expected[i]) ==> !VerdictFor(Group(entries), tcc, expected[i]).value.Found?
      {
        NotProvidedIffAbsent(entries, tcc, expected[i]);
        if store.None? && ChecksTcc(expected[i]) {
          assert tcc == [];
          MissingOverrideNeverFound(entries, tcc, expected[i]);
        }
      }
      OnboardingInfosMeaning(entries);
    }
  }
}
