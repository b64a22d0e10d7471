# Defender MDM profile analyzer: reconciliation core

`macos/mdm/analyze_profiles.py` checks that a Mac has the configuration-profile
payloads that Microsoft Defender for Endpoint needs. It reads three documents:
- the installed profiles, as reported by `profiles show`;
- the expected template, a `.mobileconfig`;
- the TCC MDM-override store, `MDMOverrides.plist`.

It extracts typed payloads from each and gives every expected payload a verdict:
- not provided;
- found;
- found but not in the TCC database;
- found with a different value;
- duplicate definitions, with every candidate listed.

It also checks that exactly one onboarding blob is installed.

This project models that core in Dafny:

- `values.dfy` (`PyValue`) is the plist data a document holds, together with the
  parts of Python the script relies on:
  - `==` (`PyEq`): dictionaries compare regardless of key order, and `True == 1`;
  - subscripts, `.get`, `.items()`, `.values()`, `in` and iteration;
  - truthiness, and which values can be hashed.

  An exception the script does not catch becomes `Err(fault)`, and the run ends
  there.
- `payloads.dfy` (`Payloads`) holds the six payload classes as one `Payload`
  datatype whose `Kind` carries the fields of `get_ids`. Identity (`__eq__`) is
  `PayloadEq` over `get_all_ids`. `Conforms` describes the shape that extraction
  gives every payload.
- `extraction.dfy` (`Extraction`) holds `get_SystemPolicyAllFiles` and
  `get_payloads`. The warnings and errors the generator prints become a
  `Diagnostic` log returned beside the payloads.
- `indexing.dfy` (`Indexing`) holds the dictionaries keyed by payload. A dictionary
  is an association list in insertion order, looked up by payload identity:
  - `Group` is the result of `parse_profiles`;
  - `PutAll` is the result of `parse_tcc`.

  It also has their characterisations: `Candidates` for the grouped map, and
  "the last record wins" for the TCC map.
- `parsing.dfy` (`Parsing`) holds `parse_profiles`, `parse_expected` and
  `parse_tcc`. Each is a method with one loop per source loop, proved equal to a
  specification function over the whole document. Each loop body is a method of
  its own (`Next…`) whose contract says which part of the document one turn
  consumes. The installed-profiles traversal is written for any per-item
  extraction, and `parse_profiles` runs it with `ItemPayloads` (tag, content,
  `get_payloads`). Lemmas cover what the specification functions guarantee.
- `report.dfy` (`Reconciliation`) holds `report`:
  - the verdict loop over the expected payloads, with the candidate loop and its
    counter `n`;
  - the onboarding count;
  - `Report`, which composes the three parsers with both loops.

  Lemmas state what each verdict means in terms of the installed entries.

## Model

| member | source | states |
|---|---|---|
| PyValue.PyEqReflexive | macos/mdm/analyze_profiles.py:272-273 | Python `==` on plist values is reflexive |
| PyValue.PyEqSymmetric | macos/mdm/analyze_profiles.py:272-273 | Python `==` on plist values is symmetric |
| PyValue.PyEqTransitive | macos/mdm/analyze_profiles.py:272-273 | Python `==` on plist values is transitive |
| PyValue.DictOrderIrrelevant | macos/mdm/analyze_profiles.py:241-246 | a dictionary equals any reordering of its entries (distinct keys) |
| PyValue.GetItem | macos/mdm/analyze_profiles.py:188-189 | `d[key]` succeeds exactly when `d` is a dictionary holding `key`, and returns the first binding of `key` |
| PyValue.GetIndex | macos/mdm/analyze_profiles.py:175 | `a[n]` on a list succeeds exactly when `n` is in range and gives the n-th item; on a dictionary or scalar it raises |
| PyValue.GetOrNull | macos/mdm/analyze_profiles.py:162-167 | `.get(key)` succeeds exactly on dictionaries, and gives the value bound to `key`, or None when `key` is absent |
| PyValue.Contains | macos/mdm/analyze_profiles.py:237 | `key in d` on a dictionary is key presence, on a list membership by `==`, on a string substring search; on any other value it raises |
| PyValue.Iter | macos/mdm/analyze_profiles.py:187 | iterating a list gives its items, a dictionary its keys in document order, a string its one-character strings, bytes their integer values; any other value raises |
| PyValue.Items | macos/mdm/analyze_profiles.py:184 | `.items()` succeeds exactly on dictionaries and gives the entries in document order |
| PyValue.Values | macos/mdm/analyze_profiles.py:236 | `.values()` succeeds exactly on dictionaries and gives the values in document order |
| Payloads.PayloadEqIff | macos/mdm/analyze_profiles.py:27-37 | two payloads are equal exactly when their type tags are equal and their `get_ids` tuples are equal element by element |
| Payloads.ValueDoesNotAffectEquality | macos/mdm/analyze_profiles.py:22-37 | the `payload` value never takes part in equality: same tag and same `get_ids` key means equal, whatever the values, including the web-filter properties copied from the value |
| Payloads.PayloadEqReflexive | macos/mdm/analyze_profiles.py:36-37 | payload identity is reflexive |
| Payloads.PayloadEqSymmetric | macos/mdm/analyze_profiles.py:36-37 | payload identity is symmetric |
| Payloads.PayloadEqTransitive | macos/mdm/analyze_profiles.py:36-37 | payload identity is transitive |
| Payloads.OnboardingSingleIdentity | macos/mdm/analyze_profiles.py:106-111 | onboarding payloads have an empty key, so two of them are equal exactly when their tags are |
| Payloads.EqualConformingSameKind | macos/mdm/analyze_profiles.py:27-37 | equal payloads as extraction builds them are of the same class |
| Payloads.ExtensionValuesAlwaysMatch | macos/mdm/analyze_profiles.py:57-75 | kernel- and system-extension payloads store None, so the values of two equal ones always compare equal |
| Payloads.NewSystemPolicyAllFiles | macos/mdm/analyze_profiles.py:45-52 | the constructor needs `payload['Identifier']` and keys the payload by (tag, identifier, service type) |
| Payloads.Properties | macos/mdm/analyze_profiles.py:84-87 | the filter properties are copied key by key and a missing key raises |
| Payloads.NewKext | macos/mdm/analyze_profiles.py:57-63 | a kernel-extension payload stores None and is keyed by its tag and team identifier |
| Payloads.NewSysExt | macos/mdm/analyze_profiles.py:68-75 | a system-extension payload stores None and is keyed by its tag, team identifier and bundle identifier |
| Payloads.NewOnboardingInfo | macos/mdm/analyze_profiles.py:106-111 | an onboarding payload keeps its blob and is keyed by its tag alone |
| Payloads.NewWebContentFilter | macos/mdm/analyze_profiles.py:80-90 | the constructor needs the bundle identifier and the five property keys, keeps the blob as its value and keys it by the bundle identifier |
| Payloads.NewNotifications | macos/mdm/analyze_profiles.py:95-101 | the constructor needs `BundleIdentifier` and keys the payload by it |
| Extraction.GetSystemPolicyAllFiles | macos/mdm/analyze_profiles.py:137-143 | succeeds exactly when the four fields are present; gives a conforming SystemPolicyAllFiles payload keyed by the identifier whose value has exactly those four fields |
| Extraction.TccDefinitions | macos/mdm/analyze_profiles.py:148-152 | under SystemPolicyAllFiles, succeeds exactly when every definition has the four fields, with one payload per definition and no warning; under any other service, no payload and one warning per definition |
| Extraction.TccDefinitionsMeaning | macos/mdm/analyze_profiles.py:148-150 | under SystemPolicyAllFiles, payload `i` is the one `get_SystemPolicyAllFiles` builds from definition `i` |
| Extraction.TccDefinition | macos/mdm/analyze_profiles.py:149-152 | one definition gives one payload or one warning, by service type |
| Extraction.TccServices | macos/mdm/analyze_profiles.py:147-152 | the number of payloads is the number of SystemPolicyAllFiles definitions, and the number of warnings is the number of other definitions, each naming its service |
| Extraction.TccPayloadOrder | macos/mdm/analyze_profiles.py:147-150 | definition `j` of SystemPolicyAllFiles service `i` gives the payload at position (SystemPolicyAllFiles definitions of the services before `i`) + `j`, built from that definition by `get_SystemPolicyAllFiles` |
| Extraction.TccWarningOrder | macos/mdm/analyze_profiles.py:147-152 | definition `j` of any other service `i` gives, at position (other-service definitions before `i`) + `j` of the log, the warning naming service `i` |
| Extraction.TccServicesOrdered | macos/mdm/analyze_profiles.py:147-152 | over the whole `Services` dictionary, payloads and warnings come service by service in document order and definition by definition, each at its position above |
| Extraction.TccPayloads | macos/mdm/analyze_profiles.py:146-152 | TCC extraction succeeds exactly when `content['Services']` is a dictionary whose definitions all extract; it then gives conforming TCC payloads, one per definition under `SystemPolicyAllFiles`, and one service-type warning per definition under any other service, both in the order `TccServicesOrdered` states |
| Extraction.KextPayloads | macos/mdm/analyze_profiles.py:153-155 | one kernel-extension payload per team identifier, in order, without warnings; fails when `AllowedTeamIdentifiers` is missing |
| Extraction.SysExtTeams | macos/mdm/analyze_profiles.py:157-159 | succeeds exactly when every team's bundle list can be iterated; the count is the total number of bundles; every payload is a conforming system-extension payload |
| Extraction.SysExtTeamsMeaning | macos/mdm/analyze_profiles.py:157-159 | every payload names a listed team and one of that team's bundles, and every (team, bundle) pair has its payload |
| Extraction.SysExtTeamsOrder | macos/mdm/analyze_profiles.py:157-159 | the payloads come team by team in document order and, within a team, bundle by bundle: bundle `j` of team `i` sits right after the bundles of the teams before it and the first `j` of its own |
| Extraction.SysExtPayloads | macos/mdm/analyze_profiles.py:156-159 | system-extension extraction succeeds exactly when `content['AllowedSystemExtensions']` is a dictionary whose every value can be iterated; it then gives one conforming payload per listed bundle, team by team and bundle by bundle, and no warning |
| Extraction.FilterBlob | macos/mdm/analyze_profiles.py:161-168 | the blob is a dictionary of exactly six entries, the six content fields, each null where absent, and so has every key the constructor reads |
| Extraction.WebContentFilterPayloads | macos/mdm/analyze_profiles.py:160-168 | never fails on a dictionary; gives exactly one payload whose value is a dictionary of exactly six entries, the content's fields, each null where absent |
| Extraction.NotificationsEach | macos/mdm/analyze_profiles.py:170-171 | one notifications payload per definition, in order, keyed by its `BundleIdentifier` |
| Extraction.NotificationPayloads | macos/mdm/analyze_profiles.py:169-171 | notifications extraction succeeds exactly when `content['NotificationSettings']` can be iterated and every definition has a `BundleIdentifier`; it then gives one conforming payload per definition, in order, holding that definition and keyed by its bundle identifier, and no warning |
| Extraction.OnboardingPayloads | macos/mdm/analyze_profiles.py:172-178 | at most one payload; nothing at all, payload or diagnostic, when the preferences key or the vendor domain is absent; with the domain present, the onboarding payload when the nested lookup succeeds, and otherwise no payload and exactly the malformed-blob error |
| Extraction.GetPayloads | macos/mdm/analyze_profiles.py:145-178 | each of the six known tags runs its own extractor (TCC, kernel extension, system extension, web filter, notifications, managed preferences) and an unknown tag gives nothing; every payload conforms and carries the tag it was extracted under; the log holds only service-type warnings and malformed-blob errors |
| Indexing.FindKey | macos/mdm/analyze_profiles.py:192-193 | `payload in result` finds the first key equal to the payload, and is absent exactly when no key is equal |
| Indexing.FindKeyUnique | macos/mdm/analyze_profiles.py:192-205 | when keys are pairwise unequal, the lookup finds the only equal key |
| Indexing.CandidatesRespectEq | macos/mdm/analyze_profiles.py:192-205 | equal payloads have the same entries under them |
| Indexing.InsertExisting | macos/mdm/analyze_profiles.py:192-205 | appending an entry under a key already equal to it keeps the map the grouping of the traversal extended by that entry |
| Indexing.InsertNew | macos/mdm/analyze_profiles.py:192-205 | adding a new key for an entry no key equals keeps the map the grouping of the traversal extended by that entry |
| Indexing.GroupSpec | macos/mdm/analyze_profiles.py:180-207 | the grouped map has pairwise unequal keys, no empty list, each key being its list's first entry, and under each key exactly the entries equal to it, in traversal order |
| Indexing.LookupGroup | macos/mdm/analyze_profiles.py:191-205 | a payload is absent from the map exactly when no entry equals it, and otherwise its list is the entries equal to it in order |
| Indexing.CandidatesContain | macos/mdm/analyze_profiles.py:191-205 | every entry is among the entries equal to its own payload |
| Indexing.EveryEntryGroupedOnce | macos/mdm/analyze_profiles.py:191-205 | every entry is appended under the key equal to it, and under no other key |
| Indexing.CandidatesIn | macos/mdm/analyze_profiles.py:191-205 | a listed entry is one of the traversed entries |
| Indexing.CandidatesEqual | macos/mdm/analyze_profiles.py:191-205 | a listed entry equals its key |
| Indexing.PutAllSpec | macos/mdm/analyze_profiles.py:235-246 | the TCC map has pairwise unequal keys, and the value for a payload is that of the last record equal to it |
| Parsing.EntryFor | macos/mdm/analyze_profiles.py:192-203 | an entry is recorded exactly when the payload is hashable and the profile has a display name and install date; it holds the payload, path, level, name and date |
| Parsing.PayloadsTraceOk | macos/mdm/analyze_profiles.py:191-203 | recording an item's payloads succeeds exactly when there are none, or every one hashes and the profile has a display name and install date |
| Parsing.PayloadsTraceEntries | macos/mdm/analyze_profiles.py:191-203 | a recorded item gives one entry per extracted payload, in extraction order, each the entry for that payload, and no diagnostics |
| Parsing.PayloadsTraceMeaning | macos/mdm/analyze_profiles.py:191-203 | both of the above: every payload is recorded once and in order, unless one cannot be hashed or the profile lacks its name or install date |
| Parsing.ItemPayloads | macos/mdm/analyze_profiles.py:188-191 | an item succeeds exactly when it has `PayloadType` and `PayloadContent` and their extraction succeeds, and then its payloads and log are that extraction's; the payloads conform and the log holds only extraction diagnostics |
| Parsing.ProfileItems | macos/mdm/analyze_profiles.py:187 | a profile's items are the iteration of its `ProfileItems` value, and are found exactly when that key is present and its value can be iterated |
| Parsing.ProfilesDocTrace | macos/mdm/analyze_profiles.py:184 | a profiles document that is not a dictionary raises at `.items()` |
| Parsing.NextPayload | macos/mdm/analyze_profiles.py:192-205 | one turn of the innermost loop appends the payload's entry under its identity, so the map stays the grouping of the traversal so far, or stops with that entry's fault |
| Parsing.AddPayloads | macos/mdm/analyze_profiles.py:191-205 | the innermost loop extends the grouped map by the entries of one item's payloads and returns the diagnostics printed so far, or stops with their fault |
| Parsing.AddItem | macos/mdm/analyze_profiles.py:188-205 | one item: reading its tag and content and extracting its payloads either fails with that fault, or prints the extraction's diagnostics and then runs the payload loop |
| Parsing.NextItem | macos/mdm/analyze_profiles.py:187-205 | one turn of the item loop consumes exactly item `k` of the remaining traversal, or stops with its fault |
| Parsing.AddItems | macos/mdm/analyze_profiles.py:187-205 | the item loop extends the grouped map by one profile's entries and returns the diagnostics printed so far, or stops with the first fault |
| Parsing.AddProfile | macos/mdm/analyze_profiles.py:186-205 | one profile: `profile['ProfileItems']` is iterated, or its fault ends the run |
| Parsing.NextProfile | macos/mdm/analyze_profiles.py:185-205 | one turn of the profile loop consumes exactly profile `j` of the remaining traversal, or stops with its fault |
| Parsing.AddProfiles | macos/mdm/analyze_profiles.py:185-205 | the profile loop extends the grouped map by one level's entries and returns the diagnostics printed so far, or stops with the first fault |
| Parsing.ParseProfiles | macos/mdm/analyze_profiles.py:180-207 | `parse_profiles` returns the traversal's entries grouped by identity, with their diagnostics, or the traversal's first fault |
| Parsing.InstalledEntriesWellFormed | macos/mdm/analyze_profiles.py:180-207 | every recorded entry carries the document's path and a hashable, conforming payload |
| Parsing.GroupKeysSound | macos/mdm/analyze_profiles.py:191-205 | grouping entries with hashable, conforming payloads gives a map keyed by such payloads that groups the entries |
| Parsing.ParseProfilesGroups | macos/mdm/analyze_profiles.py:180-207 | the returned map groups the traversal, and every key is hashable and conforming |
| Parsing.TemplateItem | macos/mdm/analyze_profiles.py:212-219 | a template item gives the payloads `get_payloads` gives for the whole item under its `PayloadType`, and its log is that extraction's log followed by the unexpected-item warning exactly when there are no payloads |
| Parsing.TemplateItemsAppend | macos/mdm/analyze_profiles.py:209-221 | the template's payloads are the per-item extractions concatenated in template order |
| Parsing.TemplateSingleItem | macos/mdm/analyze_profiles.py:212-219 | a template of one item gives that item's extraction |
| Parsing.TemplateConforms | macos/mdm/analyze_profiles.py:209-221 | every expected payload conforms, and the template log holds only extraction and unexpected-item diagnostics |
| Parsing.ParseExpected | macos/mdm/analyze_profiles.py:209-221 | the accumulating loop returns the template's extraction or its first fault |
| Parsing.NextService | macos/mdm/analyze_profiles.py:236-246 | one turn of the store loop stores the service's record, if any, under its payload, so the map stays the last-record-wins map of the records so far, or stops with the service's fault |
| Parsing.ParseTcc | macos/mdm/analyze_profiles.py:223-248 | the store loop builds the last-record-wins map of the SystemPolicyAllFiles grants; a missing store gives an empty map and the missing-store warning |
| Parsing.RecordMatchesPayload | macos/mdm/analyze_profiles.py:241-246 | the four stored fields equal the policy value built from the same definition, in both directions, although their keys come in another order |
| Parsing.ServiceRecord | macos/mdm/analyze_profiles.py:237-246 | a service without the all-files key records nothing; otherwise at most one record, keyed by the hashable payload built from that definition, with its four fields, after `CodeRequirementData` has been read |
| Parsing.ServiceRecordMeaning | macos/mdm/analyze_profiles.py:237-246 | a service gives a record exactly when it has the SystemPolicyAllFiles grant; the record is keyed by that definition's identity with its four fields, and needs `CodeRequirementData` |
| Parsing.ServiceRecordsMeaning | macos/mdm/analyze_profiles.py:235-246 | one record per granting service; every key is hashable, conforming and SystemPolicyAllFiles, and its fields equal its value |
| Reconciliation.ListCandidates | macos/mdm/analyze_profiles.py:283-299 | the candidate loop labels every candidate, numbering them from 1 |
| Reconciliation.Reconcile | macos/mdm/analyze_profiles.py:258-301 | the verdict loop gives the verdict of each expected payload in order, or fails at the first unhashable one |
| Reconciliation.OnboardingVerdictOf | macos/mdm/analyze_profiles.py:309-314 | one onboarding info is found, none is not found, more are multiple |
| Reconciliation.CollectOnboarding | macos/mdm/analyze_profiles.py:304-307 | the loop concatenates the lists of every managed-preferences key in map order |
| Reconciliation.Report | macos/mdm/analyze_profiles.py:253-317 | `report` runs the three parsers, the verdict loop and the onboarding count, and stops at the first fault |
| Reconciliation.VerdictFor | macos/mdm/analyze_profiles.py:259-301 | the verdict of one expected payload fails only when it cannot be hashed; otherwise it is about that payload, and is "not provided" exactly when no key equals it |
| Reconciliation.NotProvidedIffAbsent | macos/mdm/analyze_profiles.py:259-301 | an expected payload is not provided exactly when no installed payload equals it |
| Reconciliation.SingleCandidateVerdict | macos/mdm/analyze_profiles.py:262-279 | one candidate: found iff the values are equal and the TCC fields (when checked) equal them; not in TCC iff only the values are equal; mismatch iff the values differ |
| Reconciliation.DuplicateVerdict | macos/mdm/analyze_profiles.py:280-299 | several candidates: each is listed in traversal order, numbered from 1, with its Match label, and with an In TCC label exactly for TCC SystemPolicyAllFiles payloads |
| Reconciliation.DuplicateLabels | macos/mdm/analyze_profiles.py:280-299 | the duplicate verdict labels each entry under the expected payload's key |
| Reconciliation.Labels | macos/mdm/analyze_profiles.py:283-299 | each label carries its own number, entry and comparisons |
| Reconciliation.ExtensionsNeverMismatch | macos/mdm/analyze_profiles.py:271-299 | an expected kernel- or system-extension payload is never a mismatch or not-in-TCC, and all its duplicate candidates match |
| Reconciliation.MissingOverrideNeverFound | macos/mdm/analyze_profiles.py:265-276 | a SystemPolicyAllFiles payload without stored override fields is never found, and all its duplicate candidates are not in TCC |
| Reconciliation.OverrideOfSameDefinitionFound | macos/mdm/analyze_profiles.py:266-274 | a single matching SystemPolicyAllFiles candidate whose override came from the same definition is found |
| Reconciliation.OneVerdictEach | macos/mdm/analyze_profiles.py:258-301 | exactly one verdict per expected payload, in template order, each about its own payload; only an unhashable payload stops the loop |
| Reconciliation.OnboardingInfosMeaning | macos/mdm/analyze_profiles.py:303-307 | all onboarding payloads share one key, so the counted infos are exactly the installed onboarding entries in traversal order |
| Reconciliation.ReportMeaning | macos/mdm/analyze_profiles.py:253-314 | a completed report has one verdict per template payload with the not-provided iff absent rule, no found SystemPolicyAllFiles verdict without a store, and onboarding found or missing exactly when one or no onboarding entry is installed |

## Left out

- Colours and the `print_*` helpers (lines 6-20 and 116-126) are not modelled. Their messages are the `Verdict`, `OnboardingVerdict` and `Diagnostic` values returned.
- `read_plist`, the copy of the store and the `plutil` conversion (lines 128-135 and 228-230) are not modelled. The three documents are parameters. A store that cannot be read (`IOError`) is `None`.
- Argument parsing, the template download and the `profiles` invocation (lines 319-381) are not modelled: they are command-line, network and process plumbing.
- `__hash__` is modelled only by whether it succeeds: an identity holding a list or dictionary raises, which gives `Unhashable`.
- `__str__`, `__repr__` and `format_location` are not modelled: they only format messages.
- Reconciliation.OnboardingVerdictOf: the listing at lines 315-317 prints every info with the number 1, because its counter is never incremented. The model returns the infos themselves and does not model that numbering.
- Floating-point (`real`) plist values are not modelled. Dates and data blobs compare only by equality.
- Document order follows Python 3.7 and later, where a dictionary keeps its insertion order. The script also runs under Python 2 (lines 1-3 and 128-135), where `.items()` and `.values()` visit keys in an arbitrary order. Three results depend on that order: the order of the entries under a key across levels, the numbering of duplicate candidates, and which TCC record is the last one stored at line 246. The model does not cover Python 2 ordering.
- Dictionaries with a repeated key are not modelled. A plist dictionary has unique keys, and a lookup returns the first binding.
- The script prints diagnostics and verdicts as it goes. When a run then fails with an uncaught exception, the model returns only the fault and drops the diagnostics and the verdicts printed before it; for instance, `Reconcile` returns only `Err(Unhashable)` when a later expected payload cannot be hashed.
- `get_payloads` is a generator that `parse_profiles` consumes lazily. The model extracts each item completely before recording its entries. For an item that raises both during extraction and while recording an entry, the model may report a different exception than the script.
- The web-content-filter `properties` dictionary is stored in the payload's kind but never compared, just as the script never uses it.
